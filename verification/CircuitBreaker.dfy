/** The circuit breaker in front of a search provider. */
module CircuitBreaker {
  import opened Wrappers

  datatype Mode = Closed | Open | HalfOpen

  datatype State = State(failures: nat, last: Option<real>, mode: Mode)

  /** What the provider code tells the breaker, with the clock reading where the breaker takes one. */
  datatype Event = Success | Failure(now: real) | Ask(now: real)

  const START := State(0, None, Closed)

  /** A recorded failure time of 0.0 counts as no time at all. */
  predicate Recovered(s: State, timeout: real, now: real) {
    s.last.Some? && s.last.value != 0.0 && now - s.last.value > timeout
  }

  predicate Allows(s: State, timeout: real, now: real) {
    s.mode != Open || Recovered(s, timeout, now)
  }

  function Step(s: State, threshold: int, timeout: real, e: Event): (r: State) {
    match e
    case Success => START
    case Failure(now) => State(s.failures + 1, Some(now), if s.failures + 1 >= threshold then Open else s.mode)
    case Ask(now) => if s.mode == Open && Recovered(s, timeout, now) then s.(mode := HalfOpen) else s
  }

  class Breaker {
    const threshold: int
    const timeout: real
    var failures: nat
    var last: Option<real>
    var mode: Mode

    constructor (threshold: int, timeout: real)
      ensures this.threshold == threshold && this.timeout == timeout && View() == START
    {
      this.threshold, this.timeout := threshold, timeout;
      failures, last, mode := 0, None, Closed;
    }

    function View(): (s: State)
      reads this
    {
      State(failures, last, mode)
    }

    method RecordSuccess()
      modifies this
      ensures View() == Step(old(View()), threshold, timeout, Success)
    {
      failures, mode, last := 0, Closed, None;
    }

    method RecordFailure(now: real)
      modifies this
      ensures View() == Step(old(View()), threshold, timeout, Failure(now))
    {
      failures := failures + 1;
      last := Some(now);
      if failures >= threshold {
        mode := Open;
      }
    }

    method AllowRequest(now: real) returns (ok: bool)
      modifies this
      ensures ok <==> Allows(old(View()), timeout, now)
      ensures View() == Step(old(View()), threshold, timeout, Ask(now))
    {
      if mode == Closed { return true; }
      if mode == Open {
        if last.Some? && last.value != 0.0 && now - last.value > timeout {
          mode := HalfOpen;
          return true;
        }
        return false;
      }
      return true;
    }
  }

  // ---- The state as a function of the history ----

  function Run(threshold: int, timeout: real, h: seq<Event>): (s: State) {
    if h == [] then START
    else Step(Run(threshold, timeout, h[..|h| - 1]), threshold, timeout, h[|h| - 1])
  }

  /** Failures since the latest success. */
  function Streak(h: seq<Event>): (n: nat) {
    if h == [] then 0
    else
      match h[|h| - 1]
      case Success => 0
      case Failure(_) => Streak(h[..|h| - 1]) + 1
      case Ask(_) => Streak(h[..|h| - 1])
  }

  /** The time of the latest failure since the latest success. */
  function LatestFailure(h: seq<Event>): (t: Option<real>) {
    if h == [] then None
    else
      match h[|h| - 1]
      case Success => None
      case Failure(now) => Some(now)
      case Ask(_) => LatestFailure(h[..|h| - 1])
  }

  /** A request later than the recovery time was made since the latest failure. */
  function Probed(timeout: real, h: seq<Event>): (b: bool) {
    if h == [] then false
    else
      match h[|h| - 1]
      case Success => false
      case Failure(_) => false
      case Ask(now) =>
        var t := LatestFailure(h);
        Probed(timeout, h[..|h| - 1]) || (t.Some? && t.value != 0.0 && now - t.value > timeout)
  }

  /** After any interleaving of requests and outcomes the breaker is closed exactly while fewer failures than
      the threshold have followed the latest success; otherwise it is half open exactly when it has been
      asked after the recovery time. */
  lemma {:induction false} StateFromHistory(threshold: int, timeout: real, h: seq<Event>)
    requires threshold >= 1
    ensures Run(threshold, timeout, h) ==
            State(Streak(h), LatestFailure(h),
                  if Streak(h) < threshold then Closed else if Probed(timeout, h) then HalfOpen else Open)
  {
    if h != [] {
      StateFromHistory(threshold, timeout, h[..|h| - 1]);
    }
  }

  /** While fewer failures than the threshold have followed the latest success, every request is allowed; once there are
      as many, a request is allowed exactly after the recovery time, or when an earlier one was since. */
  lemma AllowedIff(threshold: int, timeout: real, h: seq<Event>, now: real)
    requires threshold >= 1
    ensures Allows(Run(threshold, timeout, h), timeout, now) <==>
            || Streak(h) < threshold
            || Probed(timeout, h)
            || (&& LatestFailure(h).Some? && LatestFailure(h).value != 0.0
                && now - LatestFailure(h).value > timeout)
  {
    StateFromHistory(threshold, timeout, h);
    hide Run, Streak, LatestFailure, Probed;
  }

  /** The threshold must be positive for "closed means fewer failures than the threshold" to hold throughout. */
  lemma ClosedBelowThresholdIff(threshold: int, timeout: real)
    ensures (forall h :: Run(threshold, timeout, h).mode == Closed <==> Run(threshold, timeout, h).failures < threshold)
       <==> threshold >= 1
  {
    if threshold >= 1 {
      forall h ensures Run(threshold, timeout, h).mode == Closed <==> Run(threshold, timeout, h).failures < threshold {
        StateFromHistory(threshold, timeout, h);
      }
    } else {
      assert Run(threshold, timeout, []) == START;
    }
  }

  // ---- How often a failing provider is called ----

  /** What happens to a failing provider.  A poll asks without calling: every status query does, and a discovery that
      finds nothing to send.  A call asks and, if allowed, goes out; the call under way ends with a failure. */
  datatype Action = Poll(now: real) | Call(now: real) | Fail(now: real)

  /** The breaker, and the times at which calls went out and failed. */
  datatype Progress = Progress(state: State, calls: seq<real>, fails: seq<real>)

  /** Calls do not overlap: a call asked for while another is under way is a poll.  Polls may come at any time. */
  function Perform(p: Progress, threshold: int, timeout: real, a: Action): (q: Progress) {
    match a
    case Poll(now) => p.(state := Step(p.state, threshold, timeout, Ask(now)))
    case Call(now) =>
      var asked := p.(state := Step(p.state, threshold, timeout, Ask(now)));
      if Allows(p.state, timeout, now) && |p.calls| == |p.fails| then asked.(calls := p.calls + [now]) else asked
    case Fail(now) =>
      if |p.calls| > |p.fails|
      then p.(state := Step(p.state, threshold, timeout, Failure(now)), fails := p.fails + [now]) else p
  }

  function Play(threshold: int, timeout: real, run: seq<Action>): (p: Progress) {
    if run == [] then Progress(START, [], [])
    else Perform(Play(threshold, timeout, run[..|run| - 1]), threshold, timeout, run[|run| - 1])
  }

  ghost predicate Monotone(run: seq<Action>) {
    forall i, j :: 0 <= i < j < |run| ==> run[i].now <= run[j].now
  }

  /** Calls before the breaker trips; a threshold below 1 trips it on the first failure as well. */
  function TripsAt(threshold: int): (n: nat)
    ensures n >= 1
  {
    if threshold >= 1 then threshold else 1
  }

  /** Call k goes out before it fails. */
  ghost predicate InTurn(calls: seq<real>, fails: seq<real>) {
    |fails| <= |calls| && forall k :: 0 <= k < |fails| ==> calls[k] <= fails[k]
  }

  /** From call `trip` on, each call comes more than the recovery time after the failure before it. */
  ghost predicate Spaced(calls: seq<real>, fails: seq<real>, trip: nat, timeout: real) {
    && trip >= 1 && |calls| <= |fails| + 1
    && forall k :: trip <= k < |calls| ==> calls[k] - fails[k - 1] > timeout
  }

  /** What every run keeps while the clock does not step back, `latest` being its latest reading. */
  ghost predicate Sound(p: Progress, threshold: int, timeout: real, latest: real) {
    var n, trip := |p.fails|, TripsAt(threshold);
    && n <= |p.calls| <= n + 1
    && p.state.failures == n && p.state.last == (if n == 0 then None else Some(p.fails[n - 1]))
    && (p.state.mode == Closed <==> n < trip)
    && (p.state.mode == HalfOpen ==> latest - p.fails[n - 1] > timeout)
    && (|p.calls| > n >= trip ==> p.state.mode == HalfOpen)
    && (|p.calls| > n ==> p.calls[n] <= latest)
    && InTurn(p.calls, p.fails) && Spaced(p.calls, p.fails, trip, timeout)
  }

  lemma PollSound(p: Progress, threshold: int, timeout: real, latest: real, now: real)
    requires Sound(p, threshold, timeout, latest) && latest <= now
    ensures Sound(p.(state := Step(p.state, threshold, timeout, Ask(now))), threshold, timeout, now)
  {
    hide InTurn, Spaced;
  }

  lemma SpacedCall(calls: seq<real>, fails: seq<real>, trip: nat, timeout: real, now: real)
    requires InTurn(calls, fails) && Spaced(calls, fails, trip, timeout) && |calls| == |fails|
    requires |fails| >= trip ==> now - fails[|fails| - 1] > timeout
    ensures InTurn(calls + [now], fails) && Spaced(calls + [now], fails, trip, timeout)
  {
  }

  lemma SpacedFailure(calls: seq<real>, fails: seq<real>, trip: nat, timeout: real, now: real)
    requires InTurn(calls, fails) && Spaced(calls, fails, trip, timeout)
    requires |calls| == |fails| + 1 && calls[|fails|] <= now
    ensures InTurn(calls, fails + [now]) && Spaced(calls, fails + [now], trip, timeout)
  {
    assert forall j :: 0 <= j < |fails| ==> (fails + [now])[j] == fails[j];
  }

  lemma CallSound(p: Progress, threshold: int, timeout: real, now: real)
    requires Sound(p, threshold, timeout, now) && p.state.mode != Open && |p.calls| == |p.fails|
    ensures Sound(p.(calls := p.calls + [now]), threshold, timeout, now)
  {
    SpacedCall(p.calls, p.fails, TripsAt(threshold), timeout, now);
    hide InTurn, Spaced;
  }

  lemma FailSound(p: Progress, threshold: int, timeout: real, latest: real, now: real)
    requires Sound(p, threshold, timeout, latest) && latest <= now && |p.calls| > |p.fails|
    ensures Sound(p.(state := Step(p.state, threshold, timeout, Failure(now)), fails := p.fails + [now]),
                  threshold, timeout, now)
  {
    SpacedFailure(p.calls, p.fails, TripsAt(threshold), timeout, now);
    hide InTurn, Spaced;
  }

  lemma IdleSound(p: Progress, threshold: int, timeout: real, latest: real, now: real)
    requires Sound(p, threshold, timeout, latest) && latest <= now
    ensures Sound(p, threshold, timeout, now)
  {
  }

  lemma PerformSound(p: Progress, threshold: int, timeout: real, latest: real, a: Action)
    requires Sound(p, threshold, timeout, latest) && latest <= a.now
    ensures Sound(Perform(p, threshold, timeout, a), threshold, timeout, a.now)
  {
    hide Sound;
    match a
    case Poll(now) => PollSound(p, threshold, timeout, latest, now);
    case Call(now) =>
      PollSound(p, threshold, timeout, latest, now);
      if Allows(p.state, timeout, now) && |p.calls| == |p.fails| {
        CallSound(p.(state := Step(p.state, threshold, timeout, Ask(now))), threshold, timeout, now);
      }
    case Fail(now) =>
      if |p.calls| > |p.fails| {
        FailSound(p, threshold, timeout, latest, now);
      } else {
        IdleSound(p, threshold, timeout, latest, now);
      }
  }

  lemma {:induction false} PlaySound(threshold: int, timeout: real, run: seq<Action>, latest: real)
    requires Monotone(run) && (run != [] ==> latest == run[|run| - 1].now)
    ensures Sound(Play(threshold, timeout, run), threshold, timeout, latest)
  {
    if run != [] {
      var init, a := run[..|run| - 1], run[|run| - 1];
      var before := if init == [] then a.now else init[|init| - 1].now;
      PlaySound(threshold, timeout, init, before);
      PerformSound(Play(threshold, timeout, init), threshold, timeout, before, a);
    }
  }

  /** The state after any such run: closed below the threshold, and afterwards open or half open. */
  lemma RunState(threshold: int, timeout: real, run: seq<Action>)
    requires Monotone(run)
    ensures var p := Play(threshold, timeout, run);
            && p.state.failures == |p.fails| && (p.state.mode == Closed <==> |p.fails| < TripsAt(threshold))
            && (|p.calls| > |p.fails| >= TripsAt(threshold) ==> p.state.mode == HalfOpen)
  {
    PlaySound(threshold, timeout, run, if run == [] then 0.0 else run[|run| - 1].now);
    hide Play;
  }

  /** Once tripped, each further call comes more than the recovery time after the failure before it, whatever is
      polled in between and meanwhile. */
  lemma CallsSpaced(threshold: int, timeout: real, run: seq<Action>, k: nat)
    requires Monotone(run)
    requires TripsAt(threshold) <= k < |Play(threshold, timeout, run).calls|
    ensures k <= |Play(threshold, timeout, run).fails|
    ensures Play(threshold, timeout, run).calls[k] - Play(threshold, timeout, run).fails[k - 1] > timeout
  {
    PlaySound(threshold, timeout, run, if run == [] then 0.0 else run[|run| - 1].now);
    hide Play;
  }

  lemma CallBeforeFailure(threshold: int, timeout: real, run: seq<Action>, k: nat)
    requires Monotone(run) && k < |Play(threshold, timeout, run).fails|
    ensures k < |Play(threshold, timeout, run).calls|
    ensures Play(threshold, timeout, run).calls[k] <= Play(threshold, timeout, run).fails[k]
  {
    PlaySound(threshold, timeout, run, if run == [] then 0.0 else run[|run| - 1].now);
    hide Play;
  }

  /** In every run without a success, the calls made up to call number k (counting from 0) exceed the threshold by
      less than (elapsed time since the trip) / (recovery time). */
  lemma {:induction false} CallsBounded(threshold: int, timeout: real, run: seq<Action>, k: nat)
    requires Monotone(run)
    requires TripsAt(threshold) <= k < |Play(threshold, timeout, run).calls|
    ensures TripsAt(threshold) <= |Play(threshold, timeout, run).fails|
    ensures (k + 1 - TripsAt(threshold)) as real * timeout <
            Play(threshold, timeout, run).calls[k] - Play(threshold, timeout, run).fails[TripsAt(threshold) - 1]
  {
    hide *;
    var p, trip := Play(threshold, timeout, run), TripsAt(threshold);
    CallsSpaced(threshold, timeout, run, k);
    if k > trip {
      CallBeforeFailure(threshold, timeout, run, k - 1);
      CallsBounded(threshold, timeout, run, k - 1);
      OneMore(k - trip, timeout);
    } else {
      OneMore(0, timeout);
    }
  }

  lemma OneMore(n: nat, timeout: real)
    ensures (n + 1) as real * timeout == n as real * timeout + timeout
  {
    assert (n + 1) as real == n as real + 1.0;
  }

  /** Hence, with a positive recovery time, the calls made by time t number at most the threshold plus the whole
      recovery times since the trip. */
  lemma CallsByTime(threshold: int, timeout: real, run: seq<Action>, k: nat, t: real)
    requires Monotone(run) && timeout > 0.0
    requires TripsAt(threshold) <= k < |Play(threshold, timeout, run).calls|
    requires Play(threshold, timeout, run).calls[k] <= t
    ensures TripsAt(threshold) <= |Play(threshold, timeout, run).fails|
    ensures var elapsed := t - Play(threshold, timeout, run).fails[TripsAt(threshold) - 1];
            k + 1 <= TripsAt(threshold) + (elapsed / timeout).Floor
  {
    CallsBounded(threshold, timeout, run, k);
    hide Play;
    var elapsed := t - Play(threshold, timeout, run).fails[TripsAt(threshold) - 1];
    WholeTimes(k + 1 - TripsAt(threshold), timeout, elapsed);
  }

  lemma WholeTimes(n: nat, timeout: real, elapsed: real)
    requires timeout > 0.0 && n as real * timeout < elapsed
    ensures n <= (elapsed / timeout).Floor
  {
    var q := elapsed / timeout;
    assert q * timeout == elapsed;
    assert n as real < q;
  }

  /** The clock must not step back: a poll after the recovery time half-opens the breaker, and a call at an earlier
      reading then goes out one second after the failure. */
  lemma StepBackBreaksSpacing()
    ensures var p := Play(1, 60.0, [Call(0.5), Fail(1.0), Poll(100.0), Call(2.0)]);
            p.calls == [0.5, 2.0] && p.fails == [1.0]
  {
    var run := [Call(0.5), Fail(1.0), Poll(100.0), Call(2.0)];
    assert run[..3] == [Call(0.5), Fail(1.0), Poll(100.0)];
    assert run[..3][..2] == [Call(0.5), Fail(1.0)] && run[..3][..2][..1] == [Call(0.5)] && run[..3][..2][..1][..0] == [];
    assert Play(1, 60.0, run[..3][..2][..1]) == Progress(START, [0.5], []);
    assert Play(1, 60.0, run[..3][..2]) == Progress(State(1, Some(1.0), Open), [0.5], [1.0]);
    assert Play(1, 60.0, run[..3]) == Progress(State(1, Some(1.0), HalfOpen), [0.5], [1.0]);
  }

  /** A failure recorded at clock reading 0.0 that trips the breaker keeps it open for good. */
  lemma {:induction false} StuckAtZero(timeout: real, s: State, asks: seq<real>)
    requires s.mode == Open && s.last == Some(0.0)
    ensures forall k :: 0 <= k < |asks| ==> !Allows(AskAll(s, timeout, asks[..k]), timeout, asks[k])
  {
    forall k | 0 <= k < |asks| ensures !Allows(AskAll(s, timeout, asks[..k]), timeout, asks[k]) {
      AskingChangesNothing(timeout, s, asks[..k]);
    }
  }

  function AskAll(s: State, timeout: real, asks: seq<real>): (r: State) {
    if asks == [] then s else Step(AskAll(s, timeout, asks[..|asks| - 1]), 0, timeout, Ask(asks[|asks| - 1]))
  }

  lemma {:induction false} AskingChangesNothing(timeout: real, s: State, asks: seq<real>)
    requires s.mode == Open && s.last == Some(0.0)
    ensures AskAll(s, timeout, asks) == s
  {
    if asks != [] {
      AskingChangesNothing(timeout, s, asks[..|asks| - 1]);
    }
  }

  /** A half-open breaker lets every request through until an outcome is recorded, not one trial. */
  lemma {:induction false} HalfOpenLetsAllThrough(s: State, timeout: real, asks: seq<real>)
    requires s.mode == HalfOpen
    ensures AskAll(s, timeout, asks) == s
    ensures forall now :: Allows(AskAll(s, timeout, asks), timeout, now)
  {
    if asks != [] {
      HalfOpenLetsAllThrough(s, timeout, asks[..|asks| - 1]);
    }
  }

  /** One of the requests made in turn is allowed. */
  ghost predicate LetsOneThrough(s: State, timeout: real, asks: seq<real>) {
    exists k :: 0 <= k < |asks| && Allows(AskAll(s, timeout, asks[..k]), timeout, asks[k])
  }

  /** An open breaker can let a request through again, by any sequence of later requests, exactly when its latest
      failure was not recorded at clock reading 0.0. */
  lemma RecoversIff(s: State, timeout: real)
    requires s.mode == Open && s.last.Some?
    ensures (exists asks: seq<real> :: (forall t :: t in asks ==> t >= s.last.value) && LetsOneThrough(s, timeout, asks))
            <==> s.last.value != 0.0
  {
    if s.last.value == 0.0 {
      forall asks: seq<real> ensures !LetsOneThrough(s, timeout, asks) {
        StuckAtZero(timeout, s, asks);
      }
    } else {
      var t := s.last.value + if timeout < 0.0 then 0.0 else timeout + 1.0;
      assert AskAll(s, timeout, [t][..0]) == s;
      assert Allows(AskAll(s, timeout, [t][..0]), timeout, [t][0]);
      assert LetsOneThrough(s, timeout, [t]);
    }
  }
}
