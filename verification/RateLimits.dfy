/** The two sliding-window limiters, which prune the admission times they keep, and the spend budget. */
module RateLimits {

  /** The admission times after `start`. */
  function Recent(log: seq<real>, start: real): (r: seq<real>) {
    if log == [] then []
    else
      var t := log[|log| - 1];
      if t > start then Recent(log[..|log| - 1], start) + [t] else Recent(log[..|log| - 1], start)
  }

  function Kept(history: map<string, seq<real>>, key: string): (log: seq<real>) {
    if key in history then history[key] else []
  }

  function Max0(n: int): (m: nat) { if n < 0 then 0 else n }

  /** The history after one check. */
  function Checked(history: map<string, seq<real>>, key: string, now: real, max: int, window: real)
    : (h: map<string, seq<real>>)
  {
    var recent := Recent(Kept(history, key), now - window);
    history[key := if |recent| >= max then recent else recent + [now]]
  }

  predicate Admits(history: map<string, seq<real>>, key: string, now: real, max: int, window: real) {
    |Recent(Kept(history, key), now - window)| < max
  }

  /** app.core.rate_limit: one list of request times per caller and path. */
  class RequestLimiter {
    var history: map<string, seq<real>>

    constructor ()
      ensures history == map[]
    {
      history := map[];
    }

    method Check(key: string, now: real, maxRequests: int, window: real) returns (ok: bool)
      modifies this
      ensures ok <==> Admits(old(history), key, now, maxRequests, window)
      ensures history == Checked(old(history), key, now, maxRequests, window)
    {
      var windowStart := now - window;
      history := history[key := Recent(Kept(history, key), windowStart)];
      if |history[key]| >= maxRequests {
        return false;
      }
      history := history[key := history[key] + [now]];
      ok := true;
    }
  }

  datatype Admission = Admitted | RateLimited | BudgetExceeded

  /** The scan orchestrator's limiter and budget, per organisation. */
  class ScanLimiter {
    var history: map<string, seq<real>>
    var spend: map<string, real>

    constructor ()
      ensures history == map[] && spend == map[]
    {
      history, spend := map[], map[];
    }

    /** Keeps the times with now - t < 3600. */
    method PruneHour(log: seq<real>, now: real) returns (r: seq<real>)
      ensures r == Recent(log, now - 3600.0)
    {
      r := [];
      for i := 0 to |log|
        invariant r == Recent(log[..i], now - 3600.0)
      {
        assert log[..i + 1][..i] == log[..i];
        if now - log[i] < 3600.0 {
          r := r + [log[i]];
        }
      }
      assert log[..|log|] == log;
    }

    method CheckRate(org: string, now: real, maxPerHour: int) returns (ok: bool)
      modifies this`history
      ensures ok <==> Admits(old(history), org, now, maxPerHour, 3600.0)
      ensures history == Checked(old(history), org, now, maxPerHour, 3600.0)
    {
      var recent := PruneHour(Kept(history, org), now);
      history := history[org := recent];
      if |recent| >= maxPerHour {
        return false;
      }
      history := history[org := recent + [now]];
      ok := true;
    }

    method CheckBudget(org: string, cost: real, limit: real) returns (ok: bool)
      modifies this`spend
      ensures ok <==> Fits(old(spend), Charge(org, cost, limit))
      ensures spend == Charged(old(spend), Charge(org, cost, limit))
    {
      var current := if org in spend then spend[org] else 0.0;
      if current + cost > limit {
        return false;
      }
      spend := spend[org := current + cost];
      ok := true;
    }

    /** Rate first, then budget: a scan refused for its cost has already taken its place in the hour. */
    method CheckRateAndBudget(org: string, now: real, maxPerHour: int, budget: real) returns (a: Admission)
      modifies this
      ensures history == Checked(old(history), org, now, maxPerHour, 3600.0)
      ensures a == RateLimited <==> !Admits(old(history), org, now, maxPerHour, 3600.0)
      ensures a == Admitted <==> Admits(old(history), org, now, maxPerHour, 3600.0) &&
                                 Fits(old(spend), Charge(org, 0.05, budget))
      ensures spend == if a == RateLimited then old(spend) else Charged(old(spend), Charge(org, 0.05, budget))
    {
      var ok := CheckRate(org, now, maxPerHour);
      if !ok { return RateLimited; }
      ok := CheckBudget(org, 0.05, budget);
      a := if ok then Admitted else BudgetExceeded;
    }
  }

  /** A charge to an organisation under the monthly limit in force. */
  datatype Charge = Charge(org: string, cost: real, limit: real)

  function Spent(spend: map<string, real>, org: string): (s: real) {
    if org in spend then spend[org] else 0.0
  }

  predicate Fits(spend: map<string, real>, c: Charge) { Spent(spend, c.org) + c.cost <= c.limit }

  /** The record after one charge. */
  function Charged(spend: map<string, real>, c: Charge): (s: map<string, real>) {
    if Fits(spend, c) then spend[c.org := Spent(spend, c.org) + c.cost] else spend
  }

  // ---- The checks of one key alone ----

  /** The full log: every admission so far, decided on the unpruned log. */
  function FullLog(times: seq<real>, max: int, window: real): (log: seq<real>) {
    if times == [] then []
    else
      var log, now := FullLog(times[..|times| - 1], max, window), times[|times| - 1];
      if |Recent(log, now - window)| < max then log + [now] else log
  }

  /** The dictionary after checks of `key` at the given times. */
  function RunChecks(key: string, times: seq<real>, max: int, window: real): (h: map<string, seq<real>>) {
    if times == [] then map[]
    else Checked(RunChecks(key, times[..|times| - 1], max, window), key, times[|times| - 1], max, window)
  }

  /** The admissions the limiter itself makes, decided on its pruned list. */
  function Admissions(key: string, times: seq<real>, max: int, window: real): (log: seq<real>) {
    if times == [] then []
    else
      var init, now := times[..|times| - 1], times[|times| - 1];
      var log := Admissions(key, init, max, window);
      if Admits(RunChecks(key, init, max, window), key, now, max, window) then log + [now] else log
  }

  ghost predicate Monotone(times: seq<real>) {
    forall i, j :: 0 <= i < j < |times| ==> times[i] <= times[j]
  }

  /** No check looks back at a time that the check before it pruned. */
  ghost predicate NeverMissed(times: seq<real>, window: real) {
    forall i, k | 0 <= i < k - 1 && k < |times| :: !LooksBack(times, window, i, k)
  }

  /** Check k counts time i, which check k - 1 pruned. */
  predicate LooksBack(times: seq<real>, window: real, i: int, k: int)
    requires 0 <= i < k - 1 && k < |times|
  {
    times[i] > times[k] - window && times[i] <= times[k - 1] - window
  }

  /** A clock that never steps back is enough for that. */
  lemma MonotoneNeverMissed(times: seq<real>, window: real)
    requires Monotone(times)
    ensures NeverMissed(times, window)
  {
    forall i, k | 0 <= i < k - 1 && k < |times| && times[i] > times[k] - window
      ensures times[i] > times[k - 1] - window
    {
      assert times[k - 1] <= times[k];
    }
  }

  lemma NeverMissedPrefix(times: seq<real>, n: nat, window: real)
    requires n <= |times| && NeverMissed(times, window)
    ensures NeverMissed(times[..n], window)
  {
    forall i, k | 0 <= i < k - 1 && k < n
      ensures !LooksBack(times[..n], window, i, k)
    {
      assert !LooksBack(times, window, i, k);
    }
  }

  /** Pruning twice is pruning once if the first pruning drops nothing that the second keeps. */
  lemma {:induction false} RecentTwice(log: seq<real>, s: real, t: real)
    requires forall x :: x in log && x > t ==> x > s
    ensures Recent(Recent(log, s), t) == Recent(log, t)
  {
    if log != [] {
      var init, x := log[..|log| - 1], log[|log| - 1];
      assert x in log && forall y :: y in init ==> y in log;
      RecentTwice(init, s, t);
      RecentSnoc(Recent(init, s), x, t);
    }
  }

  lemma {:induction false} RecentTwiceShorter(log: seq<real>, s: real, t: real)
    ensures |Recent(Recent(log, s), t)| <= |Recent(log, t)|
    ensures (exists x :: x in log && x > t && x <= s) ==> |Recent(Recent(log, s), t)| < |Recent(log, t)|
  {
    if log != [] {
      var init, x := log[..|log| - 1], log[|log| - 1];
      assert log == init + [x];
      RecentTwiceShorter(init, s, t);
      RecentSnoc(Recent(init, s), x, t);
    }
  }

  lemma RecentSnoc(log: seq<real>, x: real, s: real)
    ensures Recent(log + [x], s) == if x > s then Recent(log, s) + [x] else Recent(log, s)
  {
    assert (log + [x])[..|log|] == log;
  }

  lemma CheckedKept(history: map<string, seq<real>>, key: string, now: real, max: int, window: real)
    ensures var r := Recent(Kept(history, key), now - window);
            Kept(Checked(history, key, now, max, window), key) == if |r| >= max then r else r + [now]
  {
    hide Recent;
  }

  lemma RunStep(key: string, times: seq<real>, now: real, max: int, window: real)
    ensures RunChecks(key, times + [now], max, window) ==
            Checked(RunChecks(key, times, max, window), key, now, max, window)
  {
    hide Checked;
    assert (times + [now])[..|times|] == times;
  }

  lemma FullLogLast(times: seq<real>, max: int, window: real)
    requires times != []
    ensures var log, now := FullLog(times[..|times| - 1], max, window), times[|times| - 1];
            FullLog(times, max, window) == if |Recent(log, now - window)| < max then log + [now] else log
  {
    hide Recent;
  }

  lemma FullLogStep(times: seq<real>, now: real, max: int, window: real)
    ensures var log := FullLog(times, max, window);
            FullLog(times + [now], max, window) == if |Recent(log, now - window)| < max then log + [now] else log
  {
    hide *;
    FullLogLast(times + [now], max, window);
    assert (times + [now])[..|times|] == times;
  }

  lemma RunSnoc(key: string, times: seq<real>, now: real, max: int, window: real)
    ensures var r := Recent(Kept(RunChecks(key, times, max, window), key), now - window);
            Kept(RunChecks(key, times + [now], max, window), key) == if |r| >= max then r else r + [now]
    ensures var log := FullLog(times, max, window);
            FullLog(times + [now], max, window) == if |Recent(log, now - window)| < max then log + [now] else log
  {
    hide *;
    RunStep(key, times, now, max, window);
    FullLogStep(times, now, max, window);
    CheckedKept(RunChecks(key, times, max, window), key, now, max, window);
  }

  lemma NothingYet(key: string, max: int, window: real)
    ensures Kept(RunChecks(key, [], max, window), key) == FullLog([], max, window) == []
  {
  }

  lemma {:induction false} FullLogMember(times: seq<real>, max: int, window: real, x: real)
    requires x in FullLog(times, max, window)
    ensures x in times
  {
    var init, now := times[..|times| - 1], times[|times| - 1];
    if x in FullLog(init, max, window) {
      FullLogMember(init, max, window, x);
    }
  }

  lemma MissesNot(times: seq<real>, x: real, now: real, window: real, y: real)
    requires NeverMissed(times + [x] + [now], window) && y in times && y > now - window
    ensures y > x - window
  {
    var all, k := times + [x] + [now], |times| + 1;
    var i :| 0 <= i < |times| && times[i] == y;
    assert all[i] == y && all[k - 1] == x && all[k] == now;
    assert !LooksBack(all, window, i, k);
  }

  /** What the limiter pruned at its latest check it would not count at the next one. */
  lemma NothingMissed(times: seq<real>, x: real, now: real, max: int, window: real)
    requires NeverMissed(times + [x] + [now], window)
    ensures Recent(Recent(FullLog(times, max, window), x - window), now - window) ==
            Recent(FullLog(times, max, window), now - window)
  {
    hide *;
    forall y | y in FullLog(times, max, window) && y > now - window ensures y > x - window {
      FullLogMember(times, max, window, y);
      MissesNot(times, x, now, window, y);
    }
    RecentTwice(FullLog(times, max, window), x - window, now - window);
  }

  /** What the next check counts in the pruned list is what it would count in the full log. */
  lemma {:induction false} SameCount(key: string, times: seq<real>, now: real, max: int, window: real)
    requires NeverMissed(times + [now], window)
    ensures Recent(Kept(RunChecks(key, times, max, window), key), now - window) ==
            Recent(FullLog(times, max, window), now - window)
  {
    hide *;
    if times == [] {
      NothingYet(key, max, window);
    } else {
      var init, x := times[..|times| - 1], times[|times| - 1];
      assert times == init + [x];
      assert (times + [now])[..|times|] == times;
      NeverMissedPrefix(times + [now], |times|, window);
      SameCount(key, init, x, max, window);
      NothingMissed(init, x, now, max, window);
      RunSnoc(key, init, x, max, window);
      RecentSnoc(Recent(FullLog(init, max, window), x - window), x, now - window);
      RecentSnoc(FullLog(init, max, window), x, now - window);
    }
  }

  lemma SameDecisionAlone(key: string, times: seq<real>, now: real, max: int, window: real)
    requires NeverMissed(times + [now], window)
    ensures Admits(RunChecks(key, times, max, window), key, now, max, window) <==>
            FullLog(times + [now], max, window) == FullLog(times, max, window) + [now]
  {
    SameCount(key, times, now, max, window);
    RunSnoc(key, times, now, max, window);
    hide RunChecks, FullLog, Recent, NeverMissed, Kept;
    assert |FullLog(times, max, window) + [now]| > |FullLog(times, max, window)|;
  }

  lemma AdmissionsStep(key: string, times: seq<real>, now: real, max: int, window: real)
    ensures Admissions(key, [], max, window) == FullLog([], max, window) == []
    ensures Admissions(key, times + [now], max, window) ==
            if Admits(RunChecks(key, times, max, window), key, now, max, window)
            then Admissions(key, times, max, window) + [now] else Admissions(key, times, max, window)
    ensures FullLog(times + [now], max, window) == FullLog(times, max, window) ||
            FullLog(times + [now], max, window) == FullLog(times, max, window) + [now]
  {
    hide Admits, RunChecks, Recent;
    assert (times + [now])[..|times|] == times;
  }

  lemma {:induction false} AdmissionsAloneAreFullLog(key: string, times: seq<real>, max: int, window: real)
    requires NeverMissed(times, window)
    ensures Admissions(key, times, max, window) == FullLog(times, max, window)
  {
    hide *;
    if times == [] {
      AdmissionsStep(key, [], 0.0, max, window);
    } else {
      var init, now := times[..|times| - 1], times[|times| - 1];
      assert times == init + [now];
      NeverMissedPrefix(times, |init|, window);
      AdmissionsAloneAreFullLog(key, init, max, window);
      AdmissionsStep(key, init, now, max, window);
      SameDecisionAlone(key, init, now, max, window);
    }
  }

  // ---- When the pruned list is the log cut to the window ----

  ghost predicate KeptIsWindowAlone(key: string, times: seq<real>, max: int, window: real) {
    times != [] ==> Kept(RunChecks(key, times, max, window), key) ==
                    Recent(FullLog(times, max, window), times[|times| - 1] - window)
  }

  lemma KeptAloneSnoc(key: string, times: seq<real>, now: real, max: int, window: real)
    ensures KeptIsWindowAlone(key, times + [now], max, window) <==>
            Kept(RunChecks(key, times + [now], max, window), key) ==
            Recent(FullLog(times + [now], max, window), now - window)
  {
    hide Kept, RunChecks, Recent, FullLog;
  }

  lemma KeptAloneNone(key: string, max: int, window: real)
    ensures KeptIsWindowAlone(key, [], max, window)
  {
  }

  lemma PrunedIsWindowAlone(key: string, times: seq<real>, max: int, window: real)
    requires NeverMissed(times, window) && window > 0.0
    ensures KeptIsWindowAlone(key, times, max, window)
  {
    hide *;
    if times == [] {
      KeptAloneNone(key, max, window);
    } else {
      var init, now := times[..|times| - 1], times[|times| - 1];
      assert times == init + [now];
      SameCount(key, init, now, max, window);
      RunSnoc(key, init, now, max, window);
      RecentSnoc(FullLog(init, max, window), now, now - window);
      KeptAloneSnoc(key, init, now, max, window);
    }
  }

  lemma {:induction false} RecentLength(log: seq<real>, s: real)
    ensures |Recent(log, s)| <= |log|
  {
    if log != [] {
      RecentLength(log[..|log| - 1], s);
    }
  }

  /** A limit above the number of checks admits all of them. */
  lemma {:induction false} LooseLimit(times: seq<real>, max: int, window: real)
    requires |times| < max
    ensures FullLog(times, max, window) == times
  {
    hide *;
    if times == [] {
      NothingYet("", max, window);
    } else {
      var init, now := times[..|times| - 1], times[|times| - 1];
      assert times == init + [now];
      LooseLimit(init, max, window);
      RecentLength(init, now - window);
      RunSnoc("", init, now, max, window);
    }
  }

  /** A check that looks back at a pruned time is left, under a loose limit, with less than the window holds. */
  lemma MissedAt(key: string, times: seq<real>, x: real, now: real, max: int, window: real, y: real)
    requires window > 0.0 && |times| + 2 < max
    requires KeptIsWindowAlone(key, times + [x], max, window)
    requires y in times && y > now - window && y <= x - window
    ensures !KeptIsWindowAlone(key, times + [x] + [now], max, window)
  {
    hide *;
    var log := times + [x];
    assert y in log;
    LooseLimit(log, max, window);
    LooseLimit(log + [now], max, window);
    KeptAloneSnoc(key, times, x, max, window);
    KeptAloneSnoc(key, log, now, max, window);
    RunSnoc(key, log, now, max, window);
    RecentTwiceShorter(log, x - window, now - window);
    RecentLength(Recent(log, x - window), now - window);
    RecentLength(log, x - window);
    RecentSnoc(log, now, now - window);
  }

  lemma MissedTime(times: seq<real>, window: real) returns (i: nat, k: nat)
    requires !NeverMissed(times, window)
    ensures i < k - 1 && k < |times| && times[i] > times[k] - window && times[i] <= times[k - 1] - window
  {
    i, k :| 0 <= i < k - 1 && k < |times| && LooksBack(times, window, i, k);
  }

  lemma MissedBetween(key: string, times: seq<real>, max: int, window: real, i: nat, k: nat)
    requires window > 0.0 && i < k - 1 && k < |times| < max
    requires times[i] > times[k] - window && times[i] <= times[k - 1] - window
    ensures !KeptIsWindowAlone(key, times[..k], max, window) || !KeptIsWindowAlone(key, times[..k + 1], max, window)
  {
    hide KeptIsWindowAlone;
    var init := times[..k - 1];
    assert times[..k] == init + [times[k - 1]];
    assert times[..k + 1] == times[..k] + [times[k]];
    assert times[i] == init[i];
    if KeptIsWindowAlone(key, times[..k], max, window) {
      MissedAt(key, init, times[k - 1], times[k], max, window, times[i]);
    }
  }

  /** The admissions in (s, e]. */
  function CountIn(log: seq<real>, s: real, e: real): (n: nat) {
    if log == [] then 0
    else CountIn(log[..|log| - 1], s, e) + if s < log[|log| - 1] <= e then 1 else 0
  }

  lemma {:induction false} CountAtMostRecent(log: seq<real>, s: real, e: real, start: real)
    requires start <= s
    ensures CountIn(log, s, e) <= |Recent(log, start)|
  {
    if log != [] {
      CountAtMostRecent(log[..|log| - 1], s, e, start);
    }
  }

  lemma {:induction false} FullLogSafe(times: seq<real>, max: int, window: real, s: real)
    ensures CountIn(FullLog(times, max, window), s, s + window) <= Max0(max)
  {
    if times != [] {
      var init, now := times[..|times| - 1], times[|times| - 1];
      FullLogSafe(init, max, window, s);
      var log := FullLog(init, max, window);
      if |Recent(log, now - window)| < max {
        assert (log + [now])[..|log|] == log;
        if s < now <= s + window {
          CountAtMostRecent(log, s, s + window, now - window);
        }
      }
    }
  }

  lemma CountSnoc(log: seq<real>, x: real, s: real, e: real)
    ensures CountIn([], s, e) == 0
    ensures CountIn(log + [x], s, e) == CountIn(log, s, e) + if s < x <= e then 1 else 0
  {
    assert (log + [x])[..|log|] == log;
  }

  /** Without that the bound fails: after a jump ahead and back the pruned list has forgotten two admissions, and a
      limit of two admits three requests within one window. */
  lemma ClockStepBack()
    ensures CountIn(Admissions("k", [] + [0.0] + [0.0] + [20.0] + [5.0], 2, 10.0), -5.0, -5.0 + 10.0) == 3
  {
    hide *;
    var a: seq<real> := [];
    var b := a + [0.0];
    var c := b + [0.0];
    var d := c + [20.0];
    NothingYet("k", 2, 10.0);
    RecentNone(-10.0);
    RecentNone(10.0);
    RecentNone(-5.0);
    RunSnoc("k", a, 0.0, 2, 10.0);
    AdmissionsStep("k", a, 0.0, 2, 10.0);
    AdmitsIff("k", a, 0.0, 2, 10.0);
    RecentSnoc(a, 0.0, -10.0);
    RunSnoc("k", b, 0.0, 2, 10.0);
    AdmissionsStep("k", b, 0.0, 2, 10.0);
    AdmitsIff("k", b, 0.0, 2, 10.0);
    RecentSnoc(a, 0.0, 10.0);
    RecentSnoc(b, 0.0, 10.0);
    RunSnoc("k", c, 20.0, 2, 10.0);
    AdmissionsStep("k", c, 20.0, 2, 10.0);
    AdmitsIff("k", c, 20.0, 2, 10.0);
    RecentSnoc(a, 20.0, -5.0);
    AdmissionsStep("k", d, 5.0, 2, 10.0);
    AdmitsIff("k", d, 5.0, 2, 10.0);
    assert Admissions("k", d + [5.0], 2, 10.0) == d + [5.0];
    CountSnoc(a, 0.0, -5.0, 5.0);
    CountSnoc(b, 0.0, -5.0, 5.0);
    CountSnoc(c, 20.0, -5.0, 5.0);
    CountSnoc(d, 5.0, -5.0, 5.0);
  }

  lemma AdmitsIff(key: string, times: seq<real>, now: real, max: int, window: real)
    ensures Admits(RunChecks(key, times, max, window), key, now, max, window) <==>
            |Recent(Kept(RunChecks(key, times, max, window), key), now - window)| < max
  {
    hide RunChecks, Recent, Kept;
  }

  lemma RecentNone(s: real)
    ensures Recent([], s) == []
  {
  }

  // ---- Whole runs: requests of any callers, interleaved ----

  datatype Request = Request(key: string, now: real)

  /** The dictionary after a run, where every key has its limit and window. */
  function RunAll(reqs: seq<Request>, max: string -> int, window: string -> real): (h: map<string, seq<real>>) {
    if reqs == [] then map[]
    else
      var r := reqs[|reqs| - 1];
      Checked(RunAll(reqs[..|reqs| - 1], max, window), r.key, r.now, max(r.key), window(r.key))
  }

  /** The readings at the requests of one key. */
  function TimesOf(reqs: seq<Request>, key: string): (ts: seq<real>) {
    if reqs == [] then []
    else
      var r := reqs[|reqs| - 1];
      if r.key == key then TimesOf(reqs[..|reqs| - 1], key) + [r.now] else TimesOf(reqs[..|reqs| - 1], key)
  }

  /** When requests of one key are admitted in a run. */
  function AdmittedIn(reqs: seq<Request>, key: string, max: string -> int, window: string -> real): (log: seq<real>) {
    if reqs == [] then []
    else
      var init, r := reqs[..|reqs| - 1], reqs[|reqs| - 1];
      var log := AdmittedIn(init, key, max, window);
      if r.key == key && Admits(RunAll(init, max, window), key, r.now, max(key), window(key))
      then log + [r.now] else log
  }

  lemma CheckedOther(history: map<string, seq<real>>, other: string, key: string, now: real, max: int, window: real)
    requires other != key
    ensures Kept(Checked(history, other, now, max, window), key) == Kept(history, key)
  {
  }

  lemma RunAllStep(reqs: seq<Request>, max: string -> int, window: string -> real)
    requires reqs != []
    ensures var r := reqs[|reqs| - 1];
            RunAll(reqs, max, window) ==
            Checked(RunAll(reqs[..|reqs| - 1], max, window), r.key, r.now, max(r.key), window(r.key))
  {
    hide Checked;
  }

  lemma RunAllNone(key: string, max: string -> int, window: string -> real)
    ensures RunAll([], max, window) == map[] && Kept(map[], key) == [] && TimesOf([], key) == []
  {
  }

  lemma TimesStep(reqs: seq<Request>, key: string)
    requires reqs != []
    ensures var init, r := reqs[..|reqs| - 1], reqs[|reqs| - 1];
            TimesOf(reqs, key) == if r.key == key then TimesOf(init, key) + [r.now] else TimesOf(init, key)
  {
  }

  /** Callers do not affect each other: what a run keeps for a key is what its own requests alone would leave. */
  lemma {:induction false} KeysIndependent(reqs: seq<Request>, key: string, max: string -> int, window: string -> real)
    ensures Kept(RunAll(reqs, max, window), key) ==
            Kept(RunChecks(key, TimesOf(reqs, key), max(key), window(key)), key)
  {
    hide *;
    if reqs == [] {
      RunAllNone(key, max, window);
      NothingYet(key, max(key), window(key));
    } else {
      var init, r := reqs[..|reqs| - 1], reqs[|reqs| - 1];
      KeysIndependent(init, key, max, window);
      RunAllStep(reqs, max, window);
      TimesStep(reqs, key);
      if r.key == key {
        CheckedKept(RunAll(init, max, window), key, r.now, max(key), window(key));
        RunSnoc(key, TimesOf(init, key), r.now, max(key), window(key));
      } else {
        CheckedOther(RunAll(init, max, window), r.key, key, r.now, max(r.key), window(r.key));
      }
    }
  }

  lemma {:induction false} AdmittedAlone(reqs: seq<Request>, key: string, max: string -> int, window: string -> real)
    ensures AdmittedIn(reqs, key, max, window) == Admissions(key, TimesOf(reqs, key), max(key), window(key))
  {
    if reqs == [] {
      AdmissionsStep(key, [], 0.0, max(key), window(key));
    } else {
      var init, r := reqs[..|reqs| - 1], reqs[|reqs| - 1];
      AdmittedAlone(init, key, max, window);
      hide RunAll, RunChecks, Kept, Recent, Admissions;
      if r.key == key {
        KeysIndependent(init, key, max, window);
        AdmissionsStep(key, TimesOf(init, key), r.now, max(key), window(key));
      }
    }
  }

  /** If no request of the key looks back at a pruned time, each decision of the run is the one the key's full log
      would give. */
  lemma SameDecision(reqs: seq<Request>, key: string, now: real, max: string -> int, window: string -> real)
    requires NeverMissed(TimesOf(reqs, key) + [now], window(key))
    ensures Admits(RunAll(reqs, max, window), key, now, max(key), window(key)) <==>
            |Recent(FullLog(TimesOf(reqs, key), max(key), window(key)), now - window(key))| < max(key)
  {
    hide RunAll, RunChecks, Kept, Recent, FullLog, TimesOf, NeverMissed;
    KeysIndependent(reqs, key, max, window);
    SameCount(key, TimesOf(reqs, key), now, max(key), window(key));
  }

  /** The run then admits of the key exactly what the full log admits. */
  lemma AdmissionsAreFullLog(reqs: seq<Request>, key: string, max: string -> int, window: string -> real)
    requires NeverMissed(TimesOf(reqs, key), window(key))
    ensures AdmittedIn(reqs, key, max, window) == FullLog(TimesOf(reqs, key), max(key), window(key))
  {
    AdmittedAlone(reqs, key, max, window);
    AdmissionsAloneAreFullLog(key, TimesOf(reqs, key), max(key), window(key));
  }

  ghost predicate ClockMonotone(reqs: seq<Request>) {
    forall i, j :: 0 <= i < j < |reqs| ==> reqs[i].now <= reqs[j].now
  }

  lemma MonotoneSnoc(times: seq<real>, x: real)
    requires Monotone(times) && forall t :: t in times ==> t <= x
    ensures Monotone(times + [x])
  {
    assert forall i :: 0 <= i < |times| ==> times[i] in times;
  }

  lemma {:induction false} TimesAtMost(reqs: seq<Request>, key: string, now: real)
    requires forall r :: r in reqs ==> r.now <= now
    ensures forall t :: t in TimesOf(reqs, key) ==> t <= now
  {
    if reqs != [] {
      var init, r := reqs[..|reqs| - 1], reqs[|reqs| - 1];
      assert reqs == init + [r] && forall q :: q in init ==> q in reqs;
      TimesAtMost(init, key, now);
    }
  }

  lemma NoTimes(key: string)
    ensures TimesOf([], key) == [] && Monotone([])
  {
  }

  lemma {:induction false} TimesMonotone(reqs: seq<Request>, key: string)
    requires ClockMonotone(reqs)
    ensures Monotone(TimesOf(reqs, key))
  {
    hide Monotone, TimesOf;
    if reqs == [] {
      NoTimes(key);
    } else {
      var init, r := reqs[..|reqs| - 1], reqs[|reqs| - 1];
      TimesMonotone(init, key);
      forall q | q in init ensures q.now <= r.now {
        var i :| 0 <= i < |init| && init[i] == q;
        assert reqs[i].now <= reqs[|init|].now;
      }
      TimesAtMost(init, key, r.now);
      MonotoneSnoc(TimesOf(init, key), r.now);
      TimesStep(reqs, key);
    }
  }

  /** Of the requests of one key that a run admits, no half-open interval of the key's window length holds more than
      its limit, if no request of the key looks back at a pruned time, and so whenever the clock does not step
      back. */
  lemma WindowSafety(reqs: seq<Request>, key: string, max: string -> int, window: string -> real, s: real)
    requires NeverMissed(TimesOf(reqs, key), window(key)) || ClockMonotone(reqs)
    ensures CountIn(AdmittedIn(reqs, key, max, window), s, s + window(key)) <= Max0(max(key))
  {
    hide NeverMissed, AdmittedIn, FullLog, TimesOf, CountIn, Monotone;
    if ClockMonotone(reqs) {
      TimesMonotone(reqs, key);
      MonotoneNeverMissed(TimesOf(reqs, key), window(key));
    }
    AdmissionsAreFullLog(reqs, key, max, window);
    FullLogSafe(TimesOf(reqs, key), max(key), window(key), s);
  }

  lemma {:induction false} CountIsRecent(log: seq<real>, start: real, now: real)
    requires forall t :: t in log ==> t <= now
    ensures CountIn(log, start, now) == |Recent(log, start)|
  {
    if log != [] {
      var init, t := log[..|log| - 1], log[|log| - 1];
      assert log == init + [t] && forall x :: x in init ==> x in log;
      assert t in log;
      CountIsRecent(init, start, now);
    }
  }

  /** With a clock that does not step back, a request is admitted exactly when fewer than the limit of its key's
      requests were admitted within the window before it. */
  lemma AdmittedIff(reqs: seq<Request>, key: string, now: real, max: string -> int, window: string -> real)
    requires ClockMonotone(reqs + [Request(key, now)])
    ensures Admits(RunAll(reqs, max, window), key, now, max(key), window(key)) <==>
            CountIn(AdmittedIn(reqs, key, max, window), now - window(key), now) < max(key)
  {
    hide RunAll, AdmittedIn, FullLog, Recent, CountIn, Admits, TimesOf, Monotone, NeverMissed;
    var all, times := reqs + [Request(key, now)], TimesOf(reqs, key);
    TimesStep(all, key);
    assert all[..|all| - 1] == reqs;
    TimesMonotone(all, key);
    MonotoneNeverMissed(times + [now], window(key));
    SameDecision(reqs, key, now, max, window);
    assert (times + [now])[..|times|] == times;
    NeverMissedPrefix(times + [now], |times|, window(key));
    AdmissionsAreFullLog(reqs, key, max, window);
    forall t | t in FullLog(times, max(key), window(key)) ensures t <= now {
      FullLogMember(times, max(key), window(key), t);
      LastIsGreatest(times, now, t);
    }
    CountIsRecent(FullLog(times, max(key), window(key)), now - window(key), now);
  }

  lemma LastIsGreatest(times: seq<real>, now: real, t: real)
    requires Monotone(times + [now]) && t in times
    ensures t <= now
  {
    var i :| 0 <= i < |times| && times[i] == t;
    assert (times + [now])[i] <= (times + [now])[|times|];
  }

  /** After a run, the list kept for the key is its full log cut to the window that ends with its latest request. */
  ghost predicate KeptIsWindow(reqs: seq<Request>, key: string, max: string -> int, window: string -> real) {
    var times := TimesOf(reqs, key);
    times != [] ==> Kept(RunAll(reqs, max, window), key) ==
                    Recent(FullLog(times, max(key), window(key)), times[|times| - 1] - window(key))
  }

  lemma KeptAlone(reqs: seq<Request>, key: string, max: string -> int, window: string -> real)
    ensures KeptIsWindow(reqs, key, max, window) <==>
            KeptIsWindowAlone(key, TimesOf(reqs, key), max(key), window(key))
  {
    hide RunAll, RunChecks, Kept, Recent, FullLog, TimesOf;
    KeysIndependent(reqs, key, max, window);
  }

  /** If no request of the key looks back at a pruned time, the list is right. */
  lemma PrunedIsWindow(reqs: seq<Request>, key: string, max: string -> int, window: string -> real)
    requires NeverMissed(TimesOf(reqs, key), window(key)) && window(key) > 0.0
    ensures KeptIsWindow(reqs, key, max, window)
  {
    hide *;
    KeptAlone(reqs, key, max, window);
    PrunedIsWindowAlone(key, TimesOf(reqs, key), max(key), window(key));
  }

  lemma {:induction false} TimesPrefix(reqs: seq<Request>, key: string, n: nat)
    requires n <= |reqs|
    ensures TimesOf(reqs[..n], key) <= TimesOf(reqs, key)
  {
    if n < |reqs| {
      TimesPrefix(reqs[..|reqs| - 1], key, n);
      assert reqs[..|reqs| - 1][..n] == reqs[..n];
    } else {
      assert reqs[..n] == reqs;
    }
  }

  /** Every prefix of a key's readings is what the key has seen after some prefix of the run. */
  lemma {:induction false} PrefixOfTimes(reqs: seq<Request>, key: string, j: nat) returns (n: nat)
    requires j <= |TimesOf(reqs, key)|
    ensures n <= |reqs| && TimesOf(reqs[..n], key) == TimesOf(reqs, key)[..j]
  {
    if j == |TimesOf(reqs, key)| {
      n := |reqs|;
      assert reqs[..n] == reqs;
    } else {
      var init := reqs[..|reqs| - 1];
      n := PrefixOfTimes(init, key, j);
      assert init[..n] == reqs[..n];
      assert TimesOf(reqs, key)[..j] == TimesOf(init, key)[..j];
    }
  }

  ghost predicate AlwaysKeepsWindow(reqs: seq<Request>, key: string, window: string -> real) {
    forall max: string -> int, n: nat :: n <= |reqs| ==> KeptIsWindow(reqs[..n], key, max, window)
  }

  lemma AlwaysKeptAt(reqs: seq<Request>, key: string, max: string -> int, window: string -> real, j: nat)
    requires AlwaysKeepsWindow(reqs, key, window) && j <= |TimesOf(reqs, key)|
    ensures KeptIsWindowAlone(key, TimesOf(reqs, key)[..j], max(key), window(key))
  {
    hide KeptIsWindow, KeptIsWindowAlone, TimesOf;
    var n := PrefixOfTimes(reqs, key, j);
    assert KeptIsWindow(reqs[..n], key, max, window);
    KeptAlone(reqs[..n], key, max, window);
  }

  lemma NeverMissedKeeps(reqs: seq<Request>, key: string, max: string -> int, window: string -> real, n: nat)
    requires NeverMissed(TimesOf(reqs, key), window(key)) && window(key) > 0.0 && n <= |reqs|
    ensures KeptIsWindow(reqs[..n], key, max, window)
  {
    hide *;
    TimesPrefix(reqs, key, n);
    var m := |TimesOf(reqs[..n], key)|;
    assert TimesOf(reqs, key)[..m] == TimesOf(reqs[..n], key);
    NeverMissedPrefix(TimesOf(reqs, key), m, window(key));
    PrunedIsWindow(reqs[..n], key, max, window);
  }

  /** Pruning is right for a key, for all limits and after every request of the run, exactly when none of the key's
      requests looks back at a time that the one before it pruned. */
  lemma PrunedIsWindowIff(reqs: seq<Request>, key: string, window: string -> real)
    requires window(key) > 0.0
    ensures AlwaysKeepsWindow(reqs, key, window) <==> NeverMissed(TimesOf(reqs, key), window(key))
  {
    hide KeptIsWindow, KeptIsWindowAlone, TimesOf, NeverMissed;
    if NeverMissed(TimesOf(reqs, key), window(key)) {
      forall max: string -> int, n: nat | n <= |reqs| ensures KeptIsWindow(reqs[..n], key, max, window) {
        NeverMissedKeeps(reqs, key, max, window, n);
      }
    } else {
      SomethingMissed(reqs, key, window);
    }
  }

  lemma SomethingMissed(reqs: seq<Request>, key: string, window: string -> real)
    requires window(key) > 0.0 && !NeverMissed(TimesOf(reqs, key), window(key))
    ensures !AlwaysKeepsWindow(reqs, key, window)
  {
    hide KeptIsWindow, KeptIsWindowAlone, TimesOf, NeverMissed, AlwaysKeepsWindow;
    var times := TimesOf(reqs, key);
    var i, k := MissedTime(times, window(key));
    var max: string -> int := (x: string) => |times| + 1;
    MissedBetween(key, times, |times| + 1, window(key), i, k);
    if AlwaysKeepsWindow(reqs, key, window) {
      AlwaysKeptAt(reqs, key, max, window, k);
      AlwaysKeptAt(reqs, key, max, window, k + 1);
    }
  }

  // ---- Budget ----

  function Sum(s: seq<real>): (r: real) {
    if s == [] then 0.0 else Sum(s[..|s| - 1]) + s[|s| - 1]
  }

  /** The spend record after a run of charges to any organisations. */
  function RunCharges(charges: seq<Charge>): (spend: map<string, real>) {
    if charges == [] then map[] else Charged(RunCharges(charges[..|charges| - 1]), charges[|charges| - 1])
  }

  /** The costs of an organisation's charges that fit under the limit of the moment, in order. */
  function Accepted(charges: seq<Charge>, org: string): (a: seq<real>) {
    if charges == [] then []
    else
      var a, c := Accepted(charges[..|charges| - 1], org), charges[|charges| - 1];
      if c.org == org && Sum(a) + c.cost <= c.limit then a + [c.cost] else a
  }

  /** After any run of charges an organisation's recorded spend is the sum of its own accepted charges, and never
      above the highest limit it was charged under. */
  lemma {:induction false} SpendConserved(charges: seq<Charge>, org: string, most: real)
    requires forall c :: c in charges && c.org == org ==> c.limit <= most
    ensures Spent(RunCharges(charges), org) == Sum(Accepted(charges, org))
    ensures Spent(RunCharges(charges), org) <= if most < 0.0 then 0.0 else most
  {
    if charges != [] {
      var init, c := charges[..|charges| - 1], charges[|charges| - 1];
      SpendConserved(init, org, most);
      var a := Accepted(init, org);
      assert (a + [c.cost])[..|a|] == a;
      assert c in charges;
    }
  }
}
