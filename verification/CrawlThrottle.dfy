/** The per-domain crawl throttle: a slot is reserved under the lock, the caller sleeps outside it. */
module CrawlThrottle {
  import opened Numbers
  import opened Text

  /** The white space of ASCII. */
  predicate IsBlank(c: char) { c == ' ' || 9 <= c as int <= 13 || 28 <= c as int <= 31 }

  function TrimLeft(s: string): (r: string) {
    if s != [] && IsBlank(s[0]) then TrimLeft(s[1..]) else s
  }

  function TrimRight(s: string): (r: string) {
    if s != [] && IsBlank(s[|s| - 1]) then TrimRight(s[..|s| - 1]) else s
  }

  function Clean(domain: string): (d: string) { TrimRight(TrimLeft(Lower(domain))) }

  /** 1 / max(0.1, rps), where a rate of 0 selects the default. */
  function Interval(rps: real, default: real): (i: real)
    ensures 0.0 < i <= 10.0
    ensures i * (if rps == 0.0 then (if default < 0.1 then 0.1 else default) else if rps < 0.1 then 0.1 else rps) == 1.0
  {
    var r := if rps == 0.0 then default else rps;
    var m := Larger(0.1, r);
    assert 1.0 / m * m == 1.0;
    1.0 / m
  }

  predicate NoBlanksAround(s: string) { s == "" || (!IsBlank(s[0]) && !IsBlank(s[|s| - 1])) }

  lemma {:induction false} TrimmedAround(left: string, s: string, right: string)
    requires NoBlanksAround(s) && (s == "" ==> left == "")
    requires forall c :: c in left + right ==> IsBlank(c)
    ensures TrimRight(TrimLeft(left + s + right)) == s
  {
    var t := left + s + right;
    if left != "" {
      assert t[1..] == left[1..] + s + right;
      assert forall c :: c in left[1..] + right ==> c in left + right;
      assert t[0] == left[0] && left[0] in left + right;
      TrimmedAround(left[1..], s, right);
    } else if right != "" {
      if s == "" {
        TrimAllBlank(right);
      } else {
        assert t[0] == s[0];
        assert TrimLeft(t) == t;
        TrimEnd(s, right);
      }
    } else {
      assert t == s;
    }
  }

  lemma {:induction false} TrimAllBlank(s: string)
    requires forall c :: c in s ==> IsBlank(c)
    ensures TrimLeft("" + "" + s) == ""
  {
    assert "" + "" + s == s;
    if s != "" {
      assert s[0] in s;
      TrimAllBlank(s[1..]);
      assert "" + "" + s[1..] == s[1..];
    }
  }

  lemma {:induction false} TrimEnd(s: string, right: string)
    requires s != "" && !IsBlank(s[|s| - 1]) && forall c :: c in right ==> IsBlank(c)
    ensures TrimRight("" + s + right) == s
  {
    var t := "" + s + right;
    if right == "" {
      assert t == s;
    } else {
      var init := right[..|right| - 1];
      assert t[..|t| - 1] == "" + s + init && t[|t| - 1] == right[|right| - 1];
      assert right[|right| - 1] in right;
      TrimEnd(s, init);
    }
  }

  lemma LowerKeepsBlanks(s: string)
    ensures NoBlanksAround(s) ==> NoBlanksAround(Lower(s))
    ensures (forall c :: c in s ==> IsBlank(c)) ==> Lower(s) == s
  {
    if forall c :: c in s ==> IsBlank(c) {
      assert forall i :: 0 <= i < |s| ==> s[i] in s;
    }
  }

  lemma CleanOf(a: string)
    requires NoBlanksAround(a)
    ensures Clean(a) == Lower(a)
  {
    LowerKeepsBlanks(a);
    TrimmedAround("", Lower(a), "");
    assert "" + Lower(a) + "" == Lower(a);
  }

  /** Domains without blanks around them share their slots exactly when they differ in letter case only. */
  lemma SameDomainIff(a: string, b: string)
    requires NoBlanksAround(a) && NoBlanksAround(b)
    ensures Clean(a) == Clean(b) <==> AnyCase(a, b)
  {
    hide *;
    CleanOf(a);
    CleanOf(b);
    LowerIff(a, b);
  }

  /** Blanks around a domain do not matter. */
  lemma BlanksAroundDomain(left: string, a: string, right: string)
    requires a != "" && NoBlanksAround(a) && forall c :: c in left + right ==> IsBlank(c)
    ensures Clean(left + a + right) == Clean(a)
  {
    forall c | c in left ensures IsBlank(c) { assert c in left + right; }
    forall c | c in right ensures IsBlank(c) { assert c in left + right; }
    LowerKeepsBlanks(left);
    LowerKeepsBlanks(right);
    LowerKeepsBlanks(a);
    assert Lower(left + a + right) == left + Lower(a) + right;
    TrimmedAround(left, Lower(a), right);
    TrimmedAround("", Lower(a), "");
    assert "" + Lower(a) + "" == Lower(a);
  }

  function LastGrant(m: map<string, real>, d: string): (t: real) {
    if d in m then m[d] else 0.0
  }

  class DomainRateLimiter {
    const interval: real
    var lastAccess: map<string, real>

    constructor (rps: real, default: real)
      ensures interval == Interval(rps, default) && lastAccess == map[]
    {
      interval := Interval(rps, default);
      lastAccess := map[];
    }

    /** Reserves the next slot of the domain: the caller may go at now + waited. */
    method Throttle(domain: string, now: real) returns (waited: real)
      modifies this`lastAccess
      ensures waited >= 0.0
      ensures now + waited == Larger(now, LastGrant(old(lastAccess), Clean(domain)) + interval)
      ensures lastAccess == Reserve(old(lastAccess), interval, Call(Clean(domain), now))
    {
      var d := Clean(domain);
      var last := LastGrant(lastAccess, d);
      var elapsed := now - last;
      waited := 0.0;
      if elapsed < interval {
        waited := interval - elapsed;
        lastAccess := lastAccess[d := now + waited];
      } else {
        lastAccess := lastAccess[d := now];
      }
    }
  }

  // ---- Any interleaving of callers, in the order in which they take the lock ----

  datatype Call = Call(domain: string, now: real)

  function Reserve(m: map<string, real>, interval: real, c: Call): (r: map<string, real>) {
    m[c.domain := Larger(c.now, LastGrant(m, c.domain) + interval)]
  }

  function Table(interval: real, calls: seq<Call>): (m: map<string, real>) {
    if calls == [] then map[] else Reserve(Table(interval, calls[..|calls| - 1]), interval, calls[|calls| - 1])
  }

  /** The times of the calls for domain d. */
  function TimesOf(calls: seq<Call>, d: string): (ts: seq<real>) {
    if calls == [] then []
    else
      var c := calls[|calls| - 1];
      TimesOf(calls[..|calls| - 1], d) + if c.domain == d then [c.now] else []
  }

  /** The slot granted to the last of the calls of one domain made at the given times; clock reading 0 counts
      as the grant before the first. */
  function Slot(interval: real, ts: seq<real>): (g: real) {
    if ts == [] then 0.0 else Larger(ts[|ts| - 1], Slot(interval, ts[..|ts| - 1]) + interval)
  }

  /** Domains do not affect each other: a domain's entry is the slot its own calls alone would get. */
  lemma {:induction false} DomainsIndependent(interval: real, calls: seq<Call>, d: string)
    ensures LastGrant(Table(interval, calls), d) == Slot(interval, TimesOf(calls, d))
  {
    if calls != [] {
      var init, c := calls[..|calls| - 1], calls[|calls| - 1];
      DomainsIndependent(interval, init, d);
      if c.domain == d {
        assert TimesOf(calls, d)[..|TimesOf(init, d)|] == TimesOf(init, d);
      } else {
        assert TimesOf(calls, d) == TimesOf(init, d);
      }
    }
  }

  /** k intervals. */
  function Span(interval: real, k: nat): (s: real)
    ensures interval >= 0.0 ==> s >= 0.0
  {
    if k == 0 then 0.0 else Span(interval, k - 1) + interval
  }

  lemma {:induction false} SpanIsProduct(interval: real, k: nat)
    ensures Span(interval, k) == k as real * interval
  {
    if k > 0 {
      SpanIsProduct(interval, k - 1);
    }
  }

  /** The slots of any k + 1 consecutive calls of a domain span at least k intervals, whatever the clock does. */
  lemma {:induction false} SlotsSpaced(interval: real, ts: seq<real>, k: nat)
    requires k < |ts|
    ensures Slot(interval, ts) - Slot(interval, ts[..|ts| - k]) >= k as real * interval
  {
    SlotsSpan(interval, ts, k);
    SpanIsProduct(interval, k);
  }

  lemma {:induction false} SlotsSpan(interval: real, ts: seq<real>, k: nat)
    requires k < |ts|
    ensures Slot(interval, ts) - Slot(interval, ts[..|ts| - k]) >= Span(interval, k)
  {
    if k == 0 {
      assert ts[..|ts|] == ts;
    } else {
      var init := ts[..|ts| - 1];
      SlotsSpan(interval, init, k - 1);
      assert init[..|init| - (k - 1)] == ts[..|ts| - k];
    }
  }

  /** The earlier calls whose slot and the interval after it are not over at time t. */
  function Pending(interval: real, ts: seq<real>, t: real): (n: nat)
    ensures n <= |ts|
  {
    if ts == [] then 0
    else Pending(interval, ts[..|ts| - 1], t) + if Slot(interval, ts) + interval > t then 1 else 0
  }

  ghost predicate Monotone(ts: seq<real>) {
    forall i, j :: 0 <= i < j < |ts| ==> ts[i] <= ts[j]
  }

  /** Whether the grant that clock reading 0 counts as is still pending at time t. */
  function Opening(interval: real, t: real): (n: nat) { if t < interval then 1 else 0 }

  /** With a monotone clock the slots granted so far reach at most one interval per pending grant beyond t. */
  lemma {:induction false} PendingSpan(interval: real, ts: seq<real>, t: real)
    requires interval > 0.0 && t >= 0.0
    requires forall i :: 0 <= i < |ts| ==> ts[i] <= t
    ensures Slot(interval, ts) + interval <= t + Span(interval, Opening(interval, t) + Pending(interval, ts, t))
  {
    if ts != [] {
      var init := ts[..|ts| - 1];
      PendingSpan(interval, init, t);
      var p := Opening(interval, t) + Pending(interval, init, t);
      assert Span(interval, p + 1) == Span(interval, p) + interval;
    } else {
      assert Span(interval, 1) == Span(interval, 0) + interval;
    }
  }

  lemma SlotSnoc(interval: real, ts: seq<real>, x: real)
    ensures Slot(interval, ts + [x]) == Larger(x, Slot(interval, ts) + interval)
  {
    assert (ts + [x])[..|ts|] == ts;
  }

  lemma WaitSpan(interval: real, ts: seq<real>, now: real)
    requires interval > 0.0 && Monotone(ts + [now]) && now >= 0.0
    ensures Slot(interval, ts + [now]) - now <= Span(interval, Opening(interval, now) + Pending(interval, ts, now))
  {
    forall i | 0 <= i < |ts| ensures ts[i] <= now {
      assert (ts + [now])[i] <= (ts + [now])[|ts|];
    }
    PendingSpan(interval, ts, now);
    SlotSnoc(interval, ts, now);
  }

  /** A caller waits at most one interval per earlier grant that is still pending when it arrives.  Clock reading 0
      counts as a grant, so that before the first interval is over even a first caller may have to wait. */
  lemma WaitBounded(interval: real, ts: seq<real>, now: real)
    requires interval > 0.0 && Monotone(ts + [now]) && now >= 0.0
    ensures Slot(interval, ts + [now]) - now <= (Opening(interval, now) + Pending(interval, ts, now)) as real * interval
    ensures interval <= now ==> Slot(interval, ts + [now]) - now <= Pending(interval, ts, now) as real * interval
  {
    hide *;
    WaitSpan(interval, ts, now);
    SpanIsProduct(interval, Opening(interval, now) + Pending(interval, ts, now));
    NoOpening(interval, now);
  }

  lemma NoOpening(interval: real, now: real)
    ensures interval <= now ==> Opening(interval, now) == 0
  {
  }
}
