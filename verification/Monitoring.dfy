/** Monitoring re-scans of a case: the delta states of the stored findings. */
module Monitoring {
  import opened Sequences

  /** metadata["observation_state"]; a finding without one counts as Active. */
  datatype Observation = Active | New | Unchanged | NotObserved | Reappeared

  /** A stored finding; "" stands for an absent text. */
  datatype Finding = Finding(id: string, canonicalUrl: string, pageUrl: string, sourceUrl: string,
                             state: Observation, verification: string)

  /** An entry of the latest scan; "" stands for an absent text. */
  datatype Item = Item(pageUrl: string, url: string, sourceUrl: string, domain: string)

  function Or(a: string, b: string): (r: string) { if a != "" then a else b }

  /** The canonical URL, else the page URL, else the source URL, else the id. */
  function KeyOf(f: Finding): (k: string)
    ensures f.canonicalUrl != "" ==> k == f.canonicalUrl
    ensures f.canonicalUrl == "" && f.pageUrl != "" ==> k == f.pageUrl
    ensures f.canonicalUrl == f.pageUrl == "" && f.sourceUrl != "" ==> k == f.sourceUrl
    ensures f.canonicalUrl == f.pageUrl == f.sourceUrl == "" ==> k == f.id
  { Or(f.canonicalUrl, Or(f.pageUrl, Or(f.sourceUrl, f.id))) }

  /** The page URL, else the URL, else the source URL. */
  function ItemUrl(i: Item): (u: string)
    ensures i.pageUrl != "" ==> u == i.pageUrl
    ensures i.pageUrl == "" && i.url != "" ==> u == i.url
    ensures i.pageUrl == i.url == "" ==> u == i.sourceUrl
  { Or(i.pageUrl, Or(i.url, i.sourceUrl)) }

  function ItemKey(i: Item): (k: string)
    ensures k != ""
    ensures ItemUrl(i) != "" ==> k == ItemUrl(i)
    ensures ItemUrl(i) == "" ==> k == if i.domain != "" then i.domain else "unknown.test"
  {
    Or(ItemUrl(i), Or(i.domain, "unknown.test"))
  }

  function Keys(items: seq<Item>): (ks: seq<string>)
    ensures |ks| == |items|
    ensures forall i :: 0 <= i < |items| ==> ks[i] == ItemKey(items[i])
  {
    seq(|items|, i requires 0 <= i < |items| => ItemKey(items[i]))
  }

  lemma KeysPrefix(items: seq<Item>, n: nat)
    requires n <= |items|
    ensures Keys(items)[..|items|] == Keys(items)
    ensures n < |items| ==> Keys(items)[n] == ItemKey(items[n])
    ensures n < |items| ==> Keys(items)[..n + 1] == Keys(items)[..n] + [ItemKey(items[n])]
  {
  }

  /** The finding a first sighting creates. */
  function Discovered(i: Item, id: string): (f: Finding)
    ensures KeyOf(f) == f.canonicalUrl == ItemKey(i) && f.state == New && f.verification == "PENDING_REVIEW"
    ensures f.pageUrl == f.sourceUrl == ItemUrl(i) && f.id == id
  {
    Finding(id, ItemKey(i), ItemUrl(i), ItemUrl(i), New, "PENDING_REVIEW")
  }

  /** The last of the first n findings with key k, or -1: the one a dictionary by key retains. */
  function LastWith(fs: seq<Finding>, n: nat, k: string): (i: int)
    requires n <= |fs|
    ensures -1 <= i < n
    ensures i >= 0 ==> KeyOf(fs[i]) == k
    ensures forall j :: i < j < n ==> KeyOf(fs[j]) != k
  {
    if n == 0 then -1 else if KeyOf(fs[n - 1]) == k then n - 1 else LastWith(fs, n - 1, k)
  }

  predicate Known(fs: seq<Finding>, k: string) { LastWith(fs, |fs|, k) >= 0 }

  /** A later finding with the same key hides this one from every scan. */
  predicate Shadowed(fs: seq<Finding>, i: nat)
    requires i < |fs|
  {
    LastWith(fs, |fs|, KeyOf(fs[i])) != i
  }

  function Occurrences(ks: seq<string>, k: string): (n: nat)
    ensures n > 0 <==> k in ks
  {
    if ks == [] then 0
    else Occurrences(ks[..|ks| - 1], k) + if ks[|ks| - 1] == k then 1 else 0
  }

  /** The state after a scan in which the key occurred n times, before the not-observed pass. */
  function Seen(prev: Observation, n: nat): (s: Observation) {
    if n == 0 then prev
    else if n == 1 && prev == NotObserved then Reappeared
    else Unchanged
  }

  function StateAfter(fs: seq<Finding>, i: nat, ks: seq<string>): (s: Observation)
    requires i < |fs|
  {
    if Shadowed(fs, i) then fs[i].state
    else if KeyOf(fs[i]) !in ks then NotObserved
    else Seen(fs[i].state, Occurrences(ks, KeyOf(fs[i])))
  }

  /** Finding `at` is listed once more. */
  function Touch(fs: seq<Finding>, at: nat): (r: seq<Finding>)
    requires at < |fs|
    ensures |r| == |fs|
  {
    fs[at := fs[at].(state := if fs[at].state == NotObserved then Reappeared else Unchanged)]
  }

  /** One new finding per occurrence of an unknown key among the first n items, in scan order. */
  function Added(fs: seq<Finding>, items: seq<Item>, ids: seq<string>, n: nat): (r: seq<Finding>)
    requires n <= |items| <= |ids|
  {
    if n == 0 then []
    else if Known(fs, ItemKey(items[n - 1])) then Added(fs, items, ids, n - 1)
    else Added(fs, items, ids, n - 1) + [Discovered(items[n - 1], ids[n - 1])]
  }

  /** The findings after a scan. */
  function AfterScan(fs: seq<Finding>, items: seq<Item>, ids: seq<string>): (r: seq<Finding>)
    requires |items| <= |ids|
  {
    seq(|fs|, i requires 0 <= i < |fs| => fs[i].(state := StateAfter(fs, i, Keys(items)))) +
    Added(fs, items, ids, |items|)
  }

  function KeySet(fs: seq<Finding>): (r: set<string>) {
    set f | f in fs :: KeyOf(f)
  }

  /** The known keys the scan does not list. */
  ghost function Unlisted(fs: seq<Finding>, ks: seq<string>): (r: set<string>) {
    set f | f in fs && KeyOf(f) !in ks :: KeyOf(f)
  }

  /** The listed keys of findings marked as missing. */
  ghost function Returning(fs: seq<Finding>, ks: seq<string>): (r: set<string>) {
    set k | k in ks && Known(fs, k) && fs[LastWith(fs, |fs|, k)].state == NotObserved
  }

  /** index maps the keys of the first n findings to the last finding with that key; order lists those keys. */
  ghost predicate Indexes(index: map<string, nat>, order: seq<string>, fs: seq<Finding>, n: nat)
    requires n <= |fs|
  {
    && (forall k :: k in index <==> LastWith(fs, n, k) >= 0)
    && (forall k :: k in index ==> index[k] == LastWith(fs, n, k))
    && (forall k :: k in order <==> k in index)
    && (forall i, j :: 0 <= i < j < |order| ==> order[i] != order[j])
  }

  lemma IndexLookup(index: map<string, nat>, order: seq<string>, fs: seq<Finding>, k: string)
    requires Indexes(index, order, fs, |fs|)
    ensures k in index <==> Known(fs, k)
    ensures k in index ==> index[k] == LastWith(fs, |fs|, k) < |fs|
  {
  }

  lemma IndexesStep(index: map<string, nat>, order: seq<string>, fs: seq<Finding>, n: nat)
    requires n < |fs| && Indexes(index, order, fs, n)
    ensures var k := KeyOf(fs[n]);
            Indexes(index[k := n], if k in index then order else order + [k], fs, n + 1)
  {
    var key := KeyOf(fs[n]);
    var index', order' := index[key := n], if key in index then order else order + [key];
    forall k: string
      ensures (k in index' <==> LastWith(fs, n + 1, k) >= 0) && (k in index' ==> index'[k] == LastWith(fs, n + 1, k))
      ensures k in order' <==> k in index'
    {
    }
  }

  datatype RunReport = RunReport(candidates: nat, news: nat, steady: nat, notObserved: nat, reappeared: nat)

  class CaseMonitor {
    var findings: seq<Finding>
    var previousCount: nat
    var currentCount: nat
    var newDeltaCount: nat

    constructor (stored: seq<Finding>)
      ensures findings == stored && currentCount == |stored|
    {
      findings, previousCount, currentCount, newDeltaCount := stored, |stored|, |stored|, 0;
    }

    /** The dictionary of stored findings by key and its keys, each once. */
    method IndexFindings() returns (index: map<string, nat>, order: seq<string>)
      ensures Indexes(index, order, findings, |findings|)
    {
      index, order := map[], [];
      for i := 0 to |findings|
        invariant Indexes(index, order, findings, i)
      {
        var key := KeyOf(findings[i]);
        IndexesStep(index, order, findings, i);
        if key !in index { order := order + [key]; }
        index := index[key := i];
      }
    }

    /** A stored finding is listed by the scan: it reappears or goes on unchanged. */
    method Observe(at: nat) returns (again: bool)
      requires at < |findings|
      modifies this`findings
      ensures again <==> old(findings)[at].state == NotObserved
      ensures findings == Touch(old(findings), at)
    {
      again := findings[at].state == NotObserved;
      findings := findings[at := findings[at].(state := if again then Reappeared else Unchanged)];
    }

    /** The comparison of the scan's items, in order, with the stored findings. */
    method CompareItems(items: seq<Item>, ids: seq<string>, index: map<string, nat>, order: seq<string>)
      returns (added: seq<Finding>, observed: set<string>, news: nat, steady: nat, reappeared: nat)
      requires |items| <= |ids| && Indexes(index, order, findings, |findings|)
      modifies this`findings
      ensures findings == Compared(old(findings), Keys(items))
      ensures added == Added(old(findings), items, ids, |items|) && |added| == news
      ensures observed == Elements(Keys(items), |items|)
      ensures news + steady + reappeared == |items|
      ensures reappeared == |Returning(old(findings), Keys(items))|
    {
      ghost var was, ks := findings, Keys(items);
      news, steady, reappeared, observed, added := 0, 0, 0, {}, [];
      CompareNone(was);
      ReturningNone(was);
      KeysPrefix(items, |items|);
      ElementsStep(ks, 0);
      AddedStep(was, items, ids, 0);
      hide *;
      for n := 0 to |items|
        invariant findings == Compared(was, ks[..n])
        invariant added == Added(was, items, ids, n)
        invariant |added| == news && news + steady + reappeared == n
        invariant reappeared == |Returning(was, ks[..n])|
        invariant observed == Elements(ks, n)
      {
        var key := ItemKey(items[n]);
        KeysPrefix(items, n);
        IndexLookup(index, order, was, key);
        CompareStep(was, ks[..n], key);
        ReturningStep(was, ks[..n], key);
        AddedStep(was, items, ids, n);
        ElementsStep(ks, n);
        observed := observed + {key};
        if key in index {
          var again := Observe(index[key]);
          if again { reappeared := reappeared + 1; } else { steady := steady + 1; }
        } else {
          added := added + [Discovered(items[n], ids[n])];
          news := news + 1;
        }
      }
    }

    method Scan(items: seq<Item>, ids: seq<string>) returns (run: RunReport)
      requires |items| <= |ids|
      modifies this
      ensures findings == AfterScan(old(findings), items, ids)
      ensures previousCount == old(currentCount) && currentCount == |findings| && newDeltaCount == run.news
      ensures run.candidates == |items| == run.news + run.steady + run.reappeared
      ensures |findings| == |old(findings)| + run.news
      ensures run.notObserved == |Unlisted(old(findings), Keys(items))|
      ensures run.reappeared == |Returning(old(findings), Keys(items))|
    {
      hide *;
      ghost var was := findings;
      var index, order := IndexFindings();
      var added, observed, news, steady, reappeared := CompareItems(items, ids, index, order);
      var notObserved := MarkUnlisted(index, order, observed, was, Keys(items));
      AfterScanIs(was, items, ids);
      previousCount, currentCount, newDeltaCount := currentCount, |findings| + news, news;
      findings := findings + added;
      run := RunReport(|items|, news, steady, notObserved, reappeared);
    }

    /** The pass over the stored keys that the scan did not list. */
    method MarkUnlisted(index: map<string, nat>, order: seq<string>, observed: set<string>,
                        ghost was: seq<Finding>, ghost ks: seq<string>) returns (count: nat)
      requires findings == Compared(was, ks)
      requires observed == Elements(ks, |ks|)
      requires Indexes(index, order, was, |was|)
      modifies this`findings
      ensures findings == Marked(was, ks, KeySet(was)) && |findings| == |was|
      ensures count == |Unlisted(was, ks)|
    {
      count := 0;
      assert findings == Marked(was, ks, {});
      assert ks[..|ks|] == ks;
      OrderIsComplete(was, order, ks);
      hide Compared, Shadowed, Occurrences, Seen, Marked, StateAfter, LastWith, KeyOf, Unlisted, Elements,
           KeySet, CountUnlisted;
      CountStep(order, 0, ks);
      ElementsStep(order, 0);
      for m := 0 to |order|
        invariant findings == Marked(was, ks, Elements(order, m))
        invariant count == CountUnlisted(order, m, ks)
      {
        var key := order[m];
        assert key in order;
        MarkStep(was, ks, Elements(order, m), key);
        ElementsStep(order, m);
        CountStep(order, m, ks);
        if key !in observed {
          findings := findings[index[key] := findings[index[key]].(state := NotObserved)];
          count := count + 1;
        }
      }
    }
  }

  // ---- Steps of the two passes ----

  /** The stored findings after the comparison with the keys ks, before the not-observed pass. */
  function Compared(was: seq<Finding>, ks: seq<string>): (r: seq<Finding>)
    ensures |r| == |was|
  {
    seq(|was|, i requires 0 <= i < |was| =>
      was[i].(state := if Shadowed(was, i) then was[i].state
                       else Seen(was[i].state, Occurrences(ks, KeyOf(was[i])))))
  }

  /** The same once the not-observed pass has dealt with the keys in `done`. */
  function Marked(was: seq<Finding>, ks: seq<string>, done: set<string>): (r: seq<Finding>)
    ensures |r| == |was|
  {
    seq(|was|, i requires 0 <= i < |was| =>
      if KeyOf(was[i]) in done then was[i].(state := StateAfter(was, i, ks)) else Compared(was, ks)[i])
  }

  function Elements(order: seq<string>, m: nat): (r: set<string>)
    requires m <= |order|
  {
    set k | k in order[..m]
  }

  lemma ElementsStep(order: seq<string>, m: nat)
    requires m <= |order|
    ensures Elements(order, 0) == {}
    ensures m < |order| ==> Elements(order, m + 1) == Elements(order, m) + {order[m]}
  {
  }

  function CountUnlisted(order: seq<string>, m: nat, ks: seq<string>): (n: nat)
    requires m <= |order|
  {
    if m == 0 then 0 else CountUnlisted(order, m - 1, ks) + if order[m - 1] in ks then 0 else 1
  }

  lemma CountStep(order: seq<string>, m: nat, ks: seq<string>)
    requires m <= |order|
    ensures CountUnlisted(order, 0, ks) == 0
    ensures m < |order| ==>
              CountUnlisted(order, m + 1, ks) == CountUnlisted(order, m, ks) + if order[m] in ks then 0 else 1
  {
  }

  lemma {:induction false} CountIsCardinality(order: seq<string>, m: nat, ks: seq<string>)
    requires m <= |order| && forall i, j :: 0 <= i < j < |order| ==> order[i] != order[j]
    ensures CountUnlisted(order, m, ks) == |set k | k in order[..m] && k !in ks|
  {
    if m == 0 {
      assert (set k | k in order[..0] && k !in ks) == {};
    } else {
      CountIsCardinality(order, m - 1, ks);
      var prev, next := set k | k in order[..m - 1] && k !in ks, set k | k in order[..m] && k !in ks;
      assert order[..m] == order[..m - 1] + [order[m - 1]];
      if order[m - 1] in ks {
        assert next == prev;
      } else {
        assert next == prev + {order[m - 1]};
      }
    }
  }

  lemma OrderIsComplete(was: seq<Finding>, order: seq<string>, ks: seq<string>)
    requires forall k :: k in order <==> Known(was, k)
    requires forall i, j :: 0 <= i < j < |order| ==> order[i] != order[j]
    ensures Elements(order, |order|) == KeySet(was)
    ensures CountUnlisted(order, |order|, ks) == |Unlisted(was, ks)|
  {
    assert order[..|order|] == order;
    forall k ensures k in order <==> exists f :: f in was && KeyOf(f) == k { KnownIff(was, k); }
    CountIsCardinality(order, |order|, ks);
    assert Unlisted(was, ks) == set k | k in order && k !in ks;
  }

  lemma AddedStep(was: seq<Finding>, items: seq<Item>, ids: seq<string>, n: nat)
    requires n <= |items| <= |ids|
    ensures Added(was, items, ids, 0) == []
    ensures n < |items| ==>
              Added(was, items, ids, n + 1) ==
                if Known(was, ItemKey(items[n])) then Added(was, items, ids, n)
                else Added(was, items, ids, n) + [Discovered(items[n], ids[n])]
  {
  }

  lemma AfterScanIs(was: seq<Finding>, items: seq<Item>, ids: seq<string>)
    requires |items| <= |ids|
    ensures AfterScan(was, items, ids) ==
            Marked(was, Keys(items), KeySet(was)) + Added(was, items, ids, |items|)
  {
  }

  lemma CompareNone(was: seq<Finding>)
    ensures Compared(was, []) == was
  {
  }

  lemma CompareStep(was: seq<Finding>, ks: seq<string>, k: string)
    ensures Compared(was, ks + [k]) ==
              if Known(was, k) then Touch(Compared(was, ks), LastWith(was, |was|, k)) else Compared(was, ks)
  {
    var r, q := Compared(was, ks + [k]), Compared(was, ks);
    assert (ks + [k])[..|ks|] == ks;
    forall i | 0 <= i < |was| && KeyOf(was[i]) != k ensures r[i] == q[i] {}
    forall i | 0 <= i < |was| && Shadowed(was, i) ensures r[i] == q[i] {}
    forall i | 0 <= i < |was| && KeyOf(was[i]) == k && !Shadowed(was, i)
      ensures i == LastWith(was, |was|, k)
    {
    }
  }

  lemma ReturningNone(was: seq<Finding>)
    ensures Returning(was, []) == {}
  {
  }

  /** A listing counts as a reappearance if it is the first one of a key marked as missing. */
  lemma ReturningStep(was: seq<Finding>, ks: seq<string>, k: string)
    ensures var i := LastWith(was, |was|, k);
            if Known(was, k) && Compared(was, ks)[i].state == NotObserved
            then |Returning(was, ks + [k])| == |Returning(was, ks)| + 1
            else |Returning(was, ks + [k])| == |Returning(was, ks)|
  {
    hide *;
    MissingMember(was, ks, k);
    MissingStep(was, ks, k);
    var old' := Returning(was, ks);
    assert k in old' ==> old' + {k} == old';
    assert old' + {} == old';
  }

  predicate Missing(was: seq<Finding>, k: string) { Known(was, k) && was[LastWith(was, |was|, k)].state == NotObserved }

  lemma MissingStep(was: seq<Finding>, ks: seq<string>, k: string)
    ensures Returning(was, ks + [k]) == Returning(was, ks) + if Missing(was, k) then {k} else {}
  {
    hide LastWith;
    assert forall x :: x in ks + [k] <==> x in ks || x == k;
  }

  lemma MissingMember(was: seq<Finding>, ks: seq<string>, k: string)
    ensures k in Returning(was, ks) <==> k in ks && Missing(was, k)
    ensures Known(was, k) ==>
              (Compared(was, ks)[LastWith(was, |was|, k)].state == NotObserved <==> Missing(was, k) && k !in ks)
    ensures Missing(was, k) ==> Known(was, k)
  {
  }

  lemma MarkStep(was: seq<Finding>, ks: seq<string>, done: set<string>, k: string)
    requires Known(was, k)
    ensures var at := LastWith(was, |was|, k);
            var q := Marked(was, ks, done);
            Marked(was, ks, done + {k}) == if k in ks then q else q[at := q[at].(state := NotObserved)]
  {
    var r, q := Marked(was, ks, done + {k}), Marked(was, ks, done);
    forall i | 0 <= i < |was| && KeyOf(was[i]) != k ensures r[i] == q[i] {}
    forall i | 0 <= i < |was| && Shadowed(was, i) ensures r[i] == q[i] {}
  }

  lemma KnownIff(was: seq<Finding>, k: string)
    ensures Known(was, k) <==> exists f :: f in was && KeyOf(f) == k
  {
    if Known(was, k) {
      assert was[LastWith(was, |was|, k)] in was;
    }
    if f :| f in was && KeyOf(f) == k {
      var i :| 0 <= i < |was| && was[i] == f;
      assert LastWith(was, |was|, k) >= i;
    }
  }

  // ---- Distinct keys ----

  function KeysOf(fs: seq<Finding>): (ks: seq<string>)
    ensures |ks| == |fs|
    ensures forall i :: 0 <= i < |fs| ==> ks[i] == KeyOf(fs[i])
  {
    seq(|fs|, i requires 0 <= i < |fs| => KeyOf(fs[i]))
  }

  lemma KnownIsMember(fs: seq<Finding>, k: string)
    ensures Known(fs, k) <==> k in KeysOf(fs)
  {
    if i :| 0 <= i < |fs| && KeysOf(fs)[i] == k {
      assert LastWith(fs, |fs|, k) >= i;
    }
    if Known(fs, k) {
      assert KeysOf(fs)[LastWith(fs, |fs|, k)] == k;
    }
  }

  lemma {:induction false} AddedKeys(fs: seq<Finding>, items: seq<Item>, ids: seq<string>, n: nat)
    requires n <= |items| <= |ids|
    ensures KeysOf(Added(fs, items, ids, n)) == Fresh(KeysOf(fs), Keys(items), n)
  {
    hide *;
    FreshStep(KeysOf(fs), Keys(items), n);
    if n == 0 {
      AddedStep(fs, items, ids, 0);
      NoKeys();
    } else {
      AddedKeys(fs, items, ids, n - 1);
      KnownIsMember(fs, ItemKey(items[n - 1]));
      AddedStep(fs, items, ids, n - 1);
      KeysOfSnoc(Added(fs, items, ids, n - 1), Discovered(items[n - 1], ids[n - 1]));
    }
  }

  lemma NoKeys()
    ensures KeysOf([]) == []
  {
  }

  /** What one scan does to the keys, and that of a stored finding it changes nothing but the state. */
  lemma ScanKeepsFindings(fs: seq<Finding>, items: seq<Item>, ids: seq<string>)
    requires |items| <= |ids|
    ensures KeysOf(AfterScan(fs, items, ids)) == KeysOf(fs) + Fresh(KeysOf(fs), Keys(items), |items|)
    ensures forall i :: 0 <= i < |fs| ==>
              AfterScan(fs, items, ids)[i] == fs[i].(state := StateAfter(fs, i, Keys(items)))
  {
    AddedKeys(fs, items, ids, |items|);
    hide Fresh, Added, StateAfter;
    var stored := seq(|fs|, i requires 0 <= i < |fs| => fs[i].(state := StateAfter(fs, i, Keys(items))));
    assert AfterScan(fs, items, ids) == stored + Added(fs, items, ids, |items|);
    KeysOfConcat(stored, Added(fs, items, ids, |items|));
    assert KeysOf(stored) == KeysOf(fs);
  }

  lemma KeysOfSnoc(a: seq<Finding>, f: Finding)
    ensures KeysOf(a + [f]) == KeysOf(a) + [KeyOf(f)]
  {
    hide KeyOf;
  }

  lemma KeysOfConcat(a: seq<Finding>, b: seq<Finding>)
    ensures KeysOf(a + b) == KeysOf(a) + KeysOf(b)
  {
    hide KeyOf;
  }

  /** A scan keeps the keys of the findings distinct exactly when no unknown key is listed twice. */
  lemma StaysDistinctIff(fs: seq<Finding>, items: seq<Item>, ids: seq<string>)
    requires |items| <= |ids| && Distinct(KeysOf(fs))
    ensures Distinct(KeysOf(AfterScan(fs, items, ids))) <==> FreshOnce(KeysOf(fs), Keys(items), |items|)
  {
    hide AfterScan, KeysOf, Keys, Distinct, Fresh, FreshOnce;
    ScanKeepsFindings(fs, items, ids);
    assert |Keys(items)| == |items|;
    AppendFreshDistinctIff(KeysOf(fs), Keys(items));
  }

  // ---- Whole histories ----

  datatype Rescan = Rescan(items: seq<Item>, ids: seq<string>)

  predicate Listed(scans: seq<Rescan>, n: nat, k: string)
    requires n < |scans|
  {
    k in Keys(scans[n].items)
  }

  /** There are ids for all findings a scan may add. */
  ghost predicate Fed(scans: seq<Rescan>) {
    forall n :: 0 <= n < |scans| ==> |scans[n].items| <= |scans[n].ids|
  }

  function Replay(f0: seq<Finding>, scans: seq<Rescan>): (fs: seq<Finding>)
    requires Fed(scans)
  {
    if scans == [] then f0
    else
      var last := scans[|scans| - 1];
      AfterScan(Replay(f0, scans[..|scans| - 1]), last.items, last.ids)
  }

  /** Key k belonged to a stored finding before scan n. */
  ghost predicate StoredBefore(f0: seq<Finding>, scans: seq<Rescan>, n: nat, k: string)
    requires n <= |scans|
  {
    k in KeysOf(f0) || exists m :: 0 <= m < n && Listed(scans, m, k)
  }

  /** Key k was present when scan n started: listed by the scan before, or not yet marked as missing. */
  predicate PresentBefore(f0: seq<Finding>, scans: seq<Rescan>, n: nat, k: string)
    requires n <= |scans|
  {
    if n > 0 then Listed(scans, n - 1, k)
    else Known(f0, k) && f0[LastWith(f0, |f0|, k)].state != NotObserved
  }

  /** The state of the finding with key k, read off the scan history alone. */
  ghost function StateOf(f0: seq<Finding>, scans: seq<Rescan>, k: string): (s: Observation)
    requires scans != []
  {
    var n := |scans| - 1;
    if !Listed(scans, n, k) then NotObserved
    else if !StoredBefore(f0, scans, n, k) then New
    else if PresentBefore(f0, scans, n, k) then Unchanged
    else Reappeared
  }

  /** Exactly the keys stored at first or listed since are stored. */
  lemma {:induction false} ReplayKeys(f0: seq<Finding>, scans: seq<Rescan>, k: string)
    requires Fed(scans)
    ensures k in KeysOf(Replay(f0, scans)) <==> StoredBefore(f0, scans, |scans|, k)
  {
    if scans != [] {
      var n := |scans| - 1;
      var init, last := scans[..n], scans[n];
      ReplayKeys(f0, init, k);
      var fs := Replay(f0, init);
      ScanKeepsFindings(fs, last.items, last.ids);
      FreshMember(KeysOf(fs), Keys(last.items), |last.items|, k);
      StoredBeforePrefix(f0, scans, n, k);
      assert |Keys(last.items)| == |last.items|;
      assert k in Keys(last.items) <==> exists m :: 0 <= m < |last.items| && Keys(last.items)[m] == k;
    }
  }

  /** No scan of the history lists a key twice that is unknown to it. */
  ghost predicate NewOnce(f0: seq<Finding>, scans: seq<Rescan>)
    requires Fed(scans)
  {
    forall n :: 0 <= n < |scans| ==>
      FreshOnce(KeysOf(Replay(f0, scans[..n])), Keys(scans[n].items), |Keys(scans[n].items)|)
  }

  /** After any history each key is stored once exactly when it was so at first and no scan brought a new key
      twice. */
  lemma {:induction false} ReplayDistinctIff(f0: seq<Finding>, scans: seq<Rescan>)
    requires Fed(scans)
    ensures Distinct(KeysOf(Replay(f0, scans))) <==> Distinct(KeysOf(f0)) && NewOnce(f0, scans)
  {
    hide *;
    if scans == [] {
      ReplayNone(f0);
    } else {
      var n := |scans| - 1;
      FedPrefix(scans, n);
      ReplayDistinctIff(f0, scans[..n]);
      NewOnceStep(f0, scans);
      ReplayStep(f0, scans);
      DistinctAfterScanIff(Replay(f0, scans[..n]), scans[n].items, scans[n].ids);
    }
  }

  lemma FedPrefix(scans: seq<Rescan>, n: nat)
    requires n <= |scans| && Fed(scans)
    ensures Fed(scans[..n]) && (n < |scans| ==> |scans[n].items| <= |scans[n].ids|)
  {
  }

  lemma ReplayNone(f0: seq<Finding>)
    ensures Fed([]) && Replay(f0, []) == f0 && NewOnce(f0, [])
  {
  }

  lemma ReplayStep(f0: seq<Finding>, scans: seq<Rescan>)
    requires Fed(scans) && scans != []
    ensures var n := |scans| - 1; Replay(f0, scans) == AfterScan(Replay(f0, scans[..n]), scans[n].items, scans[n].ids)
  {
    hide AfterScan;
  }

  lemma NewOnceStep(f0: seq<Finding>, scans: seq<Rescan>)
    requires Fed(scans) && scans != []
    ensures var n, k := |scans| - 1, |Keys(scans[|scans| - 1].items)|;
            NewOnce(f0, scans) <==>
            NewOnce(f0, scans[..n]) && FreshOnce(KeysOf(Replay(f0, scans[..n])), Keys(scans[n].items), k)
  {
    hide Replay, KeysOf, Keys, FreshOnce;
    var n := |scans| - 1;
    assert forall m :: 0 <= m < n ==> scans[..n][m] == scans[m] && scans[..n][..m] == scans[..m];
  }

  lemma DistinctAfterScanIff(fs: seq<Finding>, items: seq<Item>, ids: seq<string>)
    requires |items| <= |ids|
    ensures Distinct(KeysOf(AfterScan(fs, items, ids))) <==>
            Distinct(KeysOf(fs)) && FreshOnce(KeysOf(fs), Keys(items), |Keys(items)|)
  {
    hide AfterScan, KeysOf, Keys, Distinct, Fresh, FreshOnce;
    assert |Keys(items)| == |items|;
    ScanKeepsFindings(fs, items, ids);
    DistinctConcat(KeysOf(fs), Fresh(KeysOf(fs), Keys(items), |items|));
    if Distinct(KeysOf(fs)) {
      StaysDistinctIff(fs, items, ids);
    }
  }

  lemma StoredBeforePrefix(f0: seq<Finding>, scans: seq<Rescan>, n: nat, k: string)
    requires n < |scans|
    ensures StoredBefore(f0, scans[..n], n, k) <==> StoredBefore(f0, scans, n, k)
    ensures StoredBefore(f0, scans, n + 1, k) <==> StoredBefore(f0, scans, n, k) || Listed(scans, n, k)
  {
    assert forall m :: 0 <= m < n ==> (Listed(scans[..n], m, k) <==> Listed(scans, m, k));
  }

  lemma DistinctNotShadowed(fs: seq<Finding>, i: nat)
    requires i < |fs| && Distinct(KeysOf(fs))
    ensures !Shadowed(fs, i)
  {
    var j := LastWith(fs, |fs|, KeyOf(fs[i]));
    assert j >= i;
    assert KeysOf(fs)[j] == KeysOf(fs)[i];
  }

  lemma {:induction false} DistinctOccursOnce(ks: seq<string>, k: string)
    requires Distinct(ks) && k in ks
    ensures Occurrences(ks, k) == 1
  {
    var n := |ks| - 1;
    if ks[n] == k {
      assert k !in ks[..n];
    } else {
      assert k in ks[..n];
      DistinctOccursOnce(ks[..n], k);
    }
  }

  lemma {:induction false} AddedState(fs: seq<Finding>, items: seq<Item>, ids: seq<string>, n: nat, j: nat)
    requires n <= |items| <= |ids| && j < |Added(fs, items, ids, n)|
    ensures Added(fs, items, ids, n)[j].state == New
  {
    hide Known, ItemKey, Discovered;
    if j < |Added(fs, items, ids, n - 1)| {
      AddedState(fs, items, ids, n - 1, j);
    }
  }

  /** The findings a scan adds are NEW, listed by it and unknown before. */
  lemma AddedAreNew(fs: seq<Finding>, items: seq<Item>, ids: seq<string>, j: nat)
    requires |items| <= |ids| && j < |Added(fs, items, ids, |items|)|
    ensures Added(fs, items, ids, |items|)[j].state == New
    ensures KeyOf(Added(fs, items, ids, |items|)[j]) in Keys(items)
    ensures KeyOf(Added(fs, items, ids, |items|)[j]) !in KeysOf(fs)
  {
    AddedState(fs, items, ids, |items|, j);
    AddedKeys(fs, items, ids, |items|);
    hide Added, KeyOf, Keys, Fresh;
    var k := KeysOf(Added(fs, items, ids, |items|))[j];
    assert |Keys(items)| == |items|;
    FreshMember(KeysOf(fs), Keys(items), |items|, k);
  }

  /** A hidden finding stays hidden, and a scan leaves it as it is. */
  lemma ShadowedStays(fs: seq<Finding>, items: seq<Item>, ids: seq<string>, i: nat)
    requires |items| <= |ids| && i < |fs| && Shadowed(fs, i)
    ensures Shadowed(AfterScan(fs, items, ids), i) && AfterScan(fs, items, ids)[i] == fs[i]
  {
    hide Added, Occurrences, Seen, Keys;
    ScanKeepsFindings(fs, items, ids);
    var r, j := AfterScan(fs, items, ids), LastWith(fs, |fs|, KeyOf(fs[i]));
    assert j > i by {
      assert KeyOf(fs[i]) == KeyOf(fs[j]);
    }
    assert KeyOf(r[j]) == KeyOf(r[i]);
    assert LastWith(r, |r|, KeyOf(r[i])) >= j;
  }

  /** A finding that another one with its key hides keeps its state through every sequence of scans. */
  lemma {:induction false} ShadowedForever(f0: seq<Finding>, scans: seq<Rescan>, i: nat)
    requires Fed(scans) && i < |f0| && Shadowed(f0, i)
    ensures i < |Replay(f0, scans)| && Shadowed(Replay(f0, scans), i) && Replay(f0, scans)[i] == f0[i]
  {
    hide Shadowed, AfterScan, Known, KeyOf, Keys;
    if scans != [] {
      var n := |scans| - 1;
      ShadowedForever(f0, scans[..n], i);
      ShadowedStays(Replay(f0, scans[..n]), scans[n].items, scans[n].ids, i);
      ScanKeepsFindings(Replay(f0, scans[..n]), scans[n].items, scans[n].ids);
    }
  }

  /** Just before the latest scan, a finding that none hides is marked as missing exactly when its key was absent. */
  lemma PresentIff(f0: seq<Finding>, scans: seq<Rescan>, i: nat)
    requires Fed(scans) && scans != []
    requires i < |Replay(f0, scans[..|scans| - 1])| && !Shadowed(Replay(f0, scans[..|scans| - 1]), i)
    ensures var fs := Replay(f0, scans[..|scans| - 1]);
            PresentBefore(f0, scans, |scans| - 1, KeyOf(fs[i])) <==> fs[i].state != NotObserved
  {
    var n := |scans| - 1;
    var fs := Replay(f0, scans[..n]);
    if n > 0 {
      assert scans[..n][..n - 1] == scans[..n - 1];
      PresentAfter(Replay(f0, scans[..n - 1]), scans[n - 1].items, scans[n - 1].ids, i);
    }
  }

  /** After a scan, a finding that none hides is marked as missing exactly when the scan did not list its key. */
  lemma PresentAfter(fs: seq<Finding>, items: seq<Item>, ids: seq<string>, i: nat)
    requires |items| <= |ids| && i < |AfterScan(fs, items, ids)| && !Shadowed(AfterScan(fs, items, ids), i)
    ensures var r := AfterScan(fs, items, ids); KeyOf(r[i]) in Keys(items) <==> r[i].state != NotObserved
  {
    ScanKeepsFindings(fs, items, ids);
    hide KeyOf, Keys, Shadowed;
    if i < |fs| {
      if Shadowed(fs, i) {
        ShadowedStays(fs, items, ids, i);
      }
      hide AfterScan, Added;
      StateKeepsKey(fs[i], StateAfter(fs, i, Keys(items)));
    } else {
      AddedAreNew(fs, items, ids, i - |fs|);
    }
  }

  lemma StateKeepsKey(f: Finding, s: Observation)
    ensures KeyOf(f.(state := s)) == KeyOf(f)
  {
  }

  /** Finding i was not hidden by another one when the latest scan started. */
  predicate Visible(f0: seq<Finding>, scans: seq<Rescan>, i: nat)
    requires Fed(scans) && scans != []
  {
    var fs := Replay(f0, scans[..|scans| - 1]);
    i >= |fs| || !Shadowed(fs, i)
  }

  /** The latest scan lists a stored key twice that was missing when it started. */
  ghost predicate ReturnsTwice(f0: seq<Finding>, scans: seq<Rescan>, k: string)
    requires scans != []
  {
    var n := |scans| - 1;
    StoredBefore(f0, scans, n, k) && !PresentBefore(f0, scans, n, k) && Occurrences(Keys(scans[n].items), k) >= 2
  }

  /** When the incrementally kept state is the one recomputed from the whole history.  After any sequence of scans,
      from any stored findings, every finding that was not hidden is NEW, UNCHANGED, REAPPEARED or NOT_OBSERVED
      according to the last two scans and to whether it was stored already, with one exception: a missing key that
      the latest scan lists twice. */
  lemma StateIsRecomputedIff(f0: seq<Finding>, scans: seq<Rescan>, i: nat)
    requires Fed(scans) && scans != []
    ensures i < |Replay(f0, scans)| && Visible(f0, scans, i) ==>
              (Replay(f0, scans)[i].state == StateOf(f0, scans, KeyOf(Replay(f0, scans)[i])) <==>
               !ReturnsTwice(f0, scans, KeyOf(Replay(f0, scans)[i])))
  {
    if i >= |Replay(f0, scans)| || !Visible(f0, scans, i) {
      return;
    }
    var n := |scans| - 1;
    var init, last := scans[..n], scans[n];
    var fs, ks := Replay(f0, init), Keys(last.items);
    var k := KeyOf(Replay(f0, scans)[i]);
    ReplayKeys(f0, init, k);
    StoredBeforePrefix(f0, scans, n, k);
    ScanKeepsFindings(fs, last.items, last.ids);
    hide Replay, StoredBefore, PresentBefore, Keys, KeyOf, Shadowed;
    if i < |fs| {
      StateKeepsKey(fs[i], StateAfter(fs, i, ks));
      assert KeysOf(fs)[i] == k;
      PresentIff(f0, scans, i);
    } else {
      AddedAreNew(fs, last.items, last.ids, i - |fs|);
    }
  }

  /** Scans that list no key twice, from findings with distinct keys, thus keep every state as recomputed. */
  lemma StateRefinesHistory(f0: seq<Finding>, scans: seq<Rescan>, i: nat)
    requires Fed(scans) && scans != []
    requires Distinct(KeysOf(f0)) && forall n :: 0 <= n < |scans| ==> Distinct(Keys(scans[n].items))
    ensures i < |Replay(f0, scans)| ==>
              Replay(f0, scans)[i].state == StateOf(f0, scans, KeyOf(Replay(f0, scans)[i]))
  {
    if i >= |Replay(f0, scans)| {
      return;
    }
    var n, init := |scans| - 1, scans[..|scans| - 1];
    var fs, ks := Replay(f0, init), Keys(scans[n].items);
    var k := KeyOf(Replay(f0, scans)[i]);
    hide Replay, StateOf, Keys;
    forall m | 0 <= m < |init|
      ensures FreshOnce(KeysOf(Replay(f0, init[..m])), Keys(init[m].items), |Keys(init[m].items)|)
    {
      assert Distinct(Keys(scans[m].items));
    }
    ReplayDistinctIff(f0, init);
    if i < |fs| {
      DistinctNotShadowed(fs, i);
    }
    if k in ks {
      DistinctOccursOnce(ks, k);
    }
    StateIsRecomputedIff(f0, scans, i);
  }

  /** Everything but the state of an initial finding survives every sequence of scans, in place. */
  lemma {:induction false} NothingElseChanges(f0: seq<Finding>, scans: seq<Rescan>, i: nat)
    requires Fed(scans)
    requires i < |f0|
    ensures i < |Replay(f0, scans)| && Replay(f0, scans)[i].(state := f0[i].state) == f0[i]
  {
    if scans != [] {
      NothingElseChanges(f0, scans[..|scans| - 1], i);
    }
  }

  /** A missing key that one scan lists twice does not show as reappeared. */
  lemma ListedTwiceHidesReappearance(f: Finding, a: Item, id: string)
    requires f.state == NotObserved && KeyOf(f) == ItemKey(a)
    ensures AfterScan([f], [a, a], [id, id])[0].state == Unchanged
    ensures AfterScan([f], [a], [id])[0].state == Reappeared
  {
    assert Keys([a, a]) == [ItemKey(a), ItemKey(a)] && Keys([a]) == [ItemKey(a)];
    assert LastWith([f], 1, KeyOf(f)) == 0;
    assert [ItemKey(a), ItemKey(a)][..1] == [ItemKey(a)];
    assert [ItemKey(a)][..0] == [];
    assert Occurrences([ItemKey(a)], ItemKey(a)) == 1;
    assert Occurrences([ItemKey(a), ItemKey(a)], ItemKey(a)) == 2;
  }
}
