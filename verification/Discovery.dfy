/** Cross-provider deduplication: one pass with three dictionaries that merges records in place. */
module Discovery {
  import opened CanonicalUrl
  import opened Grouping
  import opened Sequences

  /** What one provider reported about a page, apart from the URLs and the title. */
  datatype Provenance = Provenance(position: int, resultId: string, resultType: string, metadata: map<string, string>)

  /** What a merged record keeps per provider.  With `sharesProviders`, the raw metadata kept there also holds the
      record's own list of providers, by reference, so that it shows every provider added later. */
  datatype Source = Source(provenance: Provenance, sharesProviders: bool)

  /** A result as a provider delivered it.  An absent title is "". */
  datatype Sighting = Sighting(provider: string, resultUrl: RawUrl, imageUrl: RawUrl,
                               title: string, pageTitle: string, domain: string, score: real,
                               provenance: Provenance)

  /** The mutable part of a surviving record. */
  datatype Merged = Merged(title: string, pageTitle: string, imageUrl: RawUrl,
                           providers: seq<string>, sources: map<string, Source>)

  function AliasesOf(items: seq<Sighting>): (xs: seq<Aliases>)
    ensures |xs| == |items|
  {
    seq(|items|, i requires 0 <= i < |items| =>
      Aliases(Canonicalize(items[i].resultUrl), Canonicalize(items[i].imageUrl)))
  }

  function Opening(s: Sighting): (m: Merged) {
    Merged(s.title, s.pageTitle, s.imageUrl, [s.provider], map[s.provider := Source(s.provenance, true)])
  }

  function Absorb(m: Merged, s: Sighting): (r: Merged) {
    var retitled := m.title == "" && s.title != "";
    Merged(if retitled then s.title else m.title,
           if retitled then s.title else m.pageTitle,
           if m.imageUrl.Missing? then s.imageUrl else m.imageUrl,
           if s.provider in m.providers then m.providers else m.providers + [s.provider],
           m.sources[s.provider := Source(s.provenance, false)])
  }

  /** The record of group h after the first n results, where led[i] is the head of result i. */
  function MergedUpTo(items: seq<Sighting>, led: seq<nat>, h: nat, n: nat): (m: Merged)
    requires h < n <= |items| == |led|
  {
    if n == h + 1 then Opening(items[h])
    else if led[n - 1] == h then Absorb(MergedUpTo(items, led, h, n - 1), items[n - 1])
    else MergedUpTo(items, led, h, n - 1)
  }

  // ---- What a merged record means ----

  ghost predicate Led(items: seq<Sighting>, led: seq<nat>, h: nat, n: nat) {
    h < n <= |items| == |led| && led[h] == h && forall i :: 0 <= i < |led| ==> led[i] <= i
  }

  ghost predicate ReportedBy(items: seq<Sighting>, led: seq<nat>, h: nat, n: nat, p: string)
    requires n <= |items| == |led|
  {
    exists i :: 0 <= i < n && led[i] == h && items[i].provider == p
  }

  /** The record lists exactly the providers of its group, each once. */
  lemma {:induction false} ProvidersMeaning(items: seq<Sighting>, led: seq<nat>, h: nat, n: nat)
    requires Led(items, led, h, n)
    ensures Distinct(MergedUpTo(items, led, h, n).providers)
    ensures forall p :: p in MergedUpTo(items, led, h, n).providers <==> ReportedBy(items, led, h, n, p)
  {
    if n == h + 1 {
      assert led[h] == h;
    } else {
      ProvidersMeaning(items, led, h, n - 1);
      forall p ensures ReportedBy(items, led, h, n, p) <==>
                       ReportedBy(items, led, h, n - 1, p) || (led[n - 1] == h && items[n - 1].provider == p)
      {
      }
    }
  }

  /** Providers appear in the order in which they first reported the group. */
  lemma {:induction false} ProvidersInArrivalOrder(items: seq<Sighting>, led: seq<nat>, h: nat, n: nat, a: nat)
    requires Led(items, led, h, n)
    requires a < |MergedUpTo(items, led, h, n).providers|
    ensures var ps := MergedUpTo(items, led, h, n).providers;
            exists i :: 0 <= i < n && led[i] == h && items[i].provider == ps[a] &&
                        forall k :: 0 <= k < i && led[k] == h ==> items[k].provider in ps[..a]
  {
    var ps := MergedUpTo(items, led, h, n).providers;
    if n == h + 1 {
      assert led[h] == h;
    } else {
      var qs := MergedUpTo(items, led, h, n - 1).providers;
      if a < |qs| {
        ProvidersInArrivalOrder(items, led, h, n - 1, a);
        assert ps[..a] == qs[..a];
      } else {
        ProvidersMeaning(items, led, h, n - 1);
        assert led[n - 1] == h && ps == qs + [items[n - 1].provider];
        assert ps[..a] == qs;
        forall k | 0 <= k < n - 1 && led[k] == h ensures items[k].provider in ps[..a] {
          assert ReportedBy(items, led, h, n - 1, items[k].provider);
        }
      }
    }
  }

  /** Per provider the record keeps what that provider's latest member said; only the head's own entry shares the
      list of providers. */
  lemma {:induction false} SourcesMeaning(items: seq<Sighting>, led: seq<nat>, h: nat, n: nat, i: nat)
    requires Led(items, led, h, n)
    requires i < n && led[i] == h
    requires forall k :: i < k < n && led[k] == h ==> items[k].provider != items[i].provider
    ensures var m := MergedUpTo(items, led, h, n);
            items[i].provider in m.sources && m.sources[items[i].provider] == Source(items[i].provenance, i == h)
  {
    if i < n - 1 {
      SourcesMeaning(items, led, h, n - 1, i);
    }
  }

  lemma {:induction false} SourcesHaveProviderKeys(items: seq<Sighting>, led: seq<nat>, h: nat, n: nat)
    requires Led(items, led, h, n)
    ensures forall p :: p in MergedUpTo(items, led, h, n).sources <==> p in MergedUpTo(items, led, h, n).providers
  {
    if n > h + 1 {
      SourcesHaveProviderKeys(items, led, h, n - 1);
    }
  }

  /** The title is that of the first member that has one. */
  lemma {:induction false} TitleMeaning(items: seq<Sighting>, led: seq<nat>, h: nat, n: nat)
    requires Led(items, led, h, n)
    ensures var t := MergedUpTo(items, led, h, n).title;
            if t == "" then forall i :: 0 <= i < n && led[i] == h ==> items[i].title == ""
            else exists i :: 0 <= i < n && led[i] == h && items[i].title == t &&
                             forall k :: 0 <= k < i && led[k] == h ==> items[k].title == ""
  {
    if n == h + 1 {
      assert led[h] == h;
    } else {
      TitleMeaning(items, led, h, n - 1);
    }
  }

  /** The page title is the head's own unless the title had to be taken from a later member, which then supplies
      both. */
  lemma {:induction false} PageTitleMeaning(items: seq<Sighting>, led: seq<nat>, h: nat, n: nat)
    requires Led(items, led, h, n)
    ensures var m := MergedUpTo(items, led, h, n);
            m.pageTitle == if items[h].title != "" || m.title == "" then items[h].pageTitle else m.title
    ensures items[h].title != "" ==> MergedUpTo(items, led, h, n).title == items[h].title
  {
    if n > h + 1 {
      PageTitleMeaning(items, led, h, n - 1);
    }
  }

  /** The image URL is that of the first member that has one. */
  lemma {:induction false} ImageMeaning(items: seq<Sighting>, led: seq<nat>, h: nat, n: nat)
    requires Led(items, led, h, n)
    ensures var u := MergedUpTo(items, led, h, n).imageUrl;
            if u.Missing? then forall i :: 0 <= i < n && led[i] == h ==> items[i].imageUrl.Missing?
            else exists i :: 0 <= i < n && led[i] == h && items[i].imageUrl == u &&
                             forall k :: 0 <= k < i && led[k] == h ==> items[k].imageUrl.Missing?
  {
    if n == h + 1 {
      assert led[h] == h;
    } else {
      ImageMeaning(items, led, h, n - 1);
    }
  }

  // ---- The records and the pass over them ----

  class DiscoveryRecord {
    const provider: string
    const resultUrl: RawUrl
    const domain: string
    const score: real
    const provenance: Provenance
    var title: string
    var pageTitle: string
    var imageUrl: RawUrl
    var providers: seq<string>
    var sources: map<string, Source>

    constructor (s: Sighting)
      ensures Delivered() == s
    {
      provider, resultUrl, provenance := s.provider, s.resultUrl, s.provenance;
      domain, score := s.domain, s.score;
      title, pageTitle, imageUrl := s.title, s.pageTitle, s.imageUrl;
      providers, sources := [], map[];
    }

    function Delivered(): (s: Sighting)
      reads this
    {
      Sighting(provider, resultUrl, imageUrl, title, pageTitle, domain, score, provenance)
    }

    function View(): (m: Merged)
      reads this
    {
      Merged(title, pageTitle, imageUrl, providers, sources)
    }

    method Open()
      modifies this
      ensures View() == Opening(old(Delivered()))
    {
      providers := [provider];
      sources := map[provider := Source(provenance, true)];
    }

    method MergeIn(res: DiscoveryRecord)
      requires res != this
      modifies this
      ensures View() == Absorb(old(View()), res.Delivered())
    {
      if res.provider !in providers {
        providers := providers + [res.provider];
      }
      sources := sources[res.provider := Source(res.provenance, false)];
      if title == "" && res.title != "" {
        title := res.title;
        pageTitle := res.title;
      }
      if imageUrl.Missing? && !res.imageUrl.Missing? {
        imageUrl := res.imageUrl;
      }
    }
  }

  ghost function DeliveredAll(results: seq<DiscoveryRecord>): (items: seq<Sighting>)
    reads results
    ensures |items| == |results|
    ensures forall i :: 0 <= i < |results| ==> items[i] == results[i].Delivered()
  {
    seq(|results|, i requires 0 <= i < |results| reads results => results[i].Delivered())
  }

  /** The record of every head holds what the results it received up to n contributed. */
  ghost predicate GroupsMerged(results: seq<DiscoveryRecord>, items: seq<Sighting>, xs: seq<Aliases>, n: nat)
    requires n <= |results| == |items| == |xs|
    reads results
  {
    forall h {:trigger MergedUpTo(items, Receivers(xs), h, n)} ::
      0 <= h < n && IsHead(xs, h) ==> results[h].View() == MergedUpTo(items, Receivers(xs), h, n)
  }

  /** out lists, key by key, the record stored last under it. */
  ghost predicate ListsStored(out: seq<DiscoveryRecord>, results: seq<DiscoveryRecord>, xs: seq<Aliases>)
    requires |results| == |xs|
  {
    && |out| == |Keys(xs, |xs|)|
    && forall k :: 0 <= k < |out| ==> out[k] == results[Owner(xs, |xs|, Keys(xs, |xs|)[k])]
  }

  /** out lists one record per group, in arrival order of the heads. */
  ghost predicate ListsHeads(out: seq<DiscoveryRecord>, results: seq<DiscoveryRecord>, xs: seq<Aliases>)
    requires |results| == |xs|
  {
    && |out| == |Heads(xs, |xs|)|
    && forall k :: 0 <= k < |out| ==> out[k] == results[Heads(xs, |xs|)[k]]
  }

  /** The three dictionaries, with the insertion order of the first. */
  datatype Tables = Tables(order: seq<Key>, deduped: map<Key, DiscoveryRecord>,
                           urlToKey: map<Canon, Key>, imgToKey: map<Canon, Key>)
  {
    function Lookup(a: Aliases): (k: Key)
      requires a.url in urlToKey || a.img in imgToKey
    {
      if a.url in urlToKey then urlToKey[a.url] else imgToKey[a.img]
    }

    function Store(key: Key, res: DiscoveryRecord): (t: Tables) {
      Tables(if key in order then order else order + [key], deduped[key := res], urlToKey, imgToKey)
    }

    function Remember(key: Key, a: Aliases): (t: Tables) {
      Tables(order, deduped,
             if a.url == NoUrl then urlToKey else urlToKey[a.url := key],
             if a.img == NoUrl then imgToKey else imgToKey[a.img := key])
    }
  }

  /** The record dictionary after n results: its keys in insertion order and the record under each. */
  ghost predicate Stored(t: Tables, results: seq<DiscoveryRecord>, xs: seq<Aliases>, n: nat)
    requires n <= |results| == |xs|
  {
    && t.order == Keys(xs, n)
    && (forall k :: k in t.deduped <==> k in t.order)
    && forall k :: k in t.order ==> t.deduped[k] == results[Owner(xs, n, k)]
  }

  ghost predicate Consistent(t: Tables, results: seq<DiscoveryRecord>, xs: seq<Aliases>, n: nat)
    requires n <= |results| == |xs|
  {
    Stored(t, results, xs, n) && UrlIndex(xs, n, t.urlToKey) && ImgIndex(xs, n, t.imgToKey)
  }

  lemma StoredJoin(t: Tables, results: seq<DiscoveryRecord>, xs: seq<Aliases>, n: nat)
    requires n < |results| == |xs| && Stored(t, results, xs, n) && !IsHead(xs, n)
    ensures Stored(t, results, xs, n + 1)
    ensures KeyOf(xs, Leader(xs, n)) in Keys(xs, n)
  {
    LeaderIsHead(xs, n);
    HeadKeyStored(xs, n, Leader(xs, n));
  }

  /** A result found by one of its URLs: its key is that of its group, and the record there is the owner's. */
  lemma JoinStep(t: Tables, results: seq<DiscoveryRecord>, xs: seq<Aliases>, n: nat)
    requires n < |results| == |xs| && Consistent(t, results, xs, n)
    requires xs[n].url in t.urlToKey || xs[n].img in t.imgToKey
    ensures var key := KeyOf(xs, Leader(xs, n));
            && !IsHead(xs, n) && t.Lookup(xs[n]) == key && key in Keys(xs, n) && key in t.deduped
            && t.deduped[key] == results[Owner(xs, n, key)]
            && Consistent(t.Remember(key, xs[n]), results, xs, n + 1)
  {
    hide UrlIndex, ImgIndex, Owner, Keys, Leader, LastUrl, LastImg, Match;
    IndexLookup(xs, n, t.urlToKey, t.imgToKey);
    UrlIndexStep(xs, n, t.urlToKey);
    ImgIndexStep(xs, n, t.imgToKey);
    StoredJoin(t, results, xs, n);
  }

  lemma StoredOpen(t: Tables, results: seq<DiscoveryRecord>, xs: seq<Aliases>, n: nat)
    requires n < |results| == |xs| && Stored(t, results, xs, n) && IsHead(xs, n)
    ensures Stored(t.Store(KeyOf(xs, n), results[n]), results, xs, n + 1)
  {
  }

  /** A result found by neither URL opens a group under a fresh key. */
  lemma OpenStep(t: Tables, results: seq<DiscoveryRecord>, xs: seq<Aliases>, n: nat)
    requires n < |results| == |xs| && Consistent(t, results, xs, n)
    requires xs[n].url !in t.urlToKey && xs[n].img !in t.imgToKey
    ensures var key := FreshKey(xs[n], |t.order|);
            IsHead(xs, n) && Consistent(t.Store(key, results[n]).Remember(key, xs[n]), results, xs, n + 1)
  {
    hide UrlIndex, ImgIndex, Owner, Keys, Leader, LastUrl, LastImg, Match;
    IndexLookup(xs, n, t.urlToKey, t.imgToKey);
    UrlIndexStep(xs, n, t.urlToKey);
    ImgIndexStep(xs, n, t.imgToKey);
    LeaderIsHead(xs, n);
    StoredOpen(t, results, xs, n);
  }

  /** The results from n on are as they were delivered. */
  ghost predicate Untouched(results: seq<DiscoveryRecord>, items: seq<Sighting>, n: nat)
    requires |results| == |items|
    reads results
  {
    forall i :: n <= i < |results| ==> results[i].Delivered() == items[i]
  }

  /** Result n is taken in by the record `existing`. */
  method Join(existing: DiscoveryRecord, res: DiscoveryRecord, ghost results: seq<DiscoveryRecord>,
              ghost items: seq<Sighting>, ghost xs: seq<Aliases>, ghost n: nat)
    requires n < |results| == |items| == |xs| && res == results[n] && !IsHead(xs, n)
    requires forall i, j :: 0 <= i < j < |results| ==> results[i] != results[j]
    requires existing == results[Receiver(xs, n)] && Receiver(xs, n) < n
    requires Untouched(results, items, n) && GroupsMerged(results, items, xs, n)
    modifies existing
    ensures Untouched(results, items, n + 1) && GroupsMerged(results, items, xs, n + 1)
  {
    hide Receiver, IsHead;
    assert res.Delivered() == items[n];
    existing.MergeIn(res);
    forall h | 0 <= h < n + 1 && IsHead(xs, h)
      ensures results[h].View() == MergedUpTo(items, Receivers(xs), h, n + 1)
    {
      assert old(results[h].View()) == MergedUpTo(items, Receivers(xs), h, n);
      if h != Receiver(xs, n) {
        assert results[h] != existing;
      }
    }
  }

  /** Result n opens a group of its own. */
  method Begin(res: DiscoveryRecord, ghost results: seq<DiscoveryRecord>,
               ghost items: seq<Sighting>, ghost xs: seq<Aliases>, ghost n: nat)
    requires n < |results| == |items| == |xs| && res == results[n] && IsHead(xs, n)
    requires forall i, j :: 0 <= i < j < |results| ==> results[i] != results[j]
    requires Untouched(results, items, n) && GroupsMerged(results, items, xs, n)
    modifies res
    ensures Untouched(results, items, n + 1) && GroupsMerged(results, items, xs, n + 1)
  {
    assert Receivers(xs)[n] == n;
    hide Receiver, IsHead;
    res.Open();
    forall h | 0 <= h < n && IsHead(xs, h)
      ensures results[h].View() == MergedUpTo(items, Receivers(xs), h, n + 1)
    {
      assert old(results[h].View()) == MergedUpTo(items, Receivers(xs), h, n);
    }
  }

  lemma ReceiverOf(xs: seq<Aliases>, n: nat)
    requires n < |xs| && !IsHead(xs, n) && KeyOf(xs, Leader(xs, n)) in Keys(xs, n)
    ensures Receiver(xs, n) == Owner(xs, n, KeyOf(xs, Leader(xs, n))) < n
  {
  }

  /** One turn of the loop. */
  method Place(res: DiscoveryRecord, t: Tables, ghost results: seq<DiscoveryRecord>,
               ghost items: seq<Sighting>, ghost xs: seq<Aliases>, ghost n: nat) returns (t': Tables)
    requires n < |results| == |items| && res == results[n] && xs == AliasesOf(items)
    requires forall i, j :: 0 <= i < j < |results| ==> results[i] != results[j]
    requires Consistent(t, results, xs, n)
    requires Untouched(results, items, n) && GroupsMerged(results, items, xs, n)
    modifies results
    ensures Consistent(t', results, xs, n + 1)
    ensures Untouched(results, items, n + 1) && GroupsMerged(results, items, xs, n + 1)
  {
    var a := Aliases(Canonicalize(res.resultUrl), Canonicalize(res.imageUrl));
    assert xs[n] == a;
    if a.url in t.urlToKey || a.img in t.imgToKey {
      JoinStep(t, results, xs, n);
      var key := t.Lookup(a);
      var existing := t.deduped[key];
      assert existing in results;
      ReceiverOf(xs, n);
      Join(existing, res, results, items, xs, n);
      t' := t.Remember(key, a);
    } else {
      OpenStep(t, results, xs, n);
      var key := FreshKey(a, |t.order|);
      Begin(res, results, items, xs, n);
      t' := t.Store(key, res).Remember(key, a);
    }
  }

  /** The records returned are those still stored, each merged from the results it received; without a collision
      that is one record per group, in arrival order, each merged from its whole group. */
  method Deduplicate(results: seq<DiscoveryRecord>) returns (out: seq<DiscoveryRecord>)
    requires forall i, j :: 0 <= i < j < |results| ==> results[i] != results[j]
    modifies results
    ensures ListsStored(out, results, AliasesOf(old(DeliveredAll(results))))
    ensures NoCollision(AliasesOf(old(DeliveredAll(results))), |results|) ==>
              ListsHeads(out, results, AliasesOf(old(DeliveredAll(results))))
    ensures GroupsMerged(results, old(DeliveredAll(results)), AliasesOf(old(DeliveredAll(results))), |results|)
  {
    hide Owner, Leader, LastUrl, LastImg, Match, Heads, MergedUpTo, Receiver;
    ghost var items := DeliveredAll(results);
    ghost var xs := AliasesOf(items);
    var t := Tables([], map[], map[], map[]);
    for n := 0 to |results|
      invariant Consistent(t, results, xs, n)
      invariant Untouched(results, items, n) && GroupsMerged(results, items, xs, n)
    {
      t := Place(results[n], t, results, items, xs, n);
    }
    out := seq(|t.order|, k requires 0 <= k < |t.order| => t.deduped[t.order[k]]);
    if NoCollision(xs, |xs|) {
      KeysFollowHeads(xs, |xs|);
    }
  }

  /** Results whose parsed page URLs canonicalise alike end up in one group. */
  lemma SameCanonSameGroup(items: seq<Sighting>, i: nat, j: nat)
    requires i < |items| && j < |items|
    requires items[i].resultUrl.Parsed? && items[j].resultUrl.Parsed?
    requires Canonicalize(items[i].resultUrl) == Canonicalize(items[j].resultUrl)
    ensures Leader(AliasesOf(items), i) == Leader(AliasesOf(items), j)
  {
    var xs := AliasesOf(items);
    if i <= j {
      SameUrlSameGroup(xs, i, j);
    } else {
      SameUrlSameGroup(xs, j, i);
    }
  }

  /** In particular, results whose page URLs differ by an inserted tracking parameter do. */
  lemma TrackingSameGroup(items: seq<Sighting>, i: nat, j: nat, at: nat, k: string, v: string)
    requires i < |items| && j < |items|
    requires items[i].resultUrl.Parsed? && items[j].resultUrl.Parsed?
    requires at <= |items[i].resultUrl.parts.query|
    requires var u := items[i].resultUrl.parts;
             items[j].resultUrl.parts == u.(query := u.query[..at] + [(k, v)] + u.query[at..])
    requires NamesTracker(k)
    ensures Leader(AliasesOf(items), i) == Leader(AliasesOf(items), j)
  {
    InsertedPairIff(items[i].resultUrl.text, items[i].resultUrl.parts, items[j].resultUrl.text, at, k, v);
    SameCanonSameGroup(items, i, j);
  }
}
