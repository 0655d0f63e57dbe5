/** The in-memory vector store: tenant-tagged upserts and filtered top-k search. */
module VectorStore {
  import opened Rounding
  import opened Sequences

  type Payload = map<string, string>

  datatype Entry = Entry(vector: seq<real>, payload: Payload)

  datatype Hit = Hit(id: string, score: real, payload: Payload)

  /** str(payload.get(key)) */
  function Tag(p: Payload, key: string): (s: string) { if key in p then p[key] else "None" }

  /** The payload carries the value under the key; an absent key reads as "None". */
  predicate Tagged(p: Payload, key: string, value: string) {
    if key in p then p[key] == value else value == "None"
  }

  /** The tags of an image vector; metadata given with the upsert is applied last. */
  function ImagePayload(investigation: string, org: string, ref: string, metadata: Payload): (p: Payload) {
    map["investigation_id" := investigation, "org_id" := org, "organization_id" := org,
        "reference_image_id" := ref] + metadata
  }

  /** The tags of a face vector; a tag that is None is absent, and "" stands for an absent id. */
  function FacePayload(org: string, dataset: string, participant: string, image: string, metadata: Payload)
    : (p: Payload)
  {
    map["organization_id" := org]
    + (if dataset == "" then map[] else map["dataset_id" := dataset])
    + (if participant == "" then map[] else map["participant_id" := participant, "identity_id" := participant])
    + (if image == "" then map[] else map["image_id" := image])
    + metadata
  }

  /** A key of the metadata keeps its value; otherwise an image vector carries its four tags and nothing else. */
  lemma ImageTags(investigation: string, org: string, ref: string, metadata: Payload, k: string)
    ensures var p := ImagePayload(investigation, org, ref, metadata);
            && (k in metadata ==> Tagged(p, k, metadata[k]))
            && (k !in metadata ==>
                  && (k == "investigation_id" ==> Tagged(p, k, investigation))
                  && (k == "org_id" || k == "organization_id" ==> Tagged(p, k, org))
                  && (k == "reference_image_id" ==> Tagged(p, k, ref))
                  && (k in p ==> k in ["investigation_id", "org_id", "organization_id", "reference_image_id"]))
  {
  }

  /** The same for a face vector, where an id that is not given leaves its tags absent. */
  lemma FaceTags(org: string, dataset: string, participant: string, image: string, metadata: Payload, k: string)
    ensures var p := FacePayload(org, dataset, participant, image, metadata);
            && (k in metadata ==> Tagged(p, k, metadata[k]))
            && (k !in metadata ==>
                  && (k == "organization_id" ==> Tagged(p, k, org))
                  && (k == "dataset_id" && dataset != "" ==> Tagged(p, k, dataset))
                  && (k == "participant_id" || k == "identity_id" ==> participant != "" ==> Tagged(p, k, participant))
                  && (k == "image_id" && image != "" ==> Tagged(p, k, image)))
  {
  }

  lemma FaceTagsAbsent(org: string, dataset: string, participant: string, image: string, metadata: Payload, k: string)
    requires k in FacePayload(org, dataset, participant, image, metadata) && k !in metadata
    ensures k in ["organization_id", "dataset_id", "participant_id", "identity_id", "image_id"]
    ensures k == "dataset_id" ==> dataset != ""
    ensures k == "participant_id" || k == "identity_id" ==> participant != ""
    ensures k == "image_id" ==> image != ""
  {
  }

  predicate ImageVisible(e: Entry, org: string) {
    Tag(e.payload, "org_id") == org || Tag(e.payload, "organization_id") == org
  }

  /** dataset is "" when no data set is asked for. */
  predicate FaceVisible(e: Entry, org: string, dataset: string) {
    && Tag(e.payload, "organization_id") == org
    && (dataset == "" || ("dataset_id" in e.payload && e.payload["dataset_id"] != "" &&
                          e.payload["dataset_id"] == dataset))
  }

  // ---- The sort ----

  ghost predicate Descending(s: seq<Hit>) {
    forall i, j :: 0 <= i < j < |s| ==> s[i].score >= s[j].score
  }

  /** Puts h behind all hits that score at least as much. */
  function InsertHit(s: seq<Hit>, h: Hit): (r: seq<Hit>)
    ensures multiset(r) == multiset(s) + multiset{h}
  {
    if s == [] || s[|s| - 1].score >= h.score then s + [h]
    else
      assert s == s[..|s| - 1] + [s[|s| - 1]];
      InsertHit(s[..|s| - 1], h) + [s[|s| - 1]]
  }

  /** list.sort(key=score, reverse=True): stable. */
  function SortHits(s: seq<Hit>): (r: seq<Hit>)
    ensures multiset(r) == multiset(s) && |r| == |s|
  {
    if s == [] then []
    else
      assert s == s[..|s| - 1] + [s[|s| - 1]];
      var r := InsertHit(SortHits(s[..|s| - 1]), s[|s| - 1]);
      assert |multiset(r)| == |multiset(s)|;
      r
  }

  lemma {:induction false} InsertDescending(s: seq<Hit>, h: Hit)
    requires Descending(s)
    ensures Descending(InsertHit(s, h))
  {
    if s != [] && s[|s| - 1].score < h.score {
      var init, last := s[..|s| - 1], s[|s| - 1];
      InsertDescending(init, h);
      var r := InsertHit(init, h);
      forall i | 0 <= i < |r| ensures r[i].score >= last.score {
        assert r[i] in multiset(r);
        assert r[i] == h || r[i] in multiset(init);
      }
    }
  }

  lemma {:induction false} SortDescending(s: seq<Hit>)
    ensures Descending(SortHits(s))
  {
    if s != [] {
      SortDescending(s[..|s| - 1]);
      InsertDescending(SortHits(s[..|s| - 1]), s[|s| - 1]);
    }
  }

  /** The hits with score c, in order. */
  function WithScore(s: seq<Hit>, c: real): (r: seq<Hit>) {
    if s == [] then []
    else if s[|s| - 1].score == c then WithScore(s[..|s| - 1], c) + [s[|s| - 1]]
    else WithScore(s[..|s| - 1], c)
  }

  lemma WithScoreSnoc(s: seq<Hit>, h: Hit, c: real)
    ensures WithScore(s + [h], c) == if h.score == c then WithScore(s, c) + [h] else WithScore(s, c)
  {
    assert (s + [h])[..|s|] == s;
  }

  lemma {:induction false} InsertStable(s: seq<Hit>, h: Hit, c: real)
    requires Descending(s)
    ensures WithScore(InsertHit(s, h), c) == WithScore(s + [h], c)
  {
    WithScoreSnoc(s, h, c);
    if s != [] && s[|s| - 1].score < h.score {
      var init, last := s[..|s| - 1], s[|s| - 1];
      assert s == init + [last];
      InsertStable(init, h, c);
      WithScoreSnoc(init, h, c);
      WithScoreSnoc(InsertHit(init, h), last, c);
      WithScoreSnoc(init, last, c);
      if last.score == c {
        NoneAbove(init, h, c);
      }
    }
  }

  lemma NoneAbove(init: seq<Hit>, h: Hit, c: real)
    requires h.score > c
    ensures WithScore(init + [h], c) == WithScore(init, c)
  {
    WithScoreSnoc(init, h, c);
  }

  lemma SortSnoc(s: seq<Hit>, h: Hit)
    ensures SortHits(s + [h]) == InsertHit(SortHits(s), h)
  {
    assert (s + [h])[..|s|] == s;
  }

  lemma SortEmpty(c: real)
    ensures SortHits([]) == [] && WithScore([], c) == []
  {
  }

  /** Hits with equal scores keep the order in which they were found. */
  lemma {:induction false} SortStable(s: seq<Hit>, c: real)
    ensures WithScore(SortHits(s), c) == WithScore(s, c)
  {
    hide *;
    if s == [] {
      SortEmpty(c);
    } else {
      var init, last := s[..|s| - 1], s[|s| - 1];
      assert s == init + [last];
      SortStable(init, c);
      SortDescending(init);
      SortSnoc(init, last);
      InsertStable(SortHits(init), last, c);
      WithScoreSnoc(SortHits(init), last, c);
      WithScoreSnoc(init, last, c);
    }
  }

  // ---- Search ----

  /** The hits among the first n stored vectors: visible ones whose similarity reaches the threshold. */
  function Found(order: seq<string>, items: map<string, Entry>, visible: Entry -> bool,
                 sim: seq<real> -> real, threshold: real, n: nat): (r: seq<Hit>)
    requires n <= |order| && forall id :: id in order ==> id in items
  {
    if n == 0 then []
    else
      var e := items[order[n - 1]];
      var prev := Found(order, items, visible, sim, threshold, n - 1);
      if visible(e) && sim(e.vector) >= threshold
      then prev + [Hit(order[n - 1], Round4(sim(e.vector)), e.payload)]
      else prev
  }

  /** Python's hits[:limit]. */
  function Cut(s: seq<Hit>, limit: int): (r: seq<Hit>)
    ensures r <= s
    ensures limit >= 0 ==> |r| == if limit < |s| then limit else |s|
    ensures limit < 0 ==> |r| == if |s| + limit < 0 then 0 else |s| + limit
  {
    if limit >= |s| then s else if limit >= 0 then s[..limit] else if |s| + limit > 0 then s[..|s| + limit] else []
  }

  /** One of the two fallback stores, a dictionary in insertion order. */
  class MemoryStore {
    var order: seq<string>
    var items: map<string, Entry>

    constructor ()
      ensures Valid() && order == []
    {
      order, items := [], map[];
    }

    ghost predicate Valid()
      reads this
    {
      Distinct(order) && forall id :: id in order <==> id in items
    }

    method Put(id: string, e: Entry)
      requires Valid()
      modifies this
      ensures Valid()
      ensures items == old(items)[id := e]
      ensures order == if id in old(items) then old(order) else old(order) + [id]
    {
      if id !in items {
        DistinctConcat(order, [id]);
        order := order + [id];
      }
      items := items[id := e];
    }

    /** The search loop, sort and cut shared by both collections. */
    method Search(visible: Entry -> bool, sim: seq<real> -> real, limit: int, threshold: real)
      returns (hits: seq<Hit>)
      requires Valid()
      ensures hits == Cut(SortHits(Found(order, items, visible, sim, threshold, |order|)), limit)
    {
      var results: seq<Hit> := [];
      for n := 0 to |order|
        invariant results == Found(order, items, visible, sim, threshold, n)
      {
        assert order[n] in order;
        var e := items[order[n]];
        if visible(e) {
          var s := sim(e.vector);
          if s >= threshold {
            results := results + [Hit(order[n], Round4(s), e.payload)];
          }
        }
      }
      results := SortHits(results);
      hits := Cut(results, limit);
    }

    method UpsertImage(id: string, vector: seq<real>, investigation: string, org: string, ref: string,
                       metadata: Payload)
      requires Valid()
      modifies this
      ensures Valid()
      ensures items == old(items)[id := Entry(vector, ImagePayload(investigation, org, ref, metadata))]
    {
      Put(id, Entry(vector, ImagePayload(investigation, org, ref, metadata)));
    }

    method UpsertFace(id: string, vector: seq<real>, org: string, dataset: string, participant: string, image: string,
                      metadata: Payload)
      requires Valid()
      modifies this
      ensures Valid()
      ensures items == old(items)[id := Entry(vector, FacePayload(org, dataset, participant, image, metadata))]
    {
      Put(id, Entry(vector, FacePayload(org, dataset, participant, image, metadata)));
    }

    /** Only vectors tagged for the organisation under one of the two keys come back, and with room for all of them
        every such vector that reaches the threshold. */
    method SearchSimilar(sim: seq<real> -> real, org: string, limit: int, threshold: real)
      returns (hits: seq<Hit>)
      requires Valid()
      ensures TopK(order, items, (e: Entry) => ImageVisible(e, org), sim, threshold, limit, hits)
      ensures forall h :: h in hits ==>
                && h.id in items && h.payload == items[h.id].payload && sim(items[h.id].vector) >= threshold
                && (Tagged(h.payload, "org_id", org) || Tagged(h.payload, "organization_id", org))
      ensures limit >= |items| ==>
                forall id :: (&& id in items && sim(items[id].vector) >= threshold
                              && (|| Tagged(items[id].payload, "org_id", org)
                                  || Tagged(items[id].payload, "organization_id", org))) ==> Returned(hits, id)
    {
      hits := Search((e: Entry) => ImageVisible(e, org), sim, limit, threshold);
      SearchIsTopK(order, items, (e: Entry) => ImageVisible(e, org), sim, threshold, limit);
      ImageHits(order, items, sim, org, threshold, limit, hits);
    }

    /** Only faces tagged for the organisation, and for the data set if one is named, come back, and with room for all
        of them every such face that reaches the threshold. */
    method SearchSimilarFaces(sim: seq<real> -> real, org: string, dataset: string, limit: int, threshold: real)
      returns (hits: seq<Hit>)
      requires Valid()
      ensures TopK(order, items, (e: Entry) => FaceVisible(e, org, dataset), sim, threshold, limit, hits)
      ensures forall h :: h in hits ==>
                && h.id in items && h.payload == items[h.id].payload && sim(items[h.id].vector) >= threshold
                && Tagged(h.payload, "organization_id", org)
                && (dataset != "" ==> "dataset_id" in h.payload && h.payload["dataset_id"] == dataset)
      ensures limit >= |items| ==>
                forall id :: (&& id in items && sim(items[id].vector) >= threshold
                              && Tagged(items[id].payload, "organization_id", org)
                              && (dataset == "" || (&& "dataset_id" in items[id].payload
                                                    && items[id].payload["dataset_id"] == dataset)))
                             ==> Returned(hits, id)
    {
      hits := Search((e: Entry) => FaceVisible(e, org, dataset), sim, limit, threshold);
      SearchIsTopK(order, items, (e: Entry) => FaceVisible(e, org, dataset), sim, threshold, limit);
      FaceHits(order, items, sim, org, dataset, threshold, limit, hits);
    }
  }

  // ---- What a search returns ----

  predicate Eligible(items: map<string, Entry>, visible: Entry -> bool, sim: seq<real> -> real,
                     threshold: real, id: string)
  {
    id in items && visible(items[id]) && sim(items[id].vector) >= threshold
  }

  function HitOf(items: map<string, Entry>, sim: seq<real> -> real, id: string): (h: Hit)
    requires id in items
  {
    Hit(id, Round4(sim(items[id].vector)), items[id].payload)
  }

  predicate Returned(hits: seq<Hit>, id: string) { exists i :: 0 <= i < |hits| && hits[i].id == id }

  /** hits is a top-k list: every hit is an eligible stored vector with its rounded similarity, none twice,
      best first, at most limit of them; and any eligible vector left out scores, rounded, no higher than
      every hit returned, and is left out only because limit hits are returned. */
  ghost predicate TopK(order: seq<string>, items: map<string, Entry>, visible: Entry -> bool,
                       sim: seq<real> -> real, threshold: real, limit: int, hits: seq<Hit>)
  {
    && (forall i :: 0 <= i < |hits| ==>
          Eligible(items, visible, sim, threshold, hits[i].id) && hits[i] == HitOf(items, sim, hits[i].id))
    && (forall i, j :: 0 <= i < j < |hits| ==> hits[i].id != hits[j].id)
    && Descending(hits)
    && (limit >= 0 ==> |hits| <= limit)
    && (forall id :: id in order && Eligible(items, visible, sim, threshold, id) && !Returned(hits, id) ==>
          && (forall i :: 0 <= i < |hits| ==> hits[i].score >= HitOf(items, sim, id).score)
          && (limit >= 0 ==> |hits| == limit))
  }

  lemma {:induction false} FoundIff(order: seq<string>, items: map<string, Entry>, visible: Entry -> bool,
                                    sim: seq<real> -> real, threshold: real, n: nat, h: Hit)
    requires n <= |order| && forall id :: id in order ==> id in items
    ensures h in Found(order, items, visible, sim, threshold, n) <==>
            exists k :: 0 <= k < n && order[k] == h.id && Eligible(items, visible, sim, threshold, h.id) &&
                        h == HitOf(items, sim, h.id)
  {
    if n > 0 {
      assert order[n - 1] in order;
      FoundIff(order, items, visible, sim, threshold, n - 1, h);
    }
  }

  /** Every hit occurs once among the hits found. */
  lemma {:induction false} FoundDistinct(order: seq<string>, items: map<string, Entry>, visible: Entry -> bool,
                                         sim: seq<real> -> real, threshold: real, n: nat)
    requires n <= |order| && Distinct(order) && forall id :: id in order ==> id in items
    ensures forall h :: multiset(Found(order, items, visible, sim, threshold, n))[h] <= 1
  {
    if n > 0 {
      assert order[n - 1] in order;
      FoundDistinct(order, items, visible, sim, threshold, n - 1);
      var prev := Found(order, items, visible, sim, threshold, n - 1);
      var h := HitOf(items, sim, order[n - 1]);
      FoundIff(order, items, visible, sim, threshold, n - 1, h);
      assert h !in prev;
      hide Eligible;
      assert h !in multiset(prev);
    }
  }

  lemma SameTwice(s: seq<Hit>, i: nat, j: nat)
    requires i < j < |s| && s[i] == s[j]
    ensures multiset(s)[s[i]] >= 2
  {
    assert s == s[..i] + [s[i]] + s[i + 1..j] + [s[j]] + s[j + 1..];
  }

  /** Distinct hits of one store have distinct ids. */
  lemma SortedDistinctIds(s: seq<Hit>, items: map<string, Entry>, sim: seq<real> -> real)
    requires forall h :: multiset(s)[h] <= 1
    requires forall i :: 0 <= i < |s| ==> s[i].id in items && s[i] == HitOf(items, sim, s[i].id)
    ensures forall i, j :: 0 <= i < j < |s| ==> s[i].id != s[j].id
  {
    forall i, j | 0 <= i < j < |s| ensures s[i].id != s[j].id {
      if s[i].id == s[j].id {
        SameTwice(s, i, j);
      }
    }
  }

  /** The sorted hits are exactly the eligible vectors. */
  lemma SortedHits(order: seq<string>, items: map<string, Entry>, visible: Entry -> bool,
                   sim: seq<real> -> real, threshold: real, sorted: seq<Hit>)
    requires forall id :: id in order ==> id in items
    requires sorted == SortHits(Found(order, items, visible, sim, threshold, |order|))
    ensures forall i :: 0 <= i < |sorted| ==>
              Eligible(items, visible, sim, threshold, sorted[i].id) && sorted[i] == HitOf(items, sim, sorted[i].id)
    ensures forall id :: id in order && Eligible(items, visible, sim, threshold, id) ==> HitOf(items, sim, id) in sorted
  {
    var found := Found(order, items, visible, sim, threshold, |order|);
    hide Found, SortHits, Eligible, HitOf;
    assert multiset(sorted) == multiset(found);
    forall i | 0 <= i < |sorted|
      ensures Eligible(items, visible, sim, threshold, sorted[i].id) && sorted[i].id in items &&
              sorted[i] == HitOf(items, sim, sorted[i].id)
    {
      assert sorted[i] in multiset(found);
      FoundIff(order, items, visible, sim, threshold, |order|, sorted[i]);
    }
    forall id | id in order && Eligible(items, visible, sim, threshold, id)
      ensures HitOf(items, sim, id) in sorted
    {
      HitId(items, sim, id);
      FoundIff(order, items, visible, sim, threshold, |order|, HitOf(items, sim, id));
      assert HitOf(items, sim, id) in multiset(sorted);
    }
  }

  lemma HitId(items: map<string, Entry>, sim: seq<real> -> real, id: string)
    requires id in items
    ensures HitOf(items, sim, id).id == id
  {
  }

  /** Cutting a sorted list of all eligible vectors leaves a top-k list. */
  lemma CutIsTopK(order: seq<string>, items: map<string, Entry>, visible: Entry -> bool,
                  sim: seq<real> -> real, threshold: real, limit: int, sorted: seq<Hit>)
    requires Descending(sorted)
    requires forall i :: 0 <= i < |sorted| ==>
               Eligible(items, visible, sim, threshold, sorted[i].id) && sorted[i] == HitOf(items, sim, sorted[i].id)
    requires forall i, j :: 0 <= i < j < |sorted| ==> sorted[i].id != sorted[j].id
    requires forall id :: id in order && Eligible(items, visible, sim, threshold, id) ==> HitOf(items, sim, id) in sorted
    ensures TopK(order, items, visible, sim, threshold, limit, Cut(sorted, limit))
  {
    var hits := Cut(sorted, limit);
    assert forall i :: 0 <= i < |hits| ==> hits[i] == sorted[i];
    forall id | id in order && Eligible(items, visible, sim, threshold, id) && !Returned(hits, id)
      ensures forall i :: 0 <= i < |hits| ==> hits[i].score >= HitOf(items, sim, id).score
      ensures limit >= 0 ==> |hits| == limit
    {
      var k :| 0 <= k < |sorted| && sorted[k] == HitOf(items, sim, id);
      assert k >= |hits|;
    }
  }

  /** Searching a valid store yields a top-k list, for every similarity, tenant filter, threshold and limit. */
  lemma SearchIsTopK(order: seq<string>, items: map<string, Entry>, visible: Entry -> bool,
                     sim: seq<real> -> real, threshold: real, limit: int)
    requires Distinct(order) && forall id :: id in order ==> id in items
    ensures TopK(order, items, visible, sim, threshold, limit,
                 Cut(SortHits(Found(order, items, visible, sim, threshold, |order|)), limit))
  {
    hide Found, Cut, TopK, HitOf, Distinct, Descending;
    var found := Found(order, items, visible, sim, threshold, |order|);
    var sorted := SortHits(found);
    SortedHits(order, items, visible, sim, threshold, sorted);
    FoundDistinct(order, items, visible, sim, threshold, |order|);
    SortDescending(found);
    hide SortHits;
    assert multiset(sorted) == multiset(found);
    SortedDistinctIds(sorted, items, sim);
    CutIsTopK(order, items, visible, sim, threshold, limit, sorted);
  }

  // ---- Tenancy ----

  /** A list with room for every stored vector leaves out no eligible one. */
  lemma RoomForAll(order: seq<string>, items: map<string, Entry>, visible: Entry -> bool, sim: seq<real> -> real,
                   threshold: real, limit: int, hits: seq<Hit>, id: string)
    requires TopK(order, items, visible, sim, threshold, limit, hits)
    requires limit >= |items| && id in order && Eligible(items, visible, sim, threshold, id)
    ensures Returned(hits, id)
  {
    if !Returned(hits, id) {
      assert |hits| == limit;
      var ids := IdsOf(items, hits, |hits|);
      assert ids <= items.Keys - {id};
      SubsetSize(ids, items.Keys - {id});
    }
  }

  lemma SubsetSize(a: set<string>, b: set<string>)
    requires a <= b
    ensures |a| <= |b|
  {
    assert b == a + (b - a);
  }

  /** The ids of the first n hits, as many as there are hits. */
  lemma {:induction false} IdsOf(items: map<string, Entry>, hits: seq<Hit>, n: nat) returns (ids: set<string>)
    requires n <= |hits|
    requires forall i :: 0 <= i < |hits| ==> hits[i].id in items
    requires forall i, j :: 0 <= i < j < |hits| ==> hits[i].id != hits[j].id
    ensures |ids| == n && ids <= items.Keys
    ensures forall x :: x in ids <==> exists i :: 0 <= i < n && hits[i].id == x
  {
    if n == 0 {
      ids := {};
    } else {
      var rest := IdsOf(items, hits, n - 1);
      ids := rest + {hits[n - 1].id};
    }
  }

  lemma ImageHits(order: seq<string>, items: map<string, Entry>, sim: seq<real> -> real, org: string, threshold: real,
                  limit: int, hits: seq<Hit>)
    requires forall id :: id in order <==> id in items
    requires TopK(order, items, (e: Entry) => ImageVisible(e, org), sim, threshold, limit, hits)
    ensures forall h :: h in hits ==>
              && h.id in items && h.payload == items[h.id].payload && sim(items[h.id].vector) >= threshold
              && (Tagged(h.payload, "org_id", org) || Tagged(h.payload, "organization_id", org))
    ensures limit >= |items| ==>
              forall id :: (&& id in items && sim(items[id].vector) >= threshold
                            && (|| Tagged(items[id].payload, "org_id", org)
                                || Tagged(items[id].payload, "organization_id", org))) ==> Returned(hits, id)
  {
    var visible := (e: Entry) => ImageVisible(e, org);
    if limit >= |items| {
      forall id | id in items && Eligible(items, visible, sim, threshold, id) ensures Returned(hits, id) {
        RoomForAll(order, items, visible, sim, threshold, limit, hits, id);
      }
    }
  }

  lemma FaceHits(order: seq<string>, items: map<string, Entry>, sim: seq<real> -> real, org: string, dataset: string,
                 threshold: real, limit: int, hits: seq<Hit>)
    requires forall id :: id in order <==> id in items
    requires TopK(order, items, (e: Entry) => FaceVisible(e, org, dataset), sim, threshold, limit, hits)
    ensures forall h :: h in hits ==>
              && h.id in items && h.payload == items[h.id].payload && sim(items[h.id].vector) >= threshold
              && Tagged(h.payload, "organization_id", org)
              && (dataset != "" ==> "dataset_id" in h.payload && h.payload["dataset_id"] == dataset)
    ensures limit >= |items| ==>
              forall id :: (&& id in items && sim(items[id].vector) >= threshold
                            && Tagged(items[id].payload, "organization_id", org)
                            && (dataset == "" || (&& "dataset_id" in items[id].payload
                                                  && items[id].payload["dataset_id"] == dataset)))
                           ==> Returned(hits, id)
  {
    var visible := (e: Entry) => FaceVisible(e, org, dataset);
    if limit >= |items| {
      forall id | id in items && Eligible(items, visible, sim, threshold, id) ensures Returned(hits, id) {
        RoomForAll(order, items, visible, sim, threshold, limit, hits, id);
      }
    }
  }

  /** A face upserted for one organisation is found by that organisation, in a search with room for it, when it
      reaches the threshold, and never by another one, unless the metadata given with it names an organisation. */
  method UpsertAndSearchFaces(store: MemoryStore, id: string, vector: seq<real>, org: string, metadata: Payload,
                              sim: seq<real> -> real, searcher: string, limit: int, threshold: real)
    returns (hits: seq<Hit>)
    requires store.Valid() && "organization_id" !in metadata
    modifies store
    ensures searcher != org ==> !Returned(hits, id)
    ensures searcher == org && sim(vector) >= threshold && limit >= |store.items| ==> Returned(hits, id)
  {
    store.UpsertFace(id, vector, org, "", "", "", metadata);
    assert store.items[id] == Entry(vector, FacePayload(org, "", "", "", metadata));
    assert store.items[id].payload["organization_id"] == org;
    hits := store.SearchSimilarFaces(sim, searcher, "", limit, threshold);
    if Returned(hits, id) {
      var i :| 0 <= i < |hits| && hits[i].id == id;
      assert hits[i] in hits;
    }
  }

  /** A face vector is visible to another organisation exactly when its metadata names that one. */
  lemma FaceVisibleElsewhereIff(vector: seq<real>, org: string, dataset: string, participant: string, image: string,
                                metadata: Payload, other: string)
    requires other != org
    ensures FaceVisible(Entry(vector, FacePayload(org, dataset, participant, image, metadata)), other, "") <==>
            "organization_id" in metadata && metadata["organization_id"] == other
  {
    var p := FacePayload(org, dataset, participant, image, metadata);
    assert "organization_id" in p;
    assert p["organization_id"] == if "organization_id" in metadata then metadata["organization_id"] else org;
  }

  /** A vector upserted for one organisation is visible to another exactly when the metadata given with it
      names that other one in a tenant tag. */
  lemma VisibleElsewhereIff(vector: seq<real>, investigation: string, org: string, ref: string, metadata: Payload,
                            other: string)
    requires other != org
    ensures ImageVisible(Entry(vector, ImagePayload(investigation, org, ref, metadata)), other) <==>
            ("org_id" in metadata && metadata["org_id"] == other) ||
            ("organization_id" in metadata && metadata["organization_id"] == other)
  {
    var base: Payload := map["investigation_id" := investigation, "org_id" := org, "organization_id" := org,
                             "reference_image_id" := ref];
    var p := base + metadata;
    assert "org_id" in base && "organization_id" in base;
    assert p["org_id"] == if "org_id" in metadata then metadata["org_id"] else org;
    assert p["organization_id"] == if "organization_id" in metadata then metadata["organization_id"] else org;
  }

  /** The threshold is applied before rounding and the order after it, so an omitted vector can be more similar
      than a returned one by no more than the rounding step. */
  lemma OmittedWithinRounding(order: seq<string>, items: map<string, Entry>, visible: Entry -> bool,
                              sim: seq<real> -> real, threshold: real, limit: int, hits: seq<Hit>,
                              id: string, i: nat)
    requires TopK(order, items, visible, sim, threshold, limit, hits)
    requires id in order && Eligible(items, visible, sim, threshold, id) && !Returned(hits, id)
    requires i < |hits|
    ensures sim(items[id].vector) <= sim(items[hits[i].id].vector) + 0.0001
  {
    assert hits[i].score >= HitOf(items, sim, id).score;
  }
}
