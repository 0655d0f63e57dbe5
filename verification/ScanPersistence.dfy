/** Upsert of deduplicated findings into the search-result table. */
module ScanPersistence {
  import opened CanonicalUrl
  import opened Grouping
  import opened Discovery
  import opened Sequences

  /** A deduplicated finding as the pipeline hands it to the table. */
  datatype Finding = Finding(resultUrl: RawUrl, domain: string, score: real, provenance: Provenance, record: Merged)

  /** A row; `metadata`, `providers` and `sources` make up its metadata column. */
  datatype Row = Row(caseId: string, jobId: string, provider: string, sourceUrl: RawUrl, pageUrl: RawUrl,
                     imageUrl: RawUrl, domain: string, pageTitle: string, score: real, resultType: string,
                     metadata: map<string, string>, providers: seq<string>, sources: map<string, Source>)

  datatype RowKey = RowKey(caseId: string, provider: string, sourceUrl: RawUrl)

  function Join(ps: seq<string>): (s: string) {
    if ps == [] then "" else if |ps| == 1 then ps[0] else ps[0] + "," + Join(ps[1..])
  }

  function KeyOfRow(r: Row): (k: RowKey) { RowKey(r.caseId, r.provider, r.sourceUrl) }

  function KeyOfFinding(caseId: string, f: Finding): (k: RowKey) {
    RowKey(caseId, Join(f.record.providers), f.resultUrl)
  }

  function Updated(r: Row, f: Finding): (u: Row)
    ensures KeyOfRow(u) == KeyOfRow(r)
  {
    r.(pageTitle := if f.record.title != "" then f.record.title else r.pageTitle,
       imageUrl := if f.record.imageUrl.Missing? then r.imageUrl else f.record.imageUrl,
       resultType := f.provenance.resultType, metadata := f.provenance.metadata,
       providers := f.record.providers, sources := f.record.sources)
  }

  function Inserted(caseId: string, jobId: string, f: Finding): (r: Row)
    ensures KeyOfRow(r) == KeyOfFinding(caseId, f)
  {
    Row(caseId, jobId, Join(f.record.providers), f.resultUrl, f.resultUrl,
        if f.record.imageUrl.Missing? then f.resultUrl else f.record.imageUrl,
        f.domain, f.record.title, f.score, f.provenance.resultType,
        f.provenance.metadata, f.record.providers, f.record.sources)
  }

  function RowKeys(rows: seq<Row>): (ks: seq<RowKey>)
    ensures |ks| == |rows|
    ensures forall i :: 0 <= i < |rows| ==> ks[i] == KeyOfRow(rows[i])
  {
    seq(|rows|, i requires 0 <= i < |rows| => KeyOfRow(rows[i]))
  }

  /** The last index below n that holds k, or -1. */
  function LastKey(ks: seq<RowKey>, n: nat, k: RowKey): (i: int)
    requires n <= |ks|
    ensures -1 <= i < n
    ensures i >= 0 ==> ks[i] == k
    ensures forall j :: i < j < n ==> ks[j] != k
  {
    if n == 0 then -1 else if ks[n - 1] == k then n - 1 else LastKey(ks, n - 1, k)
  }

  function LastRow(rows: seq<Row>, k: RowKey): (i: int)
    ensures -1 <= i < |rows|
    ensures i >= 0 <==> k in RowKeys(rows)
    ensures i >= 0 ==> KeyOfRow(rows[i]) == k
  {
    LastKey(RowKeys(rows), |rows|, k)
  }

  /** One finding against the index built from the rows the scan started with. */
  function SaveOne(rows: seq<Row>, t: seq<Row>, caseId: string, jobId: string, f: Finding): (t': seq<Row>)
    requires |rows| <= |t|
  {
    var i := LastRow(rows, KeyOfFinding(caseId, f));
    if i >= 0 then t[i := Updated(t[i], f)] else t + [Inserted(caseId, jobId, f)]
  }

  function FindingKeys(caseId: string, found: seq<Finding>): (ks: seq<RowKey>)
    ensures |ks| == |found|
    ensures forall i :: 0 <= i < |found| ==> ks[i] == KeyOfFinding(caseId, found[i])
  {
    seq(|found|, i requires 0 <= i < |found| => KeyOfFinding(caseId, found[i]))
  }

  /** The table after the first n findings of a scan that started from `rows`. */
  function Upserted(rows: seq<Row>, caseId: string, jobId: string, found: seq<Finding>, n: nat): (t: seq<Row>)
    requires n <= |found|
    ensures |rows| <= |t|
  {
    if n == 0 then rows
    else SaveOne(rows, Upserted(rows, caseId, jobId, found, n - 1), caseId, jobId, found[n - 1])
  }

  lemma SaveOneKeys(rows: seq<Row>, t: seq<Row>, more: seq<RowKey>, caseId: string, jobId: string, f: Finding)
    requires |rows| <= |t| && RowKeys(t) == RowKeys(rows) + more
    ensures var k := KeyOfFinding(caseId, f);
            RowKeys(SaveOne(rows, t, caseId, jobId, f)) == RowKeys(t) + if k in RowKeys(rows) then [] else [k]
  {
    var i := LastRow(rows, KeyOfFinding(caseId, f));
    if i >= 0 {
      assert RowKeys(t)[i] == RowKeys(rows)[i];
    }
  }

  lemma AppendLast(a: seq<RowKey>, b: seq<RowKey>, k: RowKey)
    ensures a + b + [] == a + b && a + b + [k] == a + (b + [k])
  {
  }

  /** A scan keeps the key of every row and appends the new keys. */
  lemma {:induction false} KeysAfter(rows: seq<Row>, caseId: string, jobId: string, found: seq<Finding>, n: nat)
    requires n <= |found|
    ensures RowKeys(Upserted(rows, caseId, jobId, found, n)) ==
            RowKeys(rows) + Fresh(RowKeys(rows), FindingKeys(caseId, found), n)
  {
    hide *;
    FreshStep(RowKeys(rows), FindingKeys(caseId, found), n);
    if n == 0 {
      UpsertedNone(rows, caseId, jobId, found);
    } else {
      KeysAfter(rows, caseId, jobId, found, n - 1);
      UpsertedStep(rows, caseId, jobId, found, n - 1);
      SaveOneKeys(rows, Upserted(rows, caseId, jobId, found, n - 1),
                  Fresh(RowKeys(rows), FindingKeys(caseId, found), n - 1),
                  caseId, jobId, found[n - 1]);
      AppendLast(RowKeys(rows), Fresh(RowKeys(rows), FindingKeys(caseId, found), n - 1),
                 KeyOfFinding(caseId, found[n - 1]));
    }
  }

  lemma SaveOneCases(rows: seq<Row>, t: seq<Row>, caseId: string, jobId: string, f: Finding)
    requires |rows| <= |t|
    ensures KeyOfFinding(caseId, f).caseId == caseId
    ensures var i := LastRow(rows, KeyOfFinding(caseId, f));
            SaveOne(rows, t, caseId, jobId, f) ==
              if i >= 0 then t[i := Updated(t[i], f)] else t + [Inserted(caseId, jobId, f)]
  {
  }

  lemma UpsertedNone(rows: seq<Row>, caseId: string, jobId: string, found: seq<Finding>)
    ensures Upserted(rows, caseId, jobId, found, 0) == rows
  {
  }

  lemma UpsertedStep(rows: seq<Row>, caseId: string, jobId: string, found: seq<Finding>, n: nat)
    requires n < |found|
    ensures |rows| <= |Upserted(rows, caseId, jobId, found, n)|
    ensures Upserted(rows, caseId, jobId, found, n + 1) ==
            SaveOne(rows, Upserted(rows, caseId, jobId, found, n), caseId, jobId, found[n])
  {
  }

  class ResultTable {
    var rows: seq<Row>

    constructor ()
      ensures rows == []
    {
      rows := [];
    }

    /** The index of the rows of one case; of several rows with one key the last wins. */
    method IndexRows(caseId: string) returns (existing: map<RowKey, nat>)
      ensures forall k :: k in existing <==> k.caseId == caseId && LastRow(rows, k) >= 0
      ensures forall k :: k in existing ==> existing[k] == LastRow(rows, k)
    {
      existing := map[];
      ghost var ks := RowKeys(rows);
      hide RowKeys;
      for i := 0 to |rows|
        invariant forall k :: k in existing <==> k.caseId == caseId && LastKey(ks, i, k) >= 0
        invariant forall k :: k in existing ==> existing[k] == LastKey(ks, i, k)
      {
        forall k: RowKey ensures LastKey(ks, i + 1, k) == if ks[i] == k then i else LastKey(ks, i, k) {}
        if rows[i].caseId == caseId {
          existing := existing[KeyOfRow(rows[i]) := i];
        }
      }
    }

    method SaveScan(caseId: string, jobId: string, found: seq<Finding>)
      modifies this
      ensures rows == Upserted(old(rows), caseId, jobId, found, |found|)
    {
      var existing := IndexRows(caseId);
      assert Upserted(rows, caseId, jobId, found, 0) == rows;
      hide *;
      for n := 0 to |found|
        invariant |old(rows)| <= |rows|
        invariant rows == Upserted(old(rows), caseId, jobId, found, n)
      {
        var key := KeyOfFinding(caseId, found[n]);
        ghost var before := rows;
        SaveOneCases(old(rows), before, caseId, jobId, found[n]);
        UpsertedStep(old(rows), caseId, jobId, found, n);
        assert key.caseId == caseId;
        if key in existing {
          rows := rows[existing[key] := Updated(rows[existing[key]], found[n])];
        } else {
          rows := rows + [Inserted(caseId, jobId, found[n])];
        }
      }
    }
  }

  // ---- Uniqueness ----

  ghost predicate UniqueRows(rows: seq<Row>) {
    Distinct(RowKeys(rows))
  }

  /** A scan keeps the rows unique exactly when it does not bring one new key twice. */
  lemma StaysUniqueIff(rows: seq<Row>, caseId: string, jobId: string, found: seq<Finding>)
    requires UniqueRows(rows)
    ensures UniqueRows(Upserted(rows, caseId, jobId, found, |found|)) <==>
            FreshOnce(RowKeys(rows), FindingKeys(caseId, found), |found|)
  {
    hide Upserted, RowKeys, Fresh, FreshOnce, Distinct;
    KeysAfter(rows, caseId, jobId, found, |found|);
    AppendFreshDistinctIff(RowKeys(rows), FindingKeys(caseId, found));
  }

  ghost predicate DistinctKeys(caseId: string, found: seq<Finding>) {
    Distinct(FindingKeys(caseId, found))
  }

  lemma DistinctKeysAt(caseId: string, found: seq<Finding>, i: nat, j: nat)
    requires DistinctKeys(caseId, found) && i < j < |found|
    ensures KeyOfFinding(caseId, found[i]) != KeyOfFinding(caseId, found[j])
  {
  }

  // ---- Repetition ----

  /** The last row with f's key already holds everything f would write. */
  predicate Settled(t: seq<Row>, caseId: string, f: Finding) {
    var i := LastRow(t, KeyOfFinding(caseId, f));
    i >= 0 && Updated(t[i], f) == t[i]
  }

  lemma {:induction false} LastKeySkips(ks: seq<RowKey>, more: seq<RowKey>, k: RowKey)
    requires k !in more
    ensures LastKey(ks + more, |ks + more|, k) == LastKey(ks, |ks|, k)
  {
    var r := LastKey(ks + more, |ks + more|, k);
    assert forall j :: 0 <= j < |more| ==> (ks + more)[|ks| + j] == more[j];
    assert forall j :: 0 <= j < |ks| ==> (ks + more)[j] == ks[j];
  }

  /** Saving a finding settles it. */
  lemma SaveSettles(rows: seq<Row>, t: seq<Row>, more: seq<RowKey>, caseId: string, jobId: string, f: Finding)
    requires |rows| <= |t| && RowKeys(t) == RowKeys(rows) + more
    requires forall k :: k in more ==> k !in RowKeys(rows)
    ensures Settled(SaveOne(rows, t, caseId, jobId, f), caseId, f)
  {
    var k := KeyOfFinding(caseId, f);
    var i := LastRow(rows, k);
    var t' := SaveOne(rows, t, caseId, jobId, f);
    if i >= 0 {
      assert RowKeys(t)[i] == RowKeys(rows)[i];
      assert RowKeys(t') == RowKeys(t);
      LastKeySkips(RowKeys(rows), more, k);
    } else {
      assert RowKeys(t')[|t|] == k;
    }
  }

  /** Saving a finding leaves findings with other keys settled. */
  lemma SaveKeepsSettled(rows: seq<Row>, t: seq<Row>, more: seq<RowKey>, caseId: string, jobId: string,
                         f: Finding, g: Finding)
    requires |rows| <= |t| && RowKeys(t) == RowKeys(rows) + more
    requires KeyOfFinding(caseId, f) != KeyOfFinding(caseId, g) && Settled(t, caseId, g)
    ensures Settled(SaveOne(rows, t, caseId, jobId, f), caseId, g)
  {
    var k := KeyOfFinding(caseId, f);
    var i := LastRow(rows, k);
    var t' := SaveOne(rows, t, caseId, jobId, f);
    if i >= 0 {
      assert RowKeys(t)[i] == RowKeys(rows)[i];
      assert RowKeys(t') == RowKeys(t);
    } else {
      assert RowKeys(t') == RowKeys(t) + [k];
      LastKeySkips(RowKeys(t), [k], KeyOfFinding(caseId, g));
    }
  }

  /** Finding m is the last of the first n with its key. */
  ghost predicate LastOfKey(caseId: string, found: seq<Finding>, m: nat, n: nat)
    requires m < n <= |found|
  {
    forall j :: m < j < n ==> KeyOfFinding(caseId, found[j]) != KeyOfFinding(caseId, found[m])
  }

  /** After a scan every finding is settled that is the last one with its key. */
  lemma {:induction false} AllSettled(rows: seq<Row>, caseId: string, jobId: string, found: seq<Finding>,
                                      m: nat, n: nat)
    requires m < n <= |found| && LastOfKey(caseId, found, m, n)
    ensures Settled(Upserted(rows, caseId, jobId, found, n), caseId, found[m])
  {
    hide *;
    var s, more := Upserted(rows, caseId, jobId, found, n - 1), Fresh(RowKeys(rows), FindingKeys(caseId, found), n - 1);
    KeysAfter(rows, caseId, jobId, found, n - 1);
    UpsertedStep(rows, caseId, jobId, found, n - 1);
    if m == n - 1 {
      SaveSettles(rows, s, more, caseId, jobId, found[m]);
    } else {
      LastOfKeyPrefix(caseId, found, m, n);
      AllSettled(rows, caseId, jobId, found, m, n - 1);
      SaveKeepsSettled(rows, s, more, caseId, jobId, found[n - 1], found[m]);
    }
  }

  lemma LastOfKeyPrefix(caseId: string, found: seq<Finding>, m: nat, n: nat)
    requires m < n - 1 && n <= |found| && LastOfKey(caseId, found, m, n)
    ensures LastOfKey(caseId, found, m, n - 1)
    ensures KeyOfFinding(caseId, found[n - 1]) != KeyOfFinding(caseId, found[m])
  {
  }

  lemma DistinctKeysLast(caseId: string, found: seq<Finding>, m: nat)
    requires m < |found| && DistinctKeys(caseId, found)
    ensures LastOfKey(caseId, found, m, |found|)
  {
    forall j | m < j < |found| ensures KeyOfFinding(caseId, found[j]) != KeyOfFinding(caseId, found[m]) {
      DistinctKeysAt(caseId, found, m, j);
    }
  }

  /** After a scan the row of a saved finding, if it is the last one with its key, shows the finding's type,
      metadata, providers and sources, and its title and image if it has them. */
  lemma SavedContent(rows: seq<Row>, caseId: string, jobId: string, found: seq<Finding>, m: nat)
    requires m < |found| && LastOfKey(caseId, found, m, |found|)
    ensures var t, f := Upserted(rows, caseId, jobId, found, |found|), found[m];
            var i := LastRow(t, KeyOfFinding(caseId, f));
            && i >= 0 && t[i].resultType == f.provenance.resultType && t[i].metadata == f.provenance.metadata
            && t[i].providers == f.record.providers && t[i].sources == f.record.sources
            && (f.record.title != "" ==> t[i].pageTitle == f.record.title)
            && (!f.record.imageUrl.Missing? ==> t[i].imageUrl == f.record.imageUrl)
  {
    hide Upserted, LastOfKey;
    AllSettled(rows, caseId, jobId, found, m, |found|);
  }

  lemma SettledFixed(t: seq<Row>, caseId: string, jobId: string, f: Finding)
    requires Settled(t, caseId, f)
    ensures SaveOne(t, t, caseId, jobId, f) == t
  {
  }

  lemma {:induction false} NothingFresh(have: seq<RowKey>, come: seq<RowKey>, n: nat)
    requires n <= |come| && forall m :: 0 <= m < n ==> come[m] in have
    ensures Fresh(have, come, n) == []
  {
    if n > 0 {
      NothingFresh(have, come, n - 1);
    }
  }

  lemma ScannedKeyKnown(rows: seq<Row>, caseId: string, jobId: string, found: seq<Finding>, m: nat)
    requires m < |found|
    ensures FindingKeys(caseId, found)[m] in RowKeys(Upserted(rows, caseId, jobId, found, |found|))
  {
    var have, come := RowKeys(rows), FindingKeys(caseId, found);
    hide Upserted, RowKeys, FindingKeys, Fresh;
    KeysAfter(rows, caseId, jobId, found, |found|);
    FreshMember(have, come, |found|, come[m]);
  }

  /** Running the pipeline again on identical provider output inserts nothing, whatever the table held before,
      whichever job repeats the scan, and however often a key occurs in it. */
  lemma RepeatInsertsNothing(rows: seq<Row>, caseId: string, jobId: string, again: string, found: seq<Finding>, n: nat)
    requires n <= |found|
    ensures var t := Upserted(rows, caseId, jobId, found, |found|);
            RowKeys(Upserted(t, caseId, again, found, n)) == RowKeys(t)
  {
    var t := Upserted(rows, caseId, jobId, found, |found|);
    hide Upserted, RowKeys, FindingKeys, Fresh;
    KeysAfter(t, caseId, again, found, n);
    forall m | 0 <= m < n ensures FindingKeys(caseId, found)[m] in RowKeys(t) {
      ScannedKeyKnown(rows, caseId, jobId, found, m);
    }
    NothingFresh(RowKeys(t), FindingKeys(caseId, found), n);
  }

  /** If the findings have distinct keys, as deduplicated results with page URLs do, the repetition does not change a
      row either. */
  lemma {:induction false} RepeatChangesNothing(rows: seq<Row>, caseId: string, jobId: string, again: string,
                                                found: seq<Finding>, n: nat)
    requires n <= |found| && DistinctKeys(caseId, found)
    ensures Upserted(Upserted(rows, caseId, jobId, found, |found|), caseId, again, found, n) ==
            Upserted(rows, caseId, jobId, found, |found|)
  {
    hide *;
    var t := Upserted(rows, caseId, jobId, found, |found|);
    if n == 0 {
      UpsertedNone(t, caseId, again, found);
    } else {
      RepeatChangesNothing(rows, caseId, jobId, again, found, n - 1);
      DistinctKeysLast(caseId, found, n - 1);
      AllSettled(rows, caseId, jobId, found, n - 1, |found|);
      UpsertedStep(t, caseId, again, found, n - 1);
      SettledFixed(t, caseId, again, found[n - 1]);
    }
  }

  // ---- When a repetition changes nothing ----

  /** Row r after the first n findings, each of which updates it if it has its key. */
  function RowAfter(r: Row, caseId: string, found: seq<Finding>, n: nat): (u: Row)
    requires n <= |found|
    ensures KeyOfRow(u) == KeyOfRow(r)
  {
    if n == 0 then r
    else
      var q := RowAfter(r, caseId, found, n - 1);
      if KeyOfFinding(caseId, found[n - 1]) == KeyOfRow(r) then Updated(q, found[n - 1]) else q
  }

  lemma RowAfterStep(r: Row, caseId: string, found: seq<Finding>, n: nat)
    requires n < |found|
    ensures RowAfter(r, caseId, found, 0) == r
    ensures RowAfter(r, caseId, found, n + 1) ==
            if KeyOfFinding(caseId, found[n]) == KeyOfRow(r) then Updated(RowAfter(r, caseId, found, n), found[n])
            else RowAfter(r, caseId, found, n)
  {
  }

  /** Of the rows a scan starts with, it updates the last one of each key with all findings of that key, in order,
      and leaves the others as they are. */
  lemma {:induction false} UpdatedInPlace(rows: seq<Row>, caseId: string, jobId: string, found: seq<Finding>, n: nat,
                                          i: nat)
    requires n <= |found| && i < |rows|
    ensures Upserted(rows, caseId, jobId, found, n)[i] ==
            if LastRow(rows, KeyOfRow(rows[i])) == i then RowAfter(rows[i], caseId, found, n) else rows[i]
  {
    hide *;
    if n == 0 {
      UpsertedNone(rows, caseId, jobId, found);
      if found != [] {
        RowAfterStep(rows[i], caseId, found, 0);
      } else {
        RowAfterNone(rows[i], caseId, found, 0);
      }
    } else {
      UpdatedInPlace(rows, caseId, jobId, found, n - 1, i);
      UpsertedStep(rows, caseId, jobId, found, n - 1);
      RowAfterStep(rows[i], caseId, found, n - 1);
      SaveOneCases(rows, Upserted(rows, caseId, jobId, found, n - 1), caseId, jobId, found[n - 1]);
    }
  }

  lemma {:induction false} RowAfterNone(r: Row, caseId: string, found: seq<Finding>, n: nat)
    requires n <= |found| && forall j :: 0 <= j < n ==> KeyOfFinding(caseId, found[j]) != KeyOfRow(r)
    ensures RowAfter(r, caseId, found, n) == r
  {
    if n > 0 {
      RowAfterNone(r, caseId, found, n - 1);
    }
  }

  /** The last title among the first n findings with key k, "" if none has one. */
  function LastTitle(caseId: string, found: seq<Finding>, k: RowKey, n: nat): (t: string)
    requires n <= |found|
  {
    if n == 0 then ""
    else if KeyOfFinding(caseId, found[n - 1]) == k && found[n - 1].record.title != "" then found[n - 1].record.title
    else LastTitle(caseId, found, k, n - 1)
  }

  /** Likewise the last image URL. */
  function LastImage(caseId: string, found: seq<Finding>, k: RowKey, n: nat): (u: RawUrl)
    requires n <= |found|
  {
    if n == 0 then Missing
    else if KeyOfFinding(caseId, found[n - 1]) == k && !found[n - 1].record.imageUrl.Missing?
    then found[n - 1].record.imageUrl
    else LastImage(caseId, found, k, n - 1)
  }

  /** The texts of an updated row. */
  lemma {:induction false} RowAfterTexts(r: Row, caseId: string, found: seq<Finding>, n: nat)
    requires n <= |found|
    ensures var u, t, g := RowAfter(r, caseId, found, n), LastTitle(caseId, found, KeyOfRow(r), n),
                           LastImage(caseId, found, KeyOfRow(r), n);
            && u.pageTitle == (if t != "" then t else r.pageTitle)
            && u.imageUrl == (if g.Missing? then r.imageUrl else g)
            && u.(pageTitle := r.pageTitle, imageUrl := r.imageUrl, resultType := r.resultType, metadata := r.metadata,
                  providers := r.providers, sources := r.sources) == r
  {
    if n > 0 {
      RowAfterTexts(r, caseId, found, n - 1);
    }
  }

  /** What a row shows of the finding that updated it last. */
  lemma {:induction false} RowAfterLast(r: Row, caseId: string, found: seq<Finding>, m: nat, n: nat)
    requires m < n <= |found| && LastOfKey(caseId, found, m, n) && KeyOfFinding(caseId, found[m]) == KeyOfRow(r)
    ensures var u, f := RowAfter(r, caseId, found, n), found[m];
            && u.resultType == f.provenance.resultType && u.metadata == f.provenance.metadata
            && u.providers == f.record.providers && u.sources == f.record.sources
  {
    if m < n - 1 {
      LastOfKeyPrefix(caseId, found, m, n);
      RowAfterLast(r, caseId, found, m, n - 1);
    }
  }

  /** A row that the last finding of its key has settled is left alone by all of them exactly when it shows the last
      title and the last image that they bring. */
  lemma SettledRowFixedIff(r: Row, caseId: string, found: seq<Finding>, m: nat)
    requires m < |found| && LastOfKey(caseId, found, m, |found|) && KeyOfFinding(caseId, found[m]) == KeyOfRow(r)
    requires Updated(r, found[m]) == r
    ensures RowAfter(r, caseId, found, |found|) == r <==>
            && LastTitle(caseId, found, KeyOfRow(r), |found|) in ["", r.pageTitle]
            && LastImage(caseId, found, KeyOfRow(r), |found|) in [Missing, r.imageUrl]
  {
    RowAfterTexts(r, caseId, found, |found|);
    RowAfterLast(r, caseId, found, m, |found|);
    hide RowAfter, LastTitle, LastImage, LastOfKey;
  }

  /** The last finding of a key that the table did not have is inserted as it is. */
  lemma {:induction false} InsertedLast(rows: seq<Row>, caseId: string, jobId: string, found: seq<Finding>,
                                        m: nat, n: nat)
    requires m < n <= |found| && LastOfKey(caseId, found, m, n)
    requires KeyOfFinding(caseId, found[m]) !in RowKeys(rows)
    ensures var t := Upserted(rows, caseId, jobId, found, n);
            var i := LastRow(t, KeyOfFinding(caseId, found[m]));
            i >= |rows| && t[i] == Inserted(caseId, jobId, found[m])
  {
    hide *;
    var s, k := Upserted(rows, caseId, jobId, found, n - 1), KeyOfFinding(caseId, found[m]);
    UpsertedStep(rows, caseId, jobId, found, n - 1);
    SaveOneCases(rows, s, caseId, jobId, found[n - 1]);
    if m == n - 1 {
      AppendedIsLast(s, Inserted(caseId, jobId, found[m]));
    } else {
      LastOfKeyPrefix(caseId, found, m, n);
      InsertedLast(rows, caseId, jobId, found, m, n - 1);
      var i := LastRow(rows, KeyOfFinding(caseId, found[n - 1]));
      if i >= 0 {
        KeysAfter(rows, caseId, jobId, found, n - 1);
        UpdateKeepsLast(rows, s, i, found[n - 1], k);
      } else {
        OtherAppended(s, Inserted(caseId, jobId, found[n - 1]), k);
      }
    }
  }

  /** The row of a finding whose key is new, if it is the last one with that key, is about the finding's page, with its
      image or else the page itself as image, and belongs to the case and the job of the scan. */
  lemma InsertedContent(rows: seq<Row>, caseId: string, jobId: string, found: seq<Finding>, m: nat)
    requires m < |found| && LastOfKey(caseId, found, m, |found|)
    requires KeyOfFinding(caseId, found[m]) !in RowKeys(rows)
    ensures var t, f := Upserted(rows, caseId, jobId, found, |found|), found[m];
            var i := LastRow(t, KeyOfFinding(caseId, f));
            && i >= |rows| && t[i].caseId == caseId && t[i].jobId == jobId
            && t[i].sourceUrl == t[i].pageUrl == f.resultUrl && t[i].domain == f.domain && t[i].score == f.score
            && t[i].pageTitle == f.record.title
            && t[i].imageUrl == (if f.record.imageUrl.Missing? then f.resultUrl else f.record.imageUrl)
  {
    hide Upserted, LastOfKey, RowKeys, LastRow;
    InsertedLast(rows, caseId, jobId, found, m, |found|);
  }

  /** The provider column is the list of providers separated by commas. */
  lemma {:induction false} ProviderColumn(a: seq<string>, b: seq<string>)
    requires a != [] && b != []
    ensures Join(a + b) == Join(a) + "," + Join(b)
    ensures |a| == 1 ==> Join(a) == a[0]
  {
    assert (a + b)[1..] == a[1..] + b;
    if |a| > 1 {
      ProviderColumn(a[1..], b);
    }
  }

  lemma KeyParts(r: Row, caseId: string, f: Finding)
    ensures KeyOfRow(r) == KeyOfFinding(caseId, f) <==>
            r.caseId == caseId && r.provider == Join(f.record.providers) && r.sourceUrl == f.resultUrl
  {
  }

  lemma AppendedIsLast(t: seq<Row>, r: Row)
    ensures LastRow(t + [r], KeyOfRow(r)) == |t|
  {
    assert RowKeys(t + [r])[|t|] == KeyOfRow(r);
  }

  lemma OtherAppended(t: seq<Row>, r: Row, k: RowKey)
    requires KeyOfRow(r) != k
    ensures LastRow(t + [r], k) == LastRow(t, k)
  {
    assert RowKeys(t + [r]) == RowKeys(t) + [KeyOfRow(r)];
    LastKeySkips(RowKeys(t), [KeyOfRow(r)], k);
  }

  lemma UpdateKeepsLast(rows: seq<Row>, t: seq<Row>, i: nat, f: Finding, k: RowKey)
    requires i < |rows| <= |t|
    ensures LastRow(t[i := Updated(t[i], f)], k) == LastRow(t, k)
  {
    assert RowKeys(t[i := Updated(t[i], f)]) == RowKeys(t);
  }

  lemma {:induction false} LastOfKeyExists(caseId: string, found: seq<Finding>, j: nat, n: nat) returns (m: nat)
    requires j < n <= |found|
    ensures m < n && LastOfKey(caseId, found, m, n) && KeyOfFinding(caseId, found[m]) == KeyOfFinding(caseId, found[j])
  {
    if j == n - 1 || KeyOfFinding(caseId, found[n - 1]) == KeyOfFinding(caseId, found[j]) {
      m := n - 1;
    } else {
      m := LastOfKeyExists(caseId, found, j, n - 1);
    }
  }

  /** Finding m, as inserted, lacks no title or image that an earlier finding with its key brings. */
  predicate Complete(caseId: string, found: seq<Finding>, m: nat)
    requires m < |found|
  {
    var r := Inserted(caseId, "", found[m]);
    && LastTitle(caseId, found, KeyOfRow(r), |found|) in ["", r.pageTitle]
    && LastImage(caseId, found, KeyOfRow(r), |found|) in [Missing, r.imageUrl]
  }

  /** The keys that are new to the table are completely described by the last finding that has them. */
  ghost predicate NewOnesComplete(rows: seq<Row>, caseId: string, found: seq<Finding>) {
    forall m :: (&& 0 <= m < |found| && LastOfKey(caseId, found, m, |found|)
                 && KeyOfFinding(caseId, found[m]) !in RowKeys(rows)) ==> Complete(caseId, found, m)
  }

  /** The row that carries finding m's key after the scan, m being the last finding with that key, is left alone by
      a repetition exactly when the key was known before or m is complete. */
  lemma RowRepeatsIff(rows: seq<Row>, caseId: string, jobId: string, found: seq<Finding>, m: nat)
    requires m < |found| && LastOfKey(caseId, found, m, |found|)
    ensures var t, k := Upserted(rows, caseId, jobId, found, |found|), KeyOfFinding(caseId, found[m]);
            var i := LastRow(t, k);
            && i >= 0
            && (RowAfter(t[i], caseId, found, |found|) == t[i] <==> k in RowKeys(rows) || Complete(caseId, found, m))
  {
    var t, k := Upserted(rows, caseId, jobId, found, |found|), KeyOfFinding(caseId, found[m]);
    var i := LastRow(t, k);
    hide Upserted, RowAfter, LastTitle, LastImage, LastOfKey, RowKeys, LastRow, Updated, Fresh;
    AllSettled(rows, caseId, jobId, found, m, |found|);
    SettledRowFixedIff(t[i], caseId, found, m);
    if k in RowKeys(rows) {
      KnownRow(rows, caseId, jobId, found, k);
      RowAfterTexts(rows[i], caseId, found, |found|);
    } else {
      InsertedLast(rows, caseId, jobId, found, m, |found|);
    }
  }

  /** The last row of a key the table had is the one it had. */
  lemma KnownRow(rows: seq<Row>, caseId: string, jobId: string, found: seq<Finding>, k: RowKey)
    requires k in RowKeys(rows)
    ensures var t, i := Upserted(rows, caseId, jobId, found, |found|), LastRow(rows, k);
            && 0 <= i < |rows| && KeyOfRow(rows[i]) == k && LastRow(t, k) == i
            && t[i] == RowAfter(rows[i], caseId, found, |found|)
  {
    var t, i := Upserted(rows, caseId, jobId, found, |found|), LastRow(rows, k);
    hide Upserted, RowAfter, RowKeys;
    UpdatedInPlace(rows, caseId, jobId, found, |found|, i);
    KeysAfter(rows, caseId, jobId, found, |found|);
    LastKeySkips(RowKeys(rows), Fresh(RowKeys(rows), FindingKeys(caseId, found), |found|), k);
  }

  /** Exactly when repeating a scan changes nothing at all, for findings with any keys: if the last finding of every
      key that was new lacks no title or image that an earlier one with its key brings.  Keys the table had before
      never matter. */
  lemma RepeatChangesNothingIff(rows: seq<Row>, caseId: string, jobId: string, again: string, found: seq<Finding>)
    ensures Upserted(Upserted(rows, caseId, jobId, found, |found|), caseId, again, found, |found|) ==
            Upserted(rows, caseId, jobId, found, |found|) <==>
            NewOnesComplete(rows, caseId, found)
  {
    var t := Upserted(rows, caseId, jobId, found, |found|);
    var t' := Upserted(t, caseId, again, found, |found|);
    hide Upserted, RowAfter, LastOfKey, Complete, LastRow, KeyOfFinding;
    RepeatInsertsNothing(rows, caseId, jobId, again, found, |found|);
    assert |t'| == |RowKeys(t')| == |RowKeys(t)| == |t|;
    if NewOnesComplete(rows, caseId, found) {
      forall i | 0 <= i < |t| ensures t'[i] == t[i] {
        UpdatedInPlace(t, caseId, again, found, |found|, i);
        if j :| 0 <= j < |found| && KeyOfFinding(caseId, found[j]) == KeyOfRow(t[i]) {
          var m := LastOfKeyExists(caseId, found, j, |found|);
          RowRepeatsIff(rows, caseId, jobId, found, m);
        } else {
          RowAfterNone(t[i], caseId, found, |found|);
        }
      }
    }
    if t' == t {
      forall m | 0 <= m < |found| && LastOfKey(caseId, found, m, |found|) &&
                 KeyOfFinding(caseId, found[m]) !in RowKeys(rows)
        ensures Complete(caseId, found, m)
      {
        RowRepeatsIff(rows, caseId, jobId, found, m);
        UpdatedInPlace(t, caseId, again, found, |found|, LastRow(t, KeyOfFinding(caseId, found[m])));
      }
    }
  }

  // ---- Whole histories ----

  datatype Scan = Scan(caseId: string, jobId: string, found: seq<Finding>)

  function AfterScans(scans: seq<Scan>): (t: seq<Row>) {
    if scans == [] then []
    else
      var s := scans[|scans| - 1];
      Upserted(AfterScans(scans[..|scans| - 1]), s.caseId, s.jobId, s.found, |s.found|)
  }

  /** No scan of the history brings a key twice that the table does not have yet. */
  ghost predicate NewOnce(scans: seq<Scan>) {
    forall n :: 0 <= n < |scans| ==>
      FreshOnce(RowKeys(AfterScans(scans[..n])), FindingKeys(scans[n].caseId, scans[n].found), |scans[n].found|)
  }

  lemma AfterScansNone()
    ensures UniqueRows(AfterScans([])) && NewOnce([])
  {
  }

  lemma AfterScansStep(scans: seq<Scan>)
    requires scans != []
    ensures var n := |scans| - 1;
            AfterScans(scans) == Upserted(AfterScans(scans[..n]), scans[n].caseId, scans[n].jobId, scans[n].found,
                                          |scans[n].found|)
  {
    hide Upserted;
  }

  lemma NewOnceStep(scans: seq<Scan>)
    requires scans != []
    ensures var n := |scans| - 1;
            NewOnce(scans) <==>
            NewOnce(scans[..n]) &&
            FreshOnce(RowKeys(AfterScans(scans[..n])), FindingKeys(scans[n].caseId, scans[n].found), |scans[n].found|)
  {
    hide RowKeys, AfterScans, FindingKeys, FreshOnce;
    var n := |scans| - 1;
    assert forall m :: 0 <= m < n ==> scans[..n][m] == scans[m] && scans[..n][..m] == scans[..m];
  }

  lemma UniqueAfterIff(rows: seq<Row>, caseId: string, jobId: string, found: seq<Finding>)
    ensures UniqueRows(Upserted(rows, caseId, jobId, found, |found|)) <==>
            UniqueRows(rows) && FreshOnce(RowKeys(rows), FindingKeys(caseId, found), |found|)
  {
    hide Upserted, RowKeys, FindingKeys, Fresh, FreshOnce, Distinct;
    KeysAfter(rows, caseId, jobId, found, |found|);
    DistinctConcat(RowKeys(rows), Fresh(RowKeys(rows), FindingKeys(caseId, found), |found|));
    if UniqueRows(rows) {
      StaysUniqueIff(rows, caseId, jobId, found);
    }
  }

  /** Over any sequence of scans of any cases, rows are unique per case, provider list and source URL exactly when no
      scan brought a new key twice. */
  lemma {:induction false} HistoryUniqueIff(scans: seq<Scan>)
    ensures UniqueRows(AfterScans(scans)) <==> NewOnce(scans)
  {
    hide *;
    if scans == [] {
      AfterScansNone();
    } else {
      var n := |scans| - 1;
      var init, s := scans[..n], scans[n];
      HistoryUniqueIff(init);
      AfterScansStep(scans);
      NewOnceStep(scans);
      UniqueAfterIff(AfterScans(init), s.caseId, s.jobId, s.found);
    }
  }

  /** Scans of distinct keys satisfy that. */
  lemma HistoryUnique(scans: seq<Scan>)
    requires forall i :: 0 <= i < |scans| ==> DistinctKeys(scans[i].caseId, scans[i].found)
    ensures UniqueRows(AfterScans(scans))
  {
    hide UniqueRows, FreshOnce, DistinctKeys;
    forall n | 0 <= n < |scans|
      ensures FreshOnce(RowKeys(AfterScans(scans[..n])), FindingKeys(scans[n].caseId, scans[n].found), |scans[n].found|)
    {
      DistinctComeOnce(AfterScans(scans[..n]), scans[n].caseId, scans[n].found);
    }
    HistoryUniqueIff(scans);
  }

  /** A scan of one case leaves the rows of every other case as they were. */
  lemma {:induction false} OtherCasesUntouched(rows: seq<Row>, caseId: string, jobId: string, found: seq<Finding>,
                                               n: nat)
    requires n <= |found|
    ensures forall i :: 0 <= i < |rows| && rows[i].caseId != caseId ==>
              Upserted(rows, caseId, jobId, found, n)[i] == rows[i]
    ensures forall i :: |rows| <= i < |Upserted(rows, caseId, jobId, found, n)| ==>
              Upserted(rows, caseId, jobId, found, n)[i].caseId == caseId
  {
    if n > 0 {
      OtherCasesUntouched(rows, caseId, jobId, found, n - 1);
      SaveOneElsewhere(rows, Upserted(rows, caseId, jobId, found, n - 1), caseId, jobId, found[n - 1]);
      hide SaveOne;
    }
  }

  lemma SaveOneElsewhere(rows: seq<Row>, t: seq<Row>, caseId: string, jobId: string, f: Finding)
    requires |rows| <= |t|
    ensures var u := SaveOne(rows, t, caseId, jobId, f);
            && (forall i :: 0 <= i < |rows| && rows[i].caseId != caseId ==> u[i] == t[i])
            && (forall i :: |t| <= i < |u| ==> u[i].caseId == caseId)
            && (forall i :: |rows| <= i < |t| ==> u[i] == t[i])
  {
  }

  // ---- One row per page ----

  datatype Page = Page(caseId: string, sourceUrl: RawUrl)

  function PageOf(k: RowKey): (p: Page) { Page(k.caseId, k.sourceUrl) }

  function PagesOf(ks: seq<RowKey>): (ps: seq<Page>)
    ensures |ps| == |ks|
    ensures forall i :: 0 <= i < |ks| ==> ps[i] == PageOf(ks[i])
  {
    seq(|ks|, i requires 0 <= i < |ks| => PageOf(ks[i]))
  }

  /** No two rows of a case are about the same page. */
  ghost predicate OneRowPerPage(rows: seq<Row>) { Distinct(PagesOf(RowKeys(rows))) }

  lemma PagesOfConcat(a: seq<RowKey>, b: seq<RowKey>)
    ensures PagesOf(a + b) == PagesOf(a) + PagesOf(b)
  {
  }

  /** The pages of the new keys among the first n are pairwise different. */
  ghost predicate FreshPagesOnce(have: seq<RowKey>, come: seq<RowKey>, n: nat)
    requires n <= |come|
  {
    forall i, j :: 0 <= i < j < n && come[i] !in have && come[j] !in have ==> PageOf(come[i]) != PageOf(come[j])
  }

  lemma PagesSnoc(ks: seq<RowKey>, k: RowKey)
    ensures PagesOf(ks + [k]) == PagesOf(ks) + [PageOf(k)]
  {
  }

  /** Page p is that of a new key among the first n. */
  ghost predicate FreshPageAt(have: seq<RowKey>, come: seq<RowKey>, n: nat, p: Page)
    requires n <= |come|
  {
    exists m :: 0 <= m < n && come[m] !in have && PageOf(come[m]) == p
  }

  lemma FreshPageStep(have: seq<RowKey>, come: seq<RowKey>, n: nat, p: Page)
    requires 1 <= n <= |come|
    ensures FreshPageAt(have, come, n, p) <==>
            FreshPageAt(have, come, n - 1, p) || (come[n - 1] !in have && PageOf(come[n - 1]) == p)
    ensures !FreshPageAt(have, come, 0, p)
  {
    hide PageOf;
  }

  lemma {:induction false} FreshPage(have: seq<RowKey>, come: seq<RowKey>, n: nat, p: Page)
    requires n <= |come|
    ensures p in PagesOf(Fresh(have, come, n)) <==> FreshPageAt(have, come, n, p)
  {
    FreshStep(have, come, n);
    hide Fresh, PageOf, FreshPageAt;
    if n > 0 {
      FreshPage(have, come, n - 1, p);
      FreshPageStep(have, come, n, p);
      PagesSnoc(Fresh(have, come, n - 1), come[n - 1]);
    } else {
      NoFreshPage(have, come, p);
    }
  }

  lemma NoFreshPage(have: seq<RowKey>, come: seq<RowKey>, p: Page)
    ensures !FreshPageAt(have, come, 0, p)
  {
  }

  lemma FreshPagesOnceStep(have: seq<RowKey>, come: seq<RowKey>, n: nat)
    requires 1 <= n <= |come|
    ensures FreshPagesOnce(have, come, n) <==>
            && FreshPagesOnce(have, come, n - 1)
            && (come[n - 1] in have || !FreshPageAt(have, come, n - 1, PageOf(come[n - 1])))
  {
    hide PageOf;
  }

  lemma {:induction false} FreshPagesDistinctIff(have: seq<RowKey>, come: seq<RowKey>, n: nat)
    requires n <= |come|
    ensures Distinct(PagesOf(Fresh(have, come, n))) <==> FreshPagesOnce(have, come, n)
  {
    FreshStep(have, come, n);
    if n > 0 {
      hide *;
      FreshPagesDistinctIff(have, come, n - 1);
      FreshPagesOnceStep(have, come, n);
      PagesSnoc(Fresh(have, come, n - 1), come[n - 1]);
      DistinctConcat(PagesOf(Fresh(have, come, n - 1)), [PageOf(come[n - 1])]);
      OneDistinct(PageOf(come[n - 1]));
      FreshPage(have, come, n - 1, PageOf(come[n - 1]));
    }
  }

  lemma OneDistinct(p: Page)
    ensures Distinct([p])
  {
  }

  /** Every finding of the scan that brings a new key is about a page that neither the table nor another such finding
      has. */
  ghost predicate NewKeysNewPages(rows: seq<Row>, caseId: string, found: seq<Finding>) {
    var have, come := RowKeys(rows), FindingKeys(caseId, found);
    && (forall m :: 0 <= m < |come| && come[m] !in have ==> PageOf(come[m]) !in PagesOf(have))
    && FreshPagesOnce(have, come, |come|)
  }

  /** Exactly when a scan leaves one row per page. */
  lemma OneRowPerPageIff(rows: seq<Row>, caseId: string, jobId: string, found: seq<Finding>)
    ensures OneRowPerPage(Upserted(rows, caseId, jobId, found, |found|)) <==>
            OneRowPerPage(rows) && NewKeysNewPages(rows, caseId, found)
  {
    var have, come := RowKeys(rows), FindingKeys(caseId, found);
    hide Upserted, RowKeys, FindingKeys, Fresh, FreshPagesOnce, Distinct, PageOf;
    var added := Fresh(have, come, |come|);
    KeysAfter(rows, caseId, jobId, found, |found|);
    PagesOfConcat(have, added);
    DistinctConcat(PagesOf(have), PagesOf(added));
    FreshPagesDistinctIff(have, come, |come|);
    hide PagesOf;
    forall p: Page
      ensures p in PagesOf(added) <==> FreshPageAt(have, come, |come|, p)
    {
      FreshPage(have, come, |come|, p);
    }
  }

  /** The same of every scan of a history. */
  ghost predicate AlwaysNewPages(scans: seq<Scan>) {
    forall n :: 0 <= n < |scans| ==> NewKeysNewPages(AfterScans(scans[..n]), scans[n].caseId, scans[n].found)
  }

  lemma NoPages()
    ensures OneRowPerPage(AfterScans([])) && AlwaysNewPages([])
  {
  }

  lemma AlwaysNewPagesStep(scans: seq<Scan>)
    requires scans != []
    ensures var n := |scans| - 1;
            AlwaysNewPages(scans) <==>
            AlwaysNewPages(scans[..n]) && NewKeysNewPages(AfterScans(scans[..n]), scans[n].caseId, scans[n].found)
  {
    hide AfterScans, NewKeysNewPages;
    var n := |scans| - 1;
    assert forall m :: 0 <= m < n ==> scans[..n][m] == scans[m] && scans[..n][..m] == scans[..m];
  }

  /** After any sequence of scans of any cases there is one row per page exactly when no scan brought a new key, for
      instance by a new provider list, with a page that had a row or got one in the same scan. */
  lemma {:induction false} HistoryOneRowPerPageIff(scans: seq<Scan>)
    ensures OneRowPerPage(AfterScans(scans)) <==> AlwaysNewPages(scans)
  {
    hide *;
    if scans == [] {
      NoPages();
    } else {
      var n := |scans| - 1;
      HistoryOneRowPerPageIff(scans[..n]);
      AfterScansStep(scans);
      AlwaysNewPagesStep(scans);
      OneRowPerPageIff(AfterScans(scans[..n]), scans[n].caseId, scans[n].jobId, scans[n].found);
    }
  }

  // ---- What deduplication contributes ----

  /** The finding read off the record of head h. */
  function HeadFinding(items: seq<Sighting>, h: nat): (f: Finding)
    requires h < |items|
  {
    Finding(items[h].resultUrl, items[h].domain, items[h].score, items[h].provenance,
            MergedUpTo(items, Receivers(AliasesOf(items)), h, |items|))
  }

  /** The findings the pipeline saves: one per stored record. */
  function FindingsOf(items: seq<Sighting>): (found: seq<Finding>)
    ensures |found| == |Keys(AliasesOf(items), |items|)|
  {
    var xs := AliasesOf(items);
    var ks := Keys(xs, |items|);
    seq(|ks|, k requires 0 <= k < |ks| => HeadFinding(items, Owner(xs, |items|, ks[k])))
  }

  /** Without a collision that is one finding per group, in arrival order, merged from its whole group. */
  lemma OneFindingPerGroup(items: seq<Sighting>, k: nat)
    requires NoCollision(AliasesOf(items), |items|) && k < |Heads(AliasesOf(items), |items|)|
    ensures |FindingsOf(items)| == |Heads(AliasesOf(items), |items|)|
    ensures var h := Heads(AliasesOf(items), |items|)[k];
            && FindingsOf(items)[k] == HeadFinding(items, h)
            && FindingsOf(items)[k].record == MergedUpTo(items, LeadersOf(AliasesOf(items)), h, |items|)
  {
    var xs := AliasesOf(items);
    hide Owner, Keys, Heads, NoCollision, Receivers, LeadersOf, MergedUpTo;
    KeysFollowHeads(xs, |items|);
    ReceiversAreLeaders(xs);
  }

  ghost predicate AllHavePageUrl(items: seq<Sighting>) {
    forall s :: s in items ==> Canonicalize(s.resultUrl) != NoUrl
  }

  /** Deduplicated findings clash on a row key only where a result has no page URL. */
  lemma HeadsGiveDistinctKeys(items: seq<Sighting>, caseId: string)
    requires AllHavePageUrl(items)
    ensures DistinctKeys(caseId, FindingsOf(items))
  {
    var xs := AliasesOf(items);
    var hs, found := Heads(xs, |items|), FindingsOf(items);
    hide Keys, Owner, Heads, FindingsOf, NoCollision, MergedUpTo;
    PageUrlsPreventCollision(xs);
    KeysFollowHeads(xs, |items|);
    forall i, j | 0 <= i < j < |found|
      ensures KeyOfFinding(caseId, found[i]) != KeyOfFinding(caseId, found[j])
    {
      OneFindingPerGroup(items, i);
      OneFindingPerGroup(items, j);
      HeadsDistinctUrls(xs, hs[i], hs[j]);
      assert items[hs[j]] in items;
    }
  }

  /** A finding read off a merged record. */
  function FindingOf(r: DiscoveryRecord): (f: Finding)
    reads r
  {
    Finding(r.resultUrl, r.domain, r.score, r.provenance, r.View())
  }

  lemma StoredAreFindings(out: seq<DiscoveryRecord>, results: seq<DiscoveryRecord>, items: seq<Sighting>)
    requires |results| == |items| && ListsStored(out, results, AliasesOf(items))
    requires GroupsMerged(results, items, AliasesOf(items), |items|)
    requires forall i :: 0 <= i < |items| ==>
               && results[i].resultUrl == items[i].resultUrl && results[i].provenance == items[i].provenance
               && results[i].domain == items[i].domain && results[i].score == items[i].score
    ensures |out| == |FindingsOf(items)|
    ensures forall k :: 0 <= k < |out| ==> FindingOf(out[k]) == FindingsOf(items)[k]
  {
    var xs := AliasesOf(items);
    var ks := Keys(xs, |items|);
    hide Keys, KeyOf, Leader, IsHead, Receivers;
    forall k | 0 <= k < |out| ensures FindingOf(out[k]) == FindingsOf(items)[k] {
      var h := Owner(xs, |items|, ks[k]);
      assert out[k] == results[h] && IsHead(xs, h);
      assert results[h].View() == MergedUpTo(items, Receivers(xs), h, |items|);
    }
  }

  /** The pipeline from the provider results to the table: deduplication in place, then the upserts, one finding per
      stored record.  If every result has a page URL, the rows stay unique. */
  method SaveDiscoveries(results: seq<DiscoveryRecord>, table: ResultTable, caseId: string, jobId: string)
    requires forall i, j :: 0 <= i < j < |results| ==> results[i] != results[j]
    modifies results, table
    ensures table.rows == Upserted(old(table.rows), caseId, jobId, FindingsOf(old(DeliveredAll(results))),
                                   |FindingsOf(old(DeliveredAll(results)))|)
    ensures old(UniqueRows(table.rows)) && AllHavePageUrl(old(DeliveredAll(results))) ==> UniqueRows(table.rows)
  {
    hide Upserted, RowKeys, FindingKeys, FindingsOf, NoCollision, UniqueRows, DistinctKeys, FreshOnce, ListsStored;
    hide GroupsMerged, ListsHeads, Heads, MergedUpTo, Keys, Canonicalize;
    ghost var items, before := DeliveredAll(results), table.rows;
    var out := Deduplicate(results);
    var found := seq(|out|, k requires 0 <= k < |out| reads out => FindingOf(out[k]));
    StoredAreFindings(out, results, items);
    assert found == FindingsOf(items);
    table.SaveScan(caseId, jobId, found);
    if UniqueRows(before) && AllHavePageUrl(items) {
      HeadsGiveDistinctKeys(items, caseId);
      StaysUniqueIff(before, caseId, jobId, found);
      DistinctComeOnce(before, caseId, found);
    }
  }

  lemma DistinctComeOnce(rows: seq<Row>, caseId: string, found: seq<Finding>)
    requires DistinctKeys(caseId, found)
    ensures FreshOnce(RowKeys(rows), FindingKeys(caseId, found), |found|)
  {
  }

  /** Two results with different pictures and no page URL stay two groups but share the row key, so the scan
      inserts two rows with one key. */
  lemma UrllessDuplicates(caseId: string, jobId: string, f: Finding, g: Finding)
    requires f.resultUrl == g.resultUrl == Missing && f.record.providers == g.record.providers
    ensures !UniqueRows(Upserted([], caseId, jobId, [f, g], 2))
  {
    StaysUniqueIff([], caseId, jobId, [f, g]);
    assert KeyOfFinding(caseId, [f, g][0]) == KeyOfFinding(caseId, [f, g][1]);
  }

  /** The key contains the provider list: a page that another provider reports as well later on is inserted
      a second time. */
  lemma ProviderListSplitsRows(caseId: string, f: Finding, g: Finding)
    requires f.resultUrl == g.resultUrl && f.record.providers == ["SearchAPI"]
    requires g.record.providers == ["SearchAPI", "SerpApi"]
    ensures var t := AfterScans([Scan(caseId, "1", [f]), Scan(caseId, "2", [g])]);
            |t| == 2 && t[0].sourceUrl == t[1].sourceUrl && t[0].provider != t[1].provider
  {
    var scans := [Scan(caseId, "1", [f]), Scan(caseId, "2", [g])];
    assert scans[..1] == [Scan(caseId, "1", [f])] && scans[..1][..0] == [];
    assert Join(["SearchAPI"]) == "SearchAPI";
    assert ["SearchAPI", "SerpApi"][1..] == ["SerpApi"];
    assert |Join(["SearchAPI", "SerpApi"])| > |"SearchAPI"|;
    var r := AfterScans(scans[..1]);
    assert r == Upserted([], caseId, "1", [f], 1) by { assert AfterScans(scans[..1][..0]) == []; }
    assert Upserted([], caseId, "1", [f], 0) == [];
    assert r == [Inserted(caseId, "1", f)];
    assert RowKeys(r) == [KeyOfFinding(caseId, f)];
    assert LastRow(r, KeyOfFinding(caseId, g)) == -1;
    assert Upserted(r, caseId, "2", [g], 0) == r;
  }
}
