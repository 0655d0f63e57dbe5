/** The grouping that deduplication computes, defined on the canonical (page URL, image URL) pairs of the
    results in arrival order, without any of the three dictionaries. */
module Grouping {
  import opened CanonicalUrl

  datatype Aliases = Aliases(url: Canon, img: Canon)

  /** The latest index below n whose page URL is c, or -1. */
  function LastUrl(xs: seq<Aliases>, n: nat, c: Canon): (r: int)
    requires n <= |xs|
    ensures -1 <= r < n
    ensures r >= 0 ==> xs[r].url == c
    ensures forall k :: r < k < n ==> xs[k].url != c
  {
    if n == 0 then -1 else if xs[n - 1].url == c then n - 1 else LastUrl(xs, n - 1, c)
  }

  /** The latest index below n whose image URL is c, or -1. */
  function LastImg(xs: seq<Aliases>, n: nat, c: Canon): (r: int)
    requires n <= |xs|
    ensures -1 <= r < n
    ensures r >= 0 ==> xs[r].img == c
    ensures forall k :: r < k < n ==> xs[k].img != c
  {
    if n == 0 then -1 else if xs[n - 1].img == c then n - 1 else LastImg(xs, n - 1, c)
  }

  /** The earlier result that result i is merged with: the latest with its page URL, else the latest with
      its image URL, else none (-1). */
  function Match(xs: seq<Aliases>, i: nat): (r: int)
    requires i < |xs|
    ensures -1 <= r < i
  {
    if xs[i].url != NoUrl && LastUrl(xs, i, xs[i].url) >= 0 then LastUrl(xs, i, xs[i].url)
    else if xs[i].img != NoUrl then LastImg(xs, i, xs[i].img)
    else -1
  }

  /** The result that opened the group of result i. */
  function Leader(xs: seq<Aliases>, i: nat): (h: nat)
    requires i < |xs|
    ensures h <= i
  {
    if Match(xs, i) < 0 then i else Leader(xs, Match(xs, i))
  }

  predicate IsHead(xs: seq<Aliases>, i: nat)
    requires i < |xs|
  {
    Match(xs, i) < 0
  }

  lemma {:induction false} LeaderIsHead(xs: seq<Aliases>, i: nat)
    requires i < |xs|
    ensures IsHead(xs, Leader(xs, i))
    ensures Leader(xs, Leader(xs, i)) == Leader(xs, i)
    ensures IsHead(xs, i) <==> Leader(xs, i) == i
  {
    if Match(xs, i) >= 0 {
      LeaderIsHead(xs, Match(xs, i));
    }
  }

  /** Results with the same page URL always share a group. */
  lemma {:induction false} SameUrlSameGroup(xs: seq<Aliases>, i: nat, j: nat)
    requires i <= j < |xs| && xs[i].url == xs[j].url != NoUrl
    ensures Leader(xs, i) == Leader(xs, j)
    decreases j
  {
    if i < j {
      SameUrlSameGroup(xs, i, LastUrl(xs, j, xs[j].url));
    }
  }

  /** Group heads have pairwise distinct page URLs. */
  lemma HeadsDistinctUrls(xs: seq<Aliases>, g: nat, h: nat)
    requires g < h < |xs| && IsHead(xs, g) && IsHead(xs, h)
    ensures xs[h].url == NoUrl || xs[g].url != xs[h].url
    ensures xs[h].img == NoUrl || xs[g].img != xs[h].img
  {
    if xs[h].url == xs[g].url {
      assert LastUrl(xs, h, xs[h].url) >= g;
    }
    if xs[h].img == xs[g].img {
      assert LastImg(xs, h, xs[h].img) >= g;
    }
  }

  // ---- Sharing, chains and bridges ----

  predicate Shares(a: Aliases, b: Aliases) {
    (a.url != NoUrl && a.url == b.url) || (a.img != NoUrl && a.img == b.img)
  }

  predicate IsChain(xs: seq<Aliases>, p: seq<nat>) {
    && p != []
    && (forall k :: 0 <= k < |p| ==> p[k] < |xs|)
    && (forall k :: 0 < k < |p| ==> Shares(xs[p[k - 1]], xs[p[k]]))
  }

  ghost predicate Connected(xs: seq<Aliases>, i: nat, j: nat) {
    exists p :: IsChain(xs, p) && p[0] == i && p[|p| - 1] == j
  }

  /** Every member is linked to its head by results that share a page or image URL one with the next. */
  lemma {:induction false} LeaderChain(xs: seq<Aliases>, i: nat) returns (p: seq<nat>)
    requires i < |xs|
    ensures IsChain(xs, p) && p[0] == i && p[|p| - 1] == Leader(xs, i)
  {
    if Match(xs, i) < 0 {
      p := [i];
    } else {
      var q := LeaderChain(xs, Match(xs, i));
      p := [i] + q;
    }
  }

  lemma {:induction false} ReverseChain(xs: seq<Aliases>, p: seq<nat>) returns (r: seq<nat>)
    requires IsChain(xs, p)
    ensures IsChain(xs, r) && r[0] == p[|p| - 1] && r[|r| - 1] == p[0]
  {
    r := seq(|p|, k requires 0 <= k < |p| => p[|p| - 1 - k]);
    forall k | 0 < k < |r| ensures Shares(xs[r[k - 1]], xs[r[k]]) {
      assert Shares(xs[p[|p| - 1 - k]], xs[p[|p| - k]]);
    }
  }

  lemma JoinChains(xs: seq<Aliases>, p: seq<nat>, q: seq<nat>)
    requires IsChain(xs, p) && IsChain(xs, q) && p[|p| - 1] == q[0]
    ensures IsChain(xs, p + q[1..])
    ensures (p + q[1..])[0] == p[0] && (p + q[1..])[|p + q[1..]| - 1] == q[|q| - 1]
  {
  }

  lemma SameGroupConnected(xs: seq<Aliases>, i: nat, j: nat)
    requires i < |xs| && j < |xs| && Leader(xs, i) == Leader(xs, j)
    ensures Connected(xs, i, j)
  {
    var p := LeaderChain(xs, i);
    var q0 := LeaderChain(xs, j);
    var q := ReverseChain(xs, q0);
    JoinChains(xs, p, q);
    assert IsChain(xs, p + q[1..]);
  }

  /** Result j was seen before by page URL in one group and by image URL in another: the page URL decides. */
  predicate Bridges(xs: seq<Aliases>, j: nat)
    requires j < |xs|
  {
    && xs[j].url != NoUrl && xs[j].img != NoUrl
    && LastUrl(xs, j, xs[j].url) >= 0
    && LastImg(xs, j, xs[j].img) >= 0
    && Leader(xs, LastUrl(xs, j, xs[j].url)) != Leader(xs, LastImg(xs, j, xs[j].img))
  }

  lemma {:induction false} SameImgSameGroup(xs: seq<Aliases>, i: nat, j: nat)
    requires forall k :: 0 <= k < |xs| ==> !Bridges(xs, k)
    requires i <= j < |xs| && xs[i].img == xs[j].img != NoUrl
    ensures Leader(xs, i) == Leader(xs, j)
    decreases j
  {
    if i < j {
      var m := LastImg(xs, j, xs[j].img);
      SameImgSameGroup(xs, i, m);
      assert !Bridges(xs, j);
    }
  }

  lemma {:induction false} ChainStaysInGroup(xs: seq<Aliases>, p: seq<nat>)
    requires forall k :: 0 <= k < |xs| ==> !Bridges(xs, k)
    requires IsChain(xs, p)
    ensures Leader(xs, p[0]) == Leader(xs, p[|p| - 1])
  {
    if |p| > 1 {
      var lo, hi := if p[0] <= p[1] then p[0] else p[1], if p[0] <= p[1] then p[1] else p[0];
      assert Shares(xs[p[0]], xs[p[1]]);
      if xs[p[0]].url != NoUrl && xs[p[0]].url == xs[p[1]].url {
        SameUrlSameGroup(xs, lo, hi);
      } else {
        SameImgSameGroup(xs, lo, hi);
      }
      assert IsChain(xs, p[1..]) by {
        forall k | 0 < k < |p[1..]| ensures Shares(xs[p[1..][k - 1]], xs[p[1..][k]]) {
          assert Shares(xs[p[k]], xs[p[k + 1]]);
        }
      }
      ChainStaysInGroup(xs, p[1..]);
    }
  }

  ghost predicate SameGroupIffConnected(xs: seq<Aliases>, i: nat, j: nat)
    requires i < |xs| && j < |xs|
  {
    Leader(xs, i) == Leader(xs, j) <==> Connected(xs, i, j)
  }

  lemma UnbridgedComponents(xs: seq<Aliases>, i: nat, j: nat)
    requires forall k :: 0 <= k < |xs| ==> !Bridges(xs, k)
    requires i < |xs| && j < |xs|
    ensures SameGroupIffConnected(xs, i, j)
  {
    hide Leader, Bridges;
    if Leader(xs, i) == Leader(xs, j) {
      SameGroupConnected(xs, i, j);
    }
    if Connected(xs, i, j) {
      var p :| IsChain(xs, p) && p[0] == i && p[|p| - 1] == j;
      ChainStaysInGroup(xs, p);
    }
  }

  lemma BridgeSplitsComponent(xs: seq<Aliases>, k: nat) returns (m: nat)
    requires k < |xs| && Bridges(xs, k)
    ensures m < |xs| && !SameGroupIffConnected(xs, m, k)
  {
    m := LastImg(xs, k, xs[k].img);
    assert Shares(xs[m], xs[k]);
    assert IsChain(xs, [m, k]);
    assert Connected(xs, m, k);
    assert Leader(xs, k) != Leader(xs, m);
  }

  /** The groups are exactly the connected components of "shares a page or image URL" if and only if no
      result bridges two groups.  Otherwise results that share an image stay apart. */
  lemma ComponentsIff(xs: seq<Aliases>)
    ensures (forall i: nat, j: nat :: i < |xs| && j < |xs| ==> SameGroupIffConnected(xs, i, j))
       <==> (forall k :: 0 <= k < |xs| ==> !Bridges(xs, k))
  {
    hide SameGroupIffConnected, Bridges;
    if forall k :: 0 <= k < |xs| ==> !Bridges(xs, k) {
      forall i: nat, j: nat | i < |xs| && j < |xs| ensures SameGroupIffConnected(xs, i, j) {
        UnbridgedComponents(xs, i, j);
      }
    } else {
      var k :| 0 <= k < |xs| && Bridges(xs, k);
      var m := BridgeSplitsComponent(xs, k);
    }
  }

  // ---- Dictionary keys ----

  datatype Key = UrlKey(c: Canon) | RawKey(stored: nat)

  /** The key under which a new record is stored: page URL, else image URL, else a running number. */
  function FreshKey(a: Aliases, stored: nat): (k: Key) {
    if a.url != NoUrl then UrlKey(a.url)
    else if a.img != NoUrl then UrlKey(a.img)
    else RawKey(stored)
  }

  /** The keys of the record dictionary after n results, in insertion order. */
  function Keys(xs: seq<Aliases>, n: nat): (r: seq<Key>)
    requires n <= |xs|
  {
    if n == 0 then []
    else
      var prev := Keys(xs, n - 1);
      var k := FreshKey(xs[n - 1], |prev|);
      if IsHead(xs, n - 1) && k !in prev then prev + [k] else prev
  }

  function KeyOf(xs: seq<Aliases>, h: nat): (k: Key)
    requires h < |xs|
  {
    FreshKey(xs[h], |Keys(xs, h)|)
  }

  /** The head whose record currently sits under key k. */
  function Owner(xs: seq<Aliases>, n: nat, k: Key): (h: nat)
    requires n <= |xs| && k in Keys(xs, n)
    ensures h < n && IsHead(xs, h) && KeyOf(xs, h) == k
  {
    if IsHead(xs, n - 1) && KeyOf(xs, n - 1) == k then n - 1 else Owner(xs, n - 1, k)
  }

  lemma OwnerStep(xs: seq<Aliases>, n: nat, k: Key)
    requires 1 <= n <= |xs| && k in Keys(xs, n)
    ensures IsHead(xs, n - 1) && KeyOf(xs, n - 1) == k ==> Owner(xs, n, k) == n - 1
    ensures !(IsHead(xs, n - 1) && KeyOf(xs, n - 1) == k) ==>
              k in Keys(xs, n - 1) && Owner(xs, n, k) == Owner(xs, n - 1, k)
  {
    hide IsHead;
  }

  /** The record under a key is that of the latest head that was given the key. */
  lemma {:induction false} OwnerIsLatest(xs: seq<Aliases>, n: nat, k: Key, g: nat)
    requires n <= |xs| && k in Keys(xs, n)
    requires g < n && IsHead(xs, g) && KeyOf(xs, g) == k
    ensures g <= Owner(xs, n, k)
  {
    hide *;
    OwnerStep(xs, n, k);
    if g < n - 1 && !(IsHead(xs, n - 1) && KeyOf(xs, n - 1) == k) {
      OwnerIsLatest(xs, n - 1, k, g);
    }
  }

  lemma {:induction false} HeadKeyStored(xs: seq<Aliases>, n: nat, h: nat)
    requires h < n <= |xs| && IsHead(xs, h)
    ensures KeyOf(xs, h) in Keys(xs, n)
  {
    if h < n - 1 {
      HeadKeyStored(xs, n - 1, h);
    }
  }

  lemma {:induction false} KeysDistinct(xs: seq<Aliases>, n: nat)
    requires n <= |xs|
    ensures forall i, j :: 0 <= i < j < |Keys(xs, n)| ==> Keys(xs, n)[i] != Keys(xs, n)[j]
    ensures forall k :: k in Keys(xs, n) && k.RawKey? ==> k.stored < |Keys(xs, n)|
  {
    if n > 0 {
      KeysDistinct(xs, n - 1);
    }
  }

  /** Head h is about to overwrite another record. */
  predicate Collides(xs: seq<Aliases>, h: nat)
    requires h < |xs|
  {
    IsHead(xs, h) && KeyOf(xs, h) in Keys(xs, h)
  }

  /** A head with a page URL meets an older head known only by that address as an image, or the reverse. */
  predicate Crosses(older: Aliases, newer: Aliases) {
    if newer.url != NoUrl then older.url == NoUrl && older.img == newer.url
    else newer.img != NoUrl && older.url == newer.img
  }

  /** Exactly when storing a new record overwrites an older one. */
  lemma CollidesIff(xs: seq<Aliases>, h: nat)
    requires h < |xs| && IsHead(xs, h)
    ensures Collides(xs, h) <==> exists g :: 0 <= g < h && IsHead(xs, g) && Crosses(xs[g], xs[h])
  {
    KeysDistinct(xs, h);
    if Collides(xs, h) {
      var g := Owner(xs, h, KeyOf(xs, h));
      HeadsDistinctUrls(xs, g, h);
      assert IsHead(xs, g) && Crosses(xs[g], xs[h]);
    }
    if g :| 0 <= g < h && IsHead(xs, g) && Crosses(xs[g], xs[h]) {
      HeadKeyStored(xs, h, g);
      assert KeyOf(xs, g) == KeyOf(xs, h);
    }
  }

  ghost predicate NoCollision(xs: seq<Aliases>, n: nat)
    requires n <= |xs|
  {
    forall h :: 0 <= h < n ==> !Collides(xs, h)
  }

  /** When every result has a page URL, which is what the response parsers guarantee, nothing collides. */
  lemma PageUrlsPreventCollision(xs: seq<Aliases>)
    requires forall a :: a in xs ==> a.url != NoUrl
    ensures NoCollision(xs, |xs|)
  {
    forall h | 0 <= h < |xs| ensures !Collides(xs, h) {
      if IsHead(xs, h) {
        CollidesIff(xs, h);
        assert forall g :: 0 <= g < h ==> xs[g] in xs;
      }
    }
  }

  /** Head h still has its record in the dictionary after n results. */
  predicate Survives(xs: seq<Aliases>, n: nat, h: nat)
    requires h < n <= |xs|
  {
    IsHead(xs, h) && Owner(xs, n, (HeadKeyStored(xs, n, h); KeyOf(xs, h))) == h
  }

  /** No record is lost if and only if no new record collides with a stored key. */
  lemma NothingLostIff(xs: seq<Aliases>)
    ensures (forall h :: 0 <= h < |xs| && IsHead(xs, h) ==> Survives(xs, |xs|, h)) <==> NoCollision(xs, |xs|)
  {
    var n := |xs|;
    if NoCollision(xs, n) {
      forall h | 0 <= h < n && IsHead(xs, h) ensures Survives(xs, n, h) {
        OwnerOfHeadKey(xs, n, h);
      }
    } else {
      var h :| 0 <= h < n && Collides(xs, h);
      var g := Owner(xs, h, KeyOf(xs, h));
      HeadKeyStored(xs, n, g);
      OwnerIsLatest(xs, n, KeyOf(xs, g), h);
      assert !Survives(xs, n, g);
    }
  }

  /** The indices of the group heads below n, in arrival order. */
  function Heads(xs: seq<Aliases>, n: nat): (r: seq<nat>)
    requires n <= |xs|
    ensures forall i {:trigger r[i]} :: 0 <= i < |r| ==> r[i] < n && IsHead(xs, r[i])
    ensures forall i, j :: 0 <= i < j < |r| ==> r[i] < r[j]
    ensures forall h {:trigger h in r} :: 0 <= h < n && IsHead(xs, h) ==> h in r
  {
    if n == 0 then []
    else if IsHead(xs, n - 1) then Heads(xs, n - 1) + [n - 1]
    else Heads(xs, n - 1)
  }

  lemma {:induction false} OneKeyPerHead(xs: seq<Aliases>, n: nat)
    requires n <= |xs| && NoCollision(xs, n)
    ensures |Keys(xs, n)| == |Heads(xs, n)|
  {
    if n > 0 {
      OneKeyPerHead(xs, n - 1);
      assert !Collides(xs, n - 1);
    }
  }

  lemma {:induction false} KeyAtIsHeadKey(xs: seq<Aliases>, n: nat, i: nat)
    requires n <= |xs| && NoCollision(xs, n) && i < |Keys(xs, n)|
    ensures i < |Heads(xs, n)| && Keys(xs, n)[i] == KeyOf(xs, Heads(xs, n)[i])
  {
    OneKeyPerHead(xs, n);
    OneKeyPerHead(xs, n - 1);
    assert !Collides(xs, n - 1);
    if i < |Keys(xs, n - 1)| {
      KeyAtIsHeadKey(xs, n - 1, i);
    }
  }

  lemma OwnerOfHeadKey(xs: seq<Aliases>, n: nat, h: nat)
    requires h < n <= |xs| && NoCollision(xs, n) && IsHead(xs, h)
    ensures KeyOf(xs, h) in Keys(xs, n) && Owner(xs, n, KeyOf(xs, h)) == h
  {
    HeadKeyStored(xs, n, h);
    var g := Owner(xs, n, KeyOf(xs, h));
    OwnerIsLatest(xs, n, KeyOf(xs, h), h);
    if g > h {
      HeadKeyStored(xs, g, h);
      assert Collides(xs, g);
    }
  }

  /** Without collisions the dictionary lists one record per head, in arrival order. */
  lemma KeysFollowHeads(xs: seq<Aliases>, n: nat)
    requires n <= |xs| && NoCollision(xs, n)
    ensures |Keys(xs, n)| == |Heads(xs, n)|
    ensures forall i :: 0 <= i < |Keys(xs, n)| ==> Owner(xs, n, Keys(xs, n)[i]) == Heads(xs, n)[i]
  {
    OneKeyPerHead(xs, n);
    forall i | 0 <= i < |Keys(xs, n)| ensures Owner(xs, n, Keys(xs, n)[i]) == Heads(xs, n)[i] {
      KeyAtIsHeadKey(xs, n, i);
      OwnerOfHeadKey(xs, n, Heads(xs, n)[i]);
    }
  }

  // ---- The alias dictionaries ----

  /** m maps every page URL seen among the first n results to the key of its group. */
  ghost predicate UrlIndex(xs: seq<Aliases>, n: nat, m: map<Canon, Key>)
    requires n <= |xs|
  {
    forall c :: (c in m <==> c != NoUrl && LastUrl(xs, n, c) >= 0) &&
                (c in m ==> m[c] == KeyOf(xs, Leader(xs, LastUrl(xs, n, c))))
  }

  /** m maps every image URL seen among the first n results to the key of the group it was last seen in. */
  ghost predicate ImgIndex(xs: seq<Aliases>, n: nat, m: map<Canon, Key>)
    requires n <= |xs|
  {
    forall c :: (c in m <==> c != NoUrl && LastImg(xs, n, c) >= 0) &&
                (c in m ==> m[c] == KeyOf(xs, Leader(xs, LastImg(xs, n, c))))
  }

  lemma LastUrlStep(xs: seq<Aliases>, n: nat, c: Canon)
    requires n < |xs|
    ensures LastUrl(xs, n + 1, c) == if xs[n].url == c then n else LastUrl(xs, n, c)
  {
  }

  lemma LastImgStep(xs: seq<Aliases>, n: nat, c: Canon)
    requires n < |xs|
    ensures LastImg(xs, n + 1, c) == if xs[n].img == c then n else LastImg(xs, n, c)
  {
  }

  lemma UrlIndexStep(xs: seq<Aliases>, n: nat, m: map<Canon, Key>)
    requires n < |xs| && UrlIndex(xs, n, m)
    ensures UrlIndex(xs, n + 1, if xs[n].url == NoUrl then m else m[xs[n].url := KeyOf(xs, Leader(xs, n))])
  {
    hide LastUrl, Leader, KeyOf;
    forall c: Canon ensures LastUrl(xs, n + 1, c) == if xs[n].url == c then n else LastUrl(xs, n, c) {
      LastUrlStep(xs, n, c);
    }
  }

  lemma ImgIndexStep(xs: seq<Aliases>, n: nat, m: map<Canon, Key>)
    requires n < |xs| && ImgIndex(xs, n, m)
    ensures ImgIndex(xs, n + 1, if xs[n].img == NoUrl then m else m[xs[n].img := KeyOf(xs, Leader(xs, n))])
  {
    hide LastImg, Leader, KeyOf;
    forall c: Canon ensures LastImg(xs, n + 1, c) == if xs[n].img == c then n else LastImg(xs, n, c) {
      LastImgStep(xs, n, c);
    }
  }

  /** Looking result n up by page URL, then by image URL, finds the key of its group. */
  lemma IndexLookup(xs: seq<Aliases>, n: nat, u: map<Canon, Key>, m: map<Canon, Key>)
    requires n < |xs| && UrlIndex(xs, n, u) && ImgIndex(xs, n, m)
    ensures IsHead(xs, n) <==> xs[n].url !in u && xs[n].img !in m
    ensures xs[n].url in u ==> u[xs[n].url] == KeyOf(xs, Leader(xs, n))
    ensures xs[n].url !in u && xs[n].img in m ==> m[xs[n].img] == KeyOf(xs, Leader(xs, n))
  {
  }

  /** The page URL index only grows and never redirects a URL. */
  lemma UrlIndexExtends(xs: seq<Aliases>, i: nat, n: nat, u: map<Canon, Key>, v: map<Canon, Key>)
    requires i <= n <= |xs| && UrlIndex(xs, i, u) && UrlIndex(xs, n, v)
    ensures forall c :: c in u ==> c in v && v[c] == u[c]
  {
    forall c | c in u ensures c in v && v[c] == u[c] {
      assert LastUrl(xs, n, c) >= LastUrl(xs, i, c) >= 0;
      SameUrlSameGroup(xs, LastUrl(xs, i, c), LastUrl(xs, n, c));
    }
  }

  function LeadersOf(xs: seq<Aliases>): (led: seq<nat>)
    ensures |led| == |xs|
    ensures forall i :: 0 <= i < |xs| ==> led[i] == Leader(xs, i) <= i
  {
    seq(|xs|, i requires 0 <= i < |xs| => Leader(xs, i))
  }

  // ---- Which record receives a result ----

  /** The result whose record takes in result i: itself if it opens a group, else whatever then lies under the key of
      its group. */
  function Receiver(xs: seq<Aliases>, i: nat): (r: nat)
    requires i < |xs|
    ensures r <= i && IsHead(xs, r)
    ensures IsHead(xs, i) ==> r == i
  {
    LeaderIsHead(xs, i);
    if IsHead(xs, i) then i
    else
      HeadKeyStored(xs, i, Leader(xs, i));
      Owner(xs, i, KeyOf(xs, Leader(xs, i)))
  }

  function Receivers(xs: seq<Aliases>): (led: seq<nat>)
    ensures |led| == |xs|
    ensures forall i {:trigger led[i]} :: 0 <= i < |xs| ==> led[i] == Receiver(xs, i) <= i
  {
    seq(|xs|, i requires 0 <= i < |xs| => Receiver(xs, i))
  }

  /** Without collisions every result is taken in by the head of its own group; with one, members of the overwritten
      group go to the record that took its place. */
  lemma ReceiversAreLeaders(xs: seq<Aliases>)
    requires NoCollision(xs, |xs|)
    ensures Receivers(xs) == LeadersOf(xs)
  {
    hide Owner, Keys, KeyOf, Leader;
    forall i | 0 <= i < |xs| ensures Receivers(xs)[i] == LeadersOf(xs)[i] {
      LeaderIsHead(xs, i);
      if !IsHead(xs, i) {
        OwnerOfHeadKey(xs, i, Leader(xs, i));
      }
    }
  }

  // ---- Concrete failing inputs ----

  const SITE_A := Canon("http", "a", "", [])
  const SITE_B := Canon("http", "b", "", [])
  const PICTURE := Canon("http", "x", "/p", [])

  /** Two pages show one picture, and the first page is reported again with it: the picture ends up in both
      groups although both results share it. */
  lemma BridgeExample()
    ensures var xs := [Aliases(SITE_A, NoUrl), Aliases(SITE_B, PICTURE), Aliases(SITE_A, PICTURE)];
            Bridges(xs, 2) && Shares(xs[1], xs[2]) && Leader(xs, 1) != Leader(xs, 2)
  {
    var xs := [Aliases(SITE_A, NoUrl), Aliases(SITE_B, PICTURE), Aliases(SITE_A, PICTURE)];
    assert SITE_A.host != SITE_B.host;
    assert xs[1].url != xs[0].url;
    assert LastUrl(xs, 2, xs[2].url) == 0;
    assert LastImg(xs, 2, xs[2].img) == 1;
    assert Match(xs, 1) == -1 && Match(xs, 0) == -1;
    assert Leader(xs, 2) == 0 && Leader(xs, 1) == 1;
  }

  /** A result without page URL, then a page whose address is that image: the first record is overwritten. */
  lemma CollisionExample()
    ensures var xs := [Aliases(NoUrl, PICTURE), Aliases(PICTURE, NoUrl)];
            Collides(xs, 1) && !Survives(xs, 2, 0)
  {
    var xs := [Aliases(NoUrl, PICTURE), Aliases(PICTURE, NoUrl)];
    assert Match(xs, 0) == -1 && Match(xs, 1) == -1;
    assert Keys(xs, 1) == [UrlKey(PICTURE)] by { assert Keys(xs, 0) == []; }
    HeadKeyStored(xs, 2, 0);
    assert KeyOf(xs, 1) == UrlKey(PICTURE) == KeyOf(xs, 0);
  }
}
