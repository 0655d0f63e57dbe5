/** URL canonicalisation for cross-provider deduplication, on already parsed URLs. */
module CanonicalUrl {
  import opened Text

  type Param = (string, string)

  /** The parts urllib's parser yields; `query` lists the pairs in textual order, blank values included. */
  datatype UrlParts = UrlParts(scheme: string, netloc: string, path: string, params: string,
                               query: seq<Param>, fragment: string)

  /** A URL field of a provider result.  `Missing` is None or the empty text; `Blank` is white space only;
      `Malformed` is a text the parser raises on. */
  datatype RawUrl =
    | Missing
    | Blank(text: string)
    | Malformed(text: string)
    | Parsed(text: string, parts: UrlParts)

  /** Canonical forms.  `NoUrl` stands for the empty string. */
  datatype Canon =
    | NoUrl
    | Verbatim(text: string)
    | Canon(scheme: string, host: string, path: string, query: seq<Param>)

  const TRACKING: set<string> :=
    {"utm_source", "utm_medium", "utm_campaign", "utm_term", "utm_content", "fbclid", "gclid", "ref"}

  /** Whether a query pair survives: it has a value and is no tracking parameter. */
  predicate Kept(p: Param) { p.1 != "" && Lower(p.0) !in TRACKING }

  function CleanQuery(q: seq<Param>): (r: seq<Param>) {
    if q == [] then []
    else if Kept(q[0]) then [q[0]] + CleanQuery(q[1..])
    else CleanQuery(q[1..])
  }

  // ---- Python's ordering of (str, str) tuples ----

  predicate TextLe(a: string, b: string) {
    a == [] || (b != [] && (a[0] < b[0] || (a[0] == b[0] && TextLe(a[1..], b[1..]))))
  }

  predicate ParamLe(p: Param, q: Param) {
    if p.0 == q.0 then TextLe(p.1, q.1) else TextLe(p.0, q.0)
  }

  lemma TextLeTotal(a: string, b: string)
    ensures TextLe(a, b) || TextLe(b, a)
  {
  }

  lemma {:induction false} TextLeAntisymmetric(a: string, b: string)
    requires TextLe(a, b) && TextLe(b, a)
    ensures a == b
  {
    if a != [] {
      TextLeAntisymmetric(a[1..], b[1..]);
      assert a == [a[0]] + a[1..] && b == [b[0]] + b[1..];
    }
  }

  lemma {:induction false} TextLeTransitive(a: string, b: string, c: string)
    requires TextLe(a, b) && TextLe(b, c)
    ensures TextLe(a, c)
  {
    if a != [] && a[0] == b[0] == c[0] {
      TextLeTransitive(a[1..], b[1..], c[1..]);
    }
  }

  lemma ParamLeTotal(p: Param, q: Param)
    ensures ParamLe(p, q) || ParamLe(q, p)
  {
    TextLeTotal(p.0, q.0);
    TextLeTotal(p.1, q.1);
  }

  lemma ParamLeAntisymmetric(p: Param, q: Param)
    requires ParamLe(p, q) && ParamLe(q, p)
    ensures p == q
  {
    if p.0 == q.0 {
      TextLeAntisymmetric(p.1, q.1);
    } else {
      TextLeAntisymmetric(p.0, q.0);
    }
  }

  lemma ParamLeTransitive(p: Param, q: Param, r: Param)
    requires ParamLe(p, q) && ParamLe(q, r)
    ensures ParamLe(p, r)
  {
    if p.0 == q.0 && q.0 == r.0 {
      TextLeTransitive(p.1, q.1, r.1);
    } else if p.0 != q.0 && q.0 != r.0 {
      TextLeTransitive(p.0, q.0, r.0);
      if p.0 == r.0 {
        TextLeAntisymmetric(p.0, q.0);
      }
    }
  }

  ghost predicate Ordered(s: seq<Param>) {
    forall i, j :: 0 <= i < j < |s| ==> ParamLe(s[i], s[j])
  }

  function Insert(p: Param, s: seq<Param>): (r: seq<Param>)
    ensures multiset(r) == multiset{p} + multiset(s)
  {
    if s == [] || ParamLe(p, s[0]) then [p] + s
    else
      assert s == [s[0]] + s[1..];
      [s[0]] + Insert(p, s[1..])
  }

  lemma {:induction false} InsertOrdered(p: Param, s: seq<Param>)
    requires Ordered(s)
    ensures Ordered(Insert(p, s))
  {
    var r := Insert(p, s);
    if s == [] {
    } else if ParamLe(p, s[0]) {
      forall j | 0 < j < |r| ensures ParamLe(r[0], r[j]) {
        if j > 1 { ParamLeTransitive(p, s[0], s[j - 1]); }
      }
    } else {
      ParamLeTotal(p, s[0]);
      InsertOrdered(p, s[1..]);
      forall j | 0 < j < |r| ensures ParamLe(r[0], r[j]) {
        assert r[j] in multiset(Insert(p, s[1..]));
        assert r[j] == p || r[j] in multiset(s[1..]);
      }
    }
  }

  /** Python's `sorted` on query pairs. */
  function Sort(s: seq<Param>): (r: seq<Param>)
    ensures Ordered(r) && multiset(r) == multiset(s)
  {
    if s == [] then []
    else
      assert s == [s[0]] + s[1..];
      InsertOrdered(s[0], Sort(s[1..]));
      Insert(s[0], Sort(s[1..]))
  }

  lemma SameHead(a: seq<Param>, b: seq<Param>)
    requires Ordered(a) && Ordered(b) && multiset(a) == multiset(b) && a != [] && b != []
    ensures a[0] == b[0]
  {
    assert a[0] in multiset(b) && b[0] in multiset(a);
    var i :| 0 <= i < |b| && b[i] == a[0];
    var j :| 0 <= j < |a| && a[j] == b[0];
    if i > 0 && j > 0 {
      ParamLeAntisymmetric(a[0], b[0]);
    }
  }

  lemma TailMultiset(a: seq<Param>)
    requires a != []
    ensures multiset(a[1..]) == multiset(a) - multiset{a[0]}
  {
    assert a == [a[0]] + a[1..];
  }

  /** A sorted list is determined by its multiset of elements. */
  lemma {:induction false} OrderedUnique(a: seq<Param>, b: seq<Param>)
    requires Ordered(a) && Ordered(b) && multiset(a) == multiset(b)
    ensures a == b
  {
    assert |a| == |multiset(a)| == |multiset(b)| == |b|;
    if a != [] {
      SameHead(a, b);
      TailMultiset(a);
      TailMultiset(b);
      OrderedUnique(a[1..], b[1..]);
      assert a == [a[0]] + a[1..] && b == [b[0]] + b[1..];
    }
  }

  lemma {:induction false} CleanQueryCounts(q: seq<Param>, p: Param)
    ensures multiset(CleanQuery(q))[p] == if Kept(p) then multiset(q)[p] else 0
  {
    if q != [] {
      assert q == [q[0]] + q[1..];
      CleanQueryCounts(q[1..], p);
    }
  }

  function Scheme(u: UrlParts): (s: string) {
    Lower(if u.scheme == "" then "http" else u.scheme)
  }

  function Host(u: UrlParts): (s: string) {
    var h := Lower(u.netloc);
    if StartsWith(h, "www.") then h[4..] else h
  }

  function Canonicalize(raw: RawUrl): (c: Canon)
    ensures c == NoUrl <==> raw.Missing? || raw.Blank?
  {
    match raw
    case Missing => NoUrl
    case Blank(_) => NoUrl
    case Malformed(text) => Verbatim(StripSlashes(Lower(text)))
    case Parsed(_, u) => Canon(Scheme(u), Host(u), StripSlashes(u.path), Sort(CleanQuery(u.query)))
  }

  /** The parameter names that are dropped, in any letter case. */
  predicate NamesTracker(k: string) {
    || AnyCase(k, "utm_source") || AnyCase(k, "utm_medium") || AnyCase(k, "utm_campaign") || AnyCase(k, "utm_term")
    || AnyCase(k, "utm_content") || AnyCase(k, "fbclid") || AnyCase(k, "gclid") || AnyCase(k, "ref")
  }

  lemma LowerNames()
    ensures forall t :: t in TRACKING ==> Lower(t) == t
  {
    assert Lower("utm_source") == "utm_source" && Lower("utm_medium") == "utm_medium";
    assert Lower("utm_campaign") == "utm_campaign" && Lower("utm_term") == "utm_term";
    assert Lower("utm_content") == "utm_content" && Lower("fbclid") == "fbclid";
    assert Lower("gclid") == "gclid" && Lower("ref") == "ref";
  }

  lemma TrackerIff(k: string)
    ensures Lower(k) in TRACKING <==> NamesTracker(k)
  {
    LowerNames();
    LowerIff(k, "utm_source");
    LowerIff(k, "utm_medium");
    LowerIff(k, "utm_campaign");
    LowerIff(k, "utm_term");
    LowerIff(k, "utm_content");
    LowerIff(k, "fbclid");
    LowerIff(k, "gclid");
    LowerIff(k, "ref");
    hide Lower, AnyCase;
    assert TRACKING == {"utm_source", "utm_medium", "utm_campaign", "utm_term", "utm_content", "fbclid", "gclid", "ref"};
  }

  /** The parts of the canonical form of a parsed URL. */
  lemma CanonicalParts(t: string, u: UrlParts)
    ensures var c := Canonicalize(Parsed(t, u));
            && c.Canon?
            && c.scheme == (if u.scheme == "" then "http" else Lower(u.scheme))
            && (Lower(u.netloc) == "www." + c.host ||
                (Lower(u.netloc) == c.host && !StartsWith(Lower(u.netloc), "www.")))
            && c.path <= u.path && (c.path == "" || c.path[|c.path| - 1] != '/')
            && (forall i :: |c.path| <= i < |u.path| ==> u.path[i] == '/')
    ensures Ordered(Canonicalize(Parsed(t, u)).query)
    ensures forall p :: multiset(Canonicalize(Parsed(t, u)).query)[p] ==
                        if p.1 != "" && !NamesTracker(p.0) then multiset(u.query)[p] else 0
  {
    assert Lower("http") == "http";
    forall p: Param
      ensures multiset(Sort(CleanQuery(u.query)))[p] ==
              if p.1 != "" && !NamesTracker(p.0) then multiset(u.query)[p] else 0
    {
      TrackerIff(p.0);
      CleanQueryCounts(u.query, p);
    }
    var h := Lower(u.netloc);
    if StartsWith(h, "www.") {
      assert h == h[..4] + h[4..];
    }
    hide CleanQuery, NamesTracker, Lower, StripSlashes;
  }

  lemma MalformedParts(t: string)
    ensures var c := Canonicalize(Malformed(t));
            && c.Verbatim? && c.text <= Lower(t) && (c.text == "" || c.text[|c.text| - 1] != '/')
            && forall i :: |c.text| <= i < |t| ==> t[i] == '/'
  {
    assert forall i :: 0 <= i < |t| ==> (Lower(t)[i] == '/' <==> t[i] == '/');
  }

  /** Inserting a query pair anywhere leaves the canonical form as it is exactly when the pair has no value or its
      name is, in some letter case, one of the eight tracking parameters. */
  lemma InsertedPairIff(t1: string, u: UrlParts, t2: string, at: nat, k: string, v: string)
    requires at <= |u.query|
    ensures Canonicalize(Parsed(t2, u.(query := u.query[..at] + [(k, v)] + u.query[at..]))) ==
            Canonicalize(Parsed(t1, u))
            <==>
            || v == ""
            || AnyCase(k, "utm_source") || AnyCase(k, "utm_medium") || AnyCase(k, "utm_campaign")
            || AnyCase(k, "utm_term") || AnyCase(k, "utm_content") || AnyCase(k, "fbclid") || AnyCase(k, "gclid")
            || AnyCase(k, "ref")
  {
    var w := u.(query := u.query[..at] + [(k, v)] + u.query[at..]);
    TrackerIff(k);
    SameCanonIff(t2, w, t1, u);
    assert u.query == u.query[..at] + u.query[at..];
    assert multiset(w.query) == multiset(u.query) + multiset{(k, v)};
    assert multiset(w.query)[(k, v)] == multiset(u.query)[(k, v)] + 1;
    hide Canonicalize, Scheme, Host, StripSlashes, AnyCase, Lower;
  }

  /** Exactly when two parsed URLs are identified: same scheme and host, same path up to trailing slashes,
      and every kept query pair occurring equally often.  Fragment, params, pair order and dropped pairs
      never matter. */
  lemma SameCanonIff(t1: string, u: UrlParts, t2: string, v: UrlParts)
    ensures Canonicalize(Parsed(t1, u)) == Canonicalize(Parsed(t2, v)) <==>
            && Scheme(u) == Scheme(v)
            && Host(u) == Host(v)
            && StripSlashes(u.path) == StripSlashes(v.path)
            && forall p | Kept(p) :: multiset(u.query)[p] == multiset(v.query)[p]
  {
    var a, b := CleanQuery(u.query), CleanQuery(v.query);
    if forall p | Kept(p) :: multiset(u.query)[p] == multiset(v.query)[p] {
      forall p: Param ensures multiset(a)[p] == multiset(b)[p] {
        CleanQueryCounts(u.query, p);
        CleanQueryCounts(v.query, p);
      }
      assert multiset(a) == multiset(b);
      OrderedUnique(Sort(a), Sort(b));
    }
    if Sort(a) == Sort(b) {
      forall p | Kept(p) ensures multiset(u.query)[p] == multiset(v.query)[p] {
        assert multiset(a) == multiset(b);
        CleanQueryCounts(u.query, p);
        CleanQueryCounts(v.query, p);
      }
    }
  }

  /** Rewriting a URL the way providers do does not change its canonical form: permuted pairs, one more
      dropped pair anywhere, another letter case or a leading `www.` in the host, more slashes at the end,
      any fragment and params. */
  lemma CanonInvariant(t1: string, u: UrlParts, t2: string, v: UrlParts,
                       permuted: seq<Param>, dropped: Param, at: nat, slashes: nat)
    requires multiset(permuted) == multiset(u.query)
    requires at <= |permuted| && !Kept(dropped)
    requires v.query == permuted[..at] + [dropped] + permuted[at..]
    requires Lower(v.netloc) == Lower(u.netloc) ||
             (!StartsWith(Lower(u.netloc), "www.") && Lower(v.netloc) == "www." + Lower(u.netloc))
    requires v.path == u.path + seq(slashes, i => '/')
    requires Lower(v.scheme) == Lower(u.scheme)
    ensures Canonicalize(Parsed(t1, u)) == Canonicalize(Parsed(t2, v))
  {
    assert permuted == permuted[..at] + permuted[at..];
    assert multiset(v.query) == multiset(permuted) + multiset{dropped};
    var r := StripSlashes(u.path);
    assert r <= v.path && forall i :: |r| <= i < |v.path| ==> v.path[i] == '/';
    StripSlashesUnique(v.path, r);
    assert Scheme(u) == Scheme(v);
    assert Host(u) == Host(v) by {
      if Lower(v.netloc) != Lower(u.netloc) {
        var h := Lower(v.netloc);
        assert h[..4] == "www." && h[4..] == Lower(u.netloc);
      }
    }
    SameCanonIff(t1, u, t2, v);
  }

  /** The schemes whose last path segment the parser splits at a semicolon. */
  const WITH_PARAMS: set<string> :=
    {"", "ftp", "hdl", "prospero", "http", "https", "shttp", "rtsp", "rtspu", "sip", "sips", "mms", "sftp", "tel"}

  /** The position after the last slash. */
  function LastSegment(path: string): (i: nat)
    ensures i <= |path|
  {
    if path == [] || path[|path| - 1] == '/' then |path| else LastSegment(path[..|path| - 1])
  }

  predicate HasParams(path: string) { ';' in path[LastSegment(path)..] }

  function UpTo(s: string, c: char): (r: string)
    ensures r <= s
    ensures r == s <==> c !in s
  {
    if s == [] || s[0] == c then [] else [s[0]] + UpTo(s[1..], c)
  }

  /** The path without the params of its last segment. */
  function WithoutParams(path: string): (r: string)
    ensures r == path <==> !HasParams(path)
    ensures |r| <= |path|
  {
    var i := LastSegment(path);
    assert path == path[..i] + path[i..];
    path[..i] + UpTo(path[i..], ';')
  }

  /** Reading a canonical form as a URL again. */
  function Reparse(c: Canon): (u: UrlParts)
    requires c.Canon?
  {
    var path := if c.scheme in WITH_PARAMS then WithoutParams(c.path) else c.path;
    UrlParts(c.scheme, c.host, path, c.path[|path|..], c.query, "")
  }

  lemma {:induction false} CleanQueryKeeps(q: seq<Param>)
    requires forall p :: p in q ==> Kept(p)
    ensures CleanQuery(q) == q
  {
    if q != [] {
      CleanQueryKeeps(q[1..]);
      assert q == [q[0]] + q[1..];
    }
  }

  lemma DoublePrefix(h: string)
    ensures StartsWith(h, "www.www.") <==> StartsWith(h, "www.") && StartsWith(h[4..], "www.")
  {
    if StartsWith(h, "www.www.") {
      assert h[..4] == h[..8][..4] && h[4..][..4] == h[..8][4..];
    }
    if StartsWith(h, "www.") && StartsWith(h[4..], "www.") {
      assert h[..8] == h[..4] + h[4..][..4];
    }
  }

  lemma CanonicalQueryFixed(q: seq<Param>)
    ensures var s := Sort(CleanQuery(q)); Sort(CleanQuery(s)) == s
  {
    var s := Sort(CleanQuery(q));
    forall p | p in s ensures Kept(p) {
      assert p in multiset(s);
      CleanQueryCounts(q, p);
    }
    CleanQueryKeeps(s);
    OrderedUnique(Sort(s), s);
  }

  /** Canonicalisation is idempotent exactly when the host did not carry a second `www.` and no semicolon stands in
      the segment that becomes the last one when the trailing slashes go. */
  lemma IdempotentIff(t1: string, u: UrlParts, t2: string)
    ensures var c := Canonicalize(Parsed(t1, u));
            Canonicalize(Parsed(t2, Reparse(c))) == c <==>
            && !StartsWith(Lower(u.netloc), "www.www.")
            && (Scheme(u) in WITH_PARAMS ==> !HasParams(StripSlashes(u.path)))
  {
    var c := Canonicalize(Parsed(t1, u));
    SchemeAndHostFixed(u, Reparse(c));
    CanonicalQueryFixed(u.query);
    PathFixedIff(u.path);
    hide Scheme, Host, CleanQuery, Sort, StripSlashes, StartsWith, HasParams, WithoutParams, Lower;
  }

  lemma SchemeAndHostFixed(u: UrlParts, v: UrlParts)
    requires v.scheme == Scheme(u) && v.netloc == Host(u)
    ensures Scheme(v) == Scheme(u)
    ensures Host(v) == Host(u) <==> !StartsWith(Lower(u.netloc), "www.www.")
  {
    var h := Lower(u.netloc);
    LowerIdempotent(u.netloc);
    LowerIdempotent(if u.scheme == "" then "http" else u.scheme);
    assert Lower(Host(u)) == Host(u);
    DoublePrefix(h);
  }

  lemma PathFixedIff(path: string)
    ensures StripSlashes(StripSlashes(path)) == StripSlashes(path)
    ensures StripSlashes(WithoutParams(StripSlashes(path))) == StripSlashes(path) <==> !HasParams(StripSlashes(path))
  {
    var p := StripSlashes(path);
    StripSlashesUnique(p, p);
    assert |StripSlashes(WithoutParams(p))| <= |WithoutParams(p)|;
    hide HasParams, WithoutParams;
  }

  /** Both failing families are inhabited: `www.www.x` canonicalises to `www.x`, and that to `x`. */
  lemma RepeatedPrefixNotIdempotent()
    ensures var c := Canonicalize(Parsed("http://www.www.x", UrlParts("http", "www.www.x", "", "", [], "")));
            Canonicalize(Parsed("http://www.x", Reparse(c))) != c
  {
    var u := UrlParts("http", "www.www.x", "", "", [], "");
    assert Lower("www.www.x") == "www.www.x";
    assert "www.www.x"[..8] == "www.www.";
    IdempotentIff("http://www.www.x", u, "http://www.x");
  }

  lemma SemicolonSegment()
    ensures HasParams(StripSlashes("/a;b/")) && Lower("http") in WITH_PARAMS
  {
    assert "/a;b/"[..4] == "/a;b";
    assert StripSlashes("/a;b") == "/a;b";
    assert "/a;b"[..3] == "/a;" && "/a;"[..2] == "/a" && "/a"[..1] == "/";
    assert LastSegment("/") == 1 && LastSegment("/a") == 1 && LastSegment("/a;") == 1;
    assert "/a;b"[1..][1] == ';';
    assert Lower("http") == "http";
  }

  /** And `h/a;b/` to `h/a;b`, and that to `h/a`. */
  lemma SemicolonNotIdempotent()
    ensures var c := Canonicalize(Parsed("http://h/a;b/", UrlParts("http", "h", "/a;b/", "", [], "")));
            Canonicalize(Parsed("http://h/a;b", Reparse(c))) != c
  {
    SemicolonSegment();
    IdempotentIff("http://h/a;b/", UrlParts("http", "h", "/a;b/", "", [], ""), "http://h/a;b");
    hide Canonicalize, Reparse, StripSlashes, HasParams, Lower;
  }
}
