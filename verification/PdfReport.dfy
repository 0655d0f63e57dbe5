/** The hand-written PDF-1.4 serialiser of the text report, and the proof that a PDF reader gets the report
    back. */
module PdfReport {
  import opened Text
  import opened PdfSyntax
  import opened Wrappers

  // ---- Lines ----

  /** Python's text.split("\n"). */
  function Split(s: string): (ls: seq<string>)
    ensures |ls| >= 1
    ensures forall i :: 0 <= i < |ls| ==> '\n' !in ls[i]
  {
    if s == [] then [""]
    else
      var r := Split(s[1..]);
      if s[0] == '\n' then [""] + r else [[s[0]] + r[0]] + r[1..]
  }

  /** encode("latin-1", errors="replace"). */
  function Latin1Char(c: char): (b: char)
    ensures b as int < 256
  {
    if (c as int) < 256 then c else '?'
  }

  function Latin1(s: string): (b: string)
    ensures |b| == |s|
    ensures forall i :: 0 <= i < |s| ==> b[i] == Latin1Char(s[i])
  {
    seq(|s|, i requires 0 <= i < |s| => Latin1Char(s[i]))
  }

  /** s.replace(c, "\\" + c) for one character c. */
  function Replace(s: string, c: char): (r: string) {
    if s == [] then [] else (if s[0] == c then ['\\', c] else [s[0]]) + Replace(s[1..], c)
  }

  predicate Special(c: char) { c == '\\' || c == '(' || c == ')' }

  function EscapeChar(c: char): (r: string) { if Special(c) then ['\\', c] else [c] }

  /** One reverse solidus before every special character. */
  function Escape(s: string): (r: string)
    ensures |s| <= |r|
  {
    if s == [] then [] else EscapeChar(s[0]) + Escape(s[1..])
  }

  lemma {:induction false} ReplaceConcat(a: string, b: string, c: char)
    ensures Replace(a + b, c) == Replace(a, c) + Replace(b, c)
  {
    if a == [] {
      assert a + b == b;
    } else {
      ReplaceConcat(a[1..], b, c);
      assert (a + b)[1..] == a[1..] + b;
      Assoc(if a[0] == c then ['\\', c] else [a[0]], Replace(a[1..], c), Replace(b, c));
    }
  }

  lemma ReplaceOne(d: char, c: char)
    ensures Replace([d], c) == if d == c then ['\\', c] else [d]
  {
    assert [d][1..] == [];
  }

  lemma ReplaceChar(x: char)
    ensures Replace(Replace(Replace([x], '\\'), '('), ')') == EscapeChar(x)
  {
    ReplaceOne(x, '\\');
    ReplaceOne(x, '(');
    ReplaceOne(x, ')');
    if x == '\\' || x == '(' {
      ReplaceConcat(['\\'], [x], '(');
      ReplaceConcat(['\\'], [x], ')');
      ReplaceOne('\\', '(');
      ReplaceOne('\\', ')');
      assert ['\\', x] == ['\\'] + [x];
    }
  }

  /** The three replacements one after the other amount to one simultaneous escape. */
  lemma {:induction false} ThreeReplacesAreOneEscape(s: string)
    ensures Replace(Replace(Replace(s, '\\'), '('), ')') == Escape(s)
  {
    if s != [] {
      ThreeReplacesAreOneEscape(s[1..]);
      assert s == [s[0]] + s[1..];
      ReplaceConcat([s[0]], s[1..], '\\');
      ReplaceConcat(Replace([s[0]], '\\'), Replace(s[1..], '\\'), '(');
      ReplaceConcat(Replace(Replace([s[0]], '\\'), '('), Replace(Replace(s[1..], '\\'), '('), ')');
      ReplaceChar(s[0]);
    }
  }

  lemma Assoc(a: string, b: string, c: string)
    ensures a + (b + c) == a + b + c
  {
  }

  lemma {:induction false} EscapeConcat(a: string, b: string)
    ensures Escape(a + b) == Escape(a) + Escape(b)
  {
    if a == [] {
      assert a + b == b;
    } else {
      hide EscapeChar;
      EscapeConcat(a[1..], b);
      assert (a + b)[1..] == a[1..] + b;
      Assoc(EscapeChar(a[0]), Escape(a[1..]), Escape(b));
    }
  }

  // ---- Truncation ----

  const WIDTH := 85
  const KEPT := 82
  const DOTS := "..."

  /** The escaped line as it goes between the parentheses. */
  function Fitted(escaped: string): (r: string)
    ensures |r| <= WIDTH
  {
    if |escaped| > WIDTH then escaped[..KEPT] + DOTS else escaped
  }

  /** How many characters of s have their escapes entirely within `room` characters. */
  function Fit(s: string, room: nat): (k: nat)
    ensures k <= |s|
    ensures |Escape(s[..k])| <= room
    ensures k < |s| ==> |Escape(s[..k + 1])| > room
  {
    if s == [] || |EscapeChar(s[0])| > room then
      assert s != [] ==> Escape(s[..1]) == EscapeChar(s[0]) + Escape(s[..1][1..]);
      0
    else
      var k := Fit(s[1..], room - |EscapeChar(s[0])|);
      assert s[..k + 1][1..] == s[1..][..k];
      assert k + 1 < |s| ==> s[..k + 2][1..] == s[1..][..k + 1];
      k + 1
  }

  /** Cutting the escaped text leaves the escapes of the fitting characters, plus half an escape pair if the
      cut falls inside one. */
  lemma {:induction false} CutShape(s: string, room: nat)
    requires |Escape(s)| >= room
    ensures var k := Fit(s, room);
            Escape(s)[..room] == Escape(s[..k]) + (if |Escape(s[..k])| == room then "" else "\\")
  {
    if s == [] {
    } else if |EscapeChar(s[0])| > room {
      assert s[..0] == [];
      assert room == 0 || Escape(s)[..room] == EscapeChar(s[0])[..1];
    } else {
      var n := room - |EscapeChar(s[0])|;
      CutShape(s[1..], n);
      var k := Fit(s[1..], n);
      assert s[..k + 1][1..] == s[1..][..k];
      assert Escape(s)[..room] == EscapeChar(s[0]) + Escape(s[1..])[..n];
    }
  }

  // ---- What a reader sees of one line ----

  /** A reader turns a bare carriage return inside a literal string into a line feed. */
  function CrToLf(s: string): (r: string)
    ensures |r| == |s|
    ensures forall i :: 0 <= i < |s| ==> r[i] == if s[i] == '\r' then '\n' else s[i]
  {
    seq(|s|, i requires 0 <= i < |s| => if s[i] == '\r' then '\n' else s[i])
  }

  /** The text shown for a report line. */
  function Shown(line: string): (t: string) {
    if |Escape(line)| > WIDTH then CrToLf(Latin1(line[..Fit(line, KEPT)])) + DOTS
    else CrToLf(Latin1(line))
  }

  /** The characters of s that are escaped. */
  function Specials(s: string): (n: nat) {
    multiset(s)['\\'] + multiset(s)['('] + multiset(s)[')']
  }

  lemma {:induction false} EscapeLength(s: string)
    ensures |Escape(s)| == |s| + Specials(s)
  {
    if s != "" {
      EscapeLength(s[1..]);
      assert s == [s[0]] + s[1..];
      assert multiset(s) == multiset{s[0]} + multiset(s[1..]);
    }
  }

  /** What a viewer shows for one character of the report. */
  function ShownChar(c: char): (d: char)
    ensures c == '\r' ==> d == '\n'
    ensures c as int >= 256 ==> d == '?'
    ensures c != '\r' && (c as int) < 256 ==> d == c
  {
    if c == '\r' then '\n' else if c as int >= 256 then '?' else c
  }

  /** The first k characters, all that fit, and three dots are shown. */
  predicate ShownCut(line: string, k: nat)
    requires k < |line|
  {
    && k + Specials(line[..k]) <= 82 < k + 1 + Specials(line[..k + 1])
    && |Shown(line)| == k + 3 && Shown(line)[k..] == "..."
    && forall i :: 0 <= i < k ==> Shown(line)[i] == ShownChar(line[i])
  }

  lemma CharByChar(s: string)
    ensures |CrToLf(Latin1(s))| == |s| && forall i :: 0 <= i < |s| ==> CrToLf(Latin1(s))[i] == ShownChar(s[i])
  {
  }

  lemma ShownIs(line: string)
    ensures |line| + Specials(line) <= 85 ==> Shown(line) == CrToLf(Latin1(line))
    ensures |line| + Specials(line) > 85 ==> Shown(line) == CrToLf(Latin1(line[..Fit(line, 82)])) + "..."
  {
    EscapeLength(line);
    hide Escape, Specials, CrToLf, Latin1, Fit;
  }

  lemma FitCount(line: string, k: nat)
    requires k < |line| && |Escape(line[..k])| <= 82 < |Escape(line[..k + 1])|
    ensures k + Specials(line[..k]) <= 82 < k + 1 + Specials(line[..k + 1])
  {
    hide *;
    EscapeLength(line[..k]);
    EscapeLength(line[..k + 1]);
  }

  lemma FitShort(line: string)
    requires |line| + Specials(line) > 85
    ensures Fit(line, 82) < |line|
  {
    hide *;
    EscapeLength(line);
    if Fit(line, 82) == |line| {
      Whole(line);
    }
  }

  lemma FitIs(line: string)
    requires |line| + Specials(line) > 85
    ensures var k := Fit(line, 82); k < |line| && k + Specials(line[..k]) <= 82 < k + 1 + Specials(line[..k + 1])
  {
    hide *;
    FitShort(line);
    FitCount(line, Fit(line, 82));
  }

  lemma Whole(s: string)
    ensures s[..|s|] == s
  {
  }

  /** A line of at most 85 characters, counting every parenthesis and reverse solidus twice, is shown character by
      character; of a longer one as many characters as fit into 82, and three dots. */
  lemma ShownText(line: string)
    ensures |line| + Specials(line) <= 85 ==>
              |Shown(line)| == |line| && forall i :: 0 <= i < |line| ==> Shown(line)[i] == ShownChar(line[i])
    ensures |line| + Specials(line) > 85 ==> exists k :: 0 <= k < |line| && ShownCut(line, k)
  {
    hide Shown, Specials, CrToLf, Latin1, Fit, ShownChar;
    ShownIs(line);
    if |line| + Specials(line) > 85 {
      FitIs(line);
      var k := Fit(line, 82);
      CharByChar(line[..k]);
      assert forall i :: 0 <= i < k ==> line[..k][i] == line[i];
      assert ShownCut(line, k);
    } else {
      CharByChar(line);
    }
  }

  lemma PrependTwice(a: string, b: string, r: Option<Literal>)
    ensures Prepend(a, Prepend(b, r)) == Prepend(a + b, r)
    ensures Prepend("", r) == r
  {
    if r.Some? {
      assert a + (b + r.value.text) == a + b + r.value.text;
      assert "" + r.value.text == r.value.text;
    }
  }

  lemma ReadPlainChar(c: char, tail: string)
    requires !Special(c) && c != '\r'
    ensures ReadLiteral([c] + tail, 0) == Prepend([c], ReadLiteral(tail, 0))
  {
    assert ([c] + tail)[1..] == tail;
  }

  lemma ReadBackslash(c: char, tail: string)
    requires Special(c) || c == '.'
    ensures ReadLiteral(['\\', c] + tail, 0) == Prepend([c], ReadLiteral(tail, 0))
  {
    hide OctalRun, OctalValue;
    assert (['\\', c] + tail)[2..] == tail;
  }

  lemma ReadCr(tail: string)
    requires tail == [] || tail[0] != '\n'
    ensures ReadLiteral(['\r'] + tail, 0) == Prepend(['\n'], ReadLiteral(tail, 0))
  {
    assert (['\r'] + tail)[1..] == tail;
  }

  /** One escaped character in front of a tail that does not complete an end-of-line pair. */
  lemma ReadEscapedChar(c: char, tail: string)
    requires c != '\n' && (tail == [] || tail[0] != '\n')
    ensures ReadLiteral(EscapeChar(c) + tail, 0) == Prepend(CrToLf([c]), ReadLiteral(tail, 0))
  {
    hide ReadLiteral;
    if Special(c) {
      ReadBackslash(c, tail);
      assert CrToLf([c]) == [c];
    } else if c == '\r' {
      ReadCr(tail);
      assert CrToLf([c]) == ['\n'];
    } else {
      ReadPlainChar(c, tail);
      assert CrToLf([c]) == [c];
    }
  }

  lemma CrToLfConcat(a: string, b: string)
    ensures CrToLf(a + b) == CrToLf(a) + CrToLf(b)
  {
  }

  lemma EscapeStart(s: string, tail: string)
    requires '\n' !in s && (tail == [] || tail[0] != '\n')
    ensures Escape(s) + tail == [] || (Escape(s) + tail)[0] != '\n'
  {
    if s != [] { assert s[0] != '\n'; }
  }

  /** Reading escaped text up to a tail that is not a line feed consumes exactly the escapes. */
  lemma {:induction false} ReadEscaped(s: string, tail: string)
    requires '\n' !in s && (tail == [] || tail[0] != '\n')
    ensures ReadLiteral(Escape(s) + tail, 0) == Prepend(CrToLf(s), ReadLiteral(tail, 0))
  {
    hide ReadLiteral, EscapeChar, Prepend;
    if s == [] {
      assert Escape(s) + tail == tail && CrToLf(s) == "";
      PrependTwice("", "", ReadLiteral(tail, 0));
    } else {
      hide CrToLf;
      assert s[0] != '\n';
      EscapeStart(s[1..], tail);
      ReadEscaped(s[1..], tail);
      Assoc(EscapeChar(s[0]), Escape(s[1..]), tail);
      ReadEscapedChar(s[0], Escape(s[1..]) + tail);
      PrependTwice(CrToLf([s[0]]), CrToLf(s[1..]), ReadLiteral(tail, 0));
      assert s == [s[0]] + s[1..];
      CrToLfConcat([s[0]], s[1..]);
    }
  }

  lemma Latin1Concat(a: string, b: string)
    ensures Latin1(a + b) == Latin1(a) + Latin1(b)
  {
  }

  lemma {:induction false} EscapeLatin1(s: string)
    ensures Latin1(Escape(s)) == Escape(Latin1(s))
  {
    if s != [] {
      EscapeLatin1(s[1..]);
      assert Latin1(s)[1..] == Latin1(s[1..]);
      assert Latin1(EscapeChar(s[0])) == EscapeChar(Latin1Char(s[0]));
      hide EscapeChar, Latin1;
      Latin1Concat(EscapeChar(s[0]), Escape(s[1..]));
    }
  }

  lemma ReadClose(rest: string)
    ensures ReadLiteral(")" + rest, 0) == Some(Literal("", rest))
  {
    assert (")" + rest)[1..] == rest;
  }

  lemma ReadDots(rest: string, half: string)
    requires half == "" || half == "\\"
    ensures ReadLiteral(half + (DOTS + (")" + rest)), 0) == Some(Literal(DOTS, rest))
  {
    hide ReadLiteral;
    var a := ")" + rest;
    var b := ['.'] + a;
    var c := ['.'] + b;
    ReadClose(rest);
    ReadPlainChar('.', a);
    ReadPlainChar('.', b);
    assert DOTS + a == ['.'] + c;
    if half == "" {
      ReadPlainChar('.', c);
      assert half + (DOTS + a) == ['.'] + c;
    } else {
      ReadBackslash('.', c);
      assert half + (DOTS + a) == ['\\', '.'] + c;
    }
    assert ['.'] + "" == "." && ['.'] + "." == ".." && ['.'] + ".." == DOTS;
  }

  lemma ReadCutLine(kept: string, half: string, rest: string)
    requires '\n' !in kept && (half == "" || half == "\\")
    ensures ReadLiteral(Escape(kept) + (half + (DOTS + (")" + rest))), 0) == Some(Literal(CrToLf(kept) + DOTS, rest))
  {
    var tail := half + (DOTS + (")" + rest));
    assert tail[0] != '\n';
    hide ReadLiteral, Escape;
    ReadDots(rest, half);
    ReadEscaped(kept, tail);
  }

  lemma ReadWholeLine(line: string, rest: string)
    requires '\n' !in line
    ensures ReadLiteral(Escape(line) + (")" + rest), 0) == Some(Literal(CrToLf(line), rest))
  {
    hide ReadLiteral, Escape;
    ReadClose(rest);
    ReadEscaped(line, ")" + rest);
    assert CrToLf(line) + "" == CrToLf(line);
  }

  /** The cut form of a line that is too long, as bytes. */
  lemma CutBytes(line: string)
    requires |Escape(line)| > WIDTH
    ensures var k := Fit(line, KEPT);
            var half := if |Escape(line[..k])| == KEPT then "" else "\\";
            Latin1(Fitted(Escape(line))) == Escape(Latin1(line[..k])) + half + DOTS
  {
    var k := Fit(line, KEPT);
    var half := if |Escape(line[..k])| == KEPT then "" else "\\";
    CutShape(line, KEPT);
    EscapeLatin1(line[..k]);
    hide Escape, Fit;
    Latin1Concat(Escape(line[..k]) + half, DOTS);
    Latin1Concat(Escape(line[..k]), half);
    assert Latin1(half) == half && Latin1(DOTS) == DOTS;
  }

  lemma NoLineFeed(line: string)
    requires '\n' !in line
    ensures '\n' !in Latin1(line)
  {
    forall i | 0 <= i < |line| ensures Latin1(line)[i] != '\n' {
      assert line[i] in line;
    }
  }

  lemma Group(e: string, half: string, rest: string)
    ensures e + half + DOTS + ")" + rest == e + (half + (DOTS + (")" + rest)))
  {
  }

  /** The parenthesis written after a line is the one that closes its string, cut or not, and the string
      reads as the shown text. */
  lemma LineReadsBack(line: string, rest: string)
    requires '\n' !in line
    ensures ReadLiteral(Latin1(Fitted(Escape(line))) + ")" + rest, 0) == Some(Literal(Shown(line), rest))
  {
    hide ReadLiteral, Escape, Fit, Latin1, CrToLf, DOTS;
    if |Escape(line)| > WIDTH {
      var k := Fit(line, KEPT);
      var half := if |Escape(line[..k])| == KEPT then "" else "\\";
      CutBytes(line);
      NoLineFeed(line[..k]);
      ReadCutLine(Latin1(line[..k]), half, rest);
      Group(Escape(Latin1(line[..k])), half, rest);
    } else {
      EscapeLatin1(line);
      NoLineFeed(line);
      ReadWholeLine(Latin1(line), rest);
      Assoc(Escape(Latin1(line)), ")", rest);
    }
  }

  lemma DotsPlain()
    ensures Escape(DOTS) == DOTS && KEPT + |DOTS| == WIDTH
  {
  }

  lemma DotsFit(line: string, k: nat)
    requires k <= |line| && |Escape(line[..k])| <= KEPT && line == line[..k] + DOTS
    ensures |Escape(line)| <= WIDTH
  {
    hide *;
    DotsPlain();
    EscapeConcat(line[..k], DOTS);
  }

  lemma DotsDiffer(line: string)
    requires |Escape(line)| > WIDTH
    ensures Shown(line) != line
  {
    hide Escape, Fit;
    var k := Fit(line, KEPT);
    if Shown(line) == line {
      assert line == line[..k] + DOTS;
      DotsFit(line, k);
    }
  }

  /** A line is shown unchanged exactly when it fits, is Latin-1 and has no carriage return. */
  lemma ShownUnchangedIff(line: string)
    requires '\n' !in line
    ensures Shown(line) == line <==>
            |Escape(line)| <= WIDTH && forall i :: 0 <= i < |line| ==> (line[i] as int) < 256 && line[i] != '\r'
  {
    if |Escape(line)| > WIDTH {
      DotsDiffer(line);
    } else {
      var t := CrToLf(Latin1(line));
      forall i | 0 <= i < |line|
        ensures t[i] == line[i] <==> (line[i] as int) < 256 && line[i] != '\r'
      {
        assert line[i] in line;
      }
    }
  }

  // ---- The content stream ----

  const PAGE_LINES := 55

  function OnPage(lines: seq<string>): (r: seq<string>)
    ensures r <= lines && |r| == if |lines| < 55 then |lines| else 55
  {
    if |lines| <= PAGE_LINES then lines else lines[..PAGE_LINES]
  }

  function Join(ls: seq<string>): (s: string)
    requires ls != []
  {
    if |ls| == 1 then ls[0] else ls[0] + "\n" + Join(ls[1..])
  }

  /** The lines of a text, joined again, are the text. */
  lemma {:induction false} SplitReadsBack(s: string)
    ensures Join(Split(s)) == s
  {
    if s != [] {
      var r := Split(s[1..]);
      SplitReadsBack(s[1..]);
      assert s == [s[0]] + s[1..];
      if s[0] == '\n' {
        assert ([""] + r)[1..] == r;
      } else {
        assert ([[s[0]] + r[0]] + r[1..])[1..] == r[1..];
      }
    }
  }

  lemma {:induction false} JoinConcat(a: seq<string>, b: seq<string>)
    requires a != [] && b != []
    ensures Join(a + b) == Join(a) + "\n" + Join(b)
  {
    assert (a + b)[1..] == a[1..] + b;
    if |a| > 1 {
      JoinConcat(a[1..], b);
    }
  }

  const TEXT_START := "BT\n/F1 10 Tf\n50 780 Td\n14 TL\n"
  const SHOW_AND_MOVE := " Tj\nT*\n"

  const PREAMBLE: seq<string> := ["BT", "/F1 10 Tf", "50 780 Td", "14 TL"]

  function LineOps(line: string): (ops: seq<string>) {
    ["(" + Fitted(Escape(line)) + ") Tj", "T*"]
  }

  function AllOps(lines: seq<string>): (ops: seq<string>) {
    if lines == [] then [] else AllOps(lines[..|lines| - 1]) + LineOps(lines[|lines| - 1])
  }

  /** The text of the show operators, line by line, closed by ET. */
  function ShowsText(lines: seq<string>): (s: string) {
    if lines == [] then "ET" else "(" + Fitted(Escape(lines[0])) + ")" + SHOW_AND_MOVE + ShowsText(lines[1..])
  }

  lemma {:induction false} AllOpsFront(lines: seq<string>)
    requires lines != []
    ensures AllOps(lines) == LineOps(lines[0]) + AllOps(lines[1..])
  {
    hide LineOps;
    var init, last := lines[..|lines| - 1], LineOps(lines[|lines| - 1]);
    assert AllOps(lines) == AllOps(init) + last;
    if |lines| == 1 {
      assert init == [] && lines[1..] == [];
    } else {
      AllOpsFront(init);
      assert init[1..] == lines[1..][..|lines| - 2];
      assert AllOps(lines[1..]) == AllOps(init[1..]) + last;
    }
  }

  lemma JoinLineOps(line: string)
    ensures |LineOps(line)| == 2
    ensures Join(LineOps(line)) + "\n" == "(" + Fitted(Escape(line)) + ")" + SHOW_AND_MOVE
  {
    var e := Fitted(Escape(line));
    hide Fitted, Escape;
    assert LineOps(line)[1..] == ["T*"];
    assert "(" + e + ") Tj" + "\n" + "T*" + "\n" == "(" + e + ")" + SHOW_AND_MOVE;
  }

  lemma {:induction false} JoinedOps(lines: seq<string>)
    ensures Join(AllOps(lines) + ["ET"]) == ShowsText(lines)
  {
    if lines != [] {
      hide AllOps, LineOps, Fitted, Escape, Join, SHOW_AND_MOVE;
      AllOpsFront(lines);
      JoinedOps(lines[1..]);
      var ops, more := LineOps(lines[0]), AllOps(lines[1..]) + ["ET"];
      assert AllOps(lines) + ["ET"] == ops + more;
      JoinLineOps(lines[0]);
      JoinConcat(ops, more);
    }
  }

  lemma JoinedPreamble()
    ensures Join(PREAMBLE) + "\n" == TEXT_START
  {
    assert PREAMBLE[1..] == ["/F1 10 Tf", "50 780 Td", "14 TL"];
    assert PREAMBLE[1..][1..] == ["50 780 Td", "14 TL"];
    assert PREAMBLE[1..][1..][1..] == ["14 TL"];
  }

  lemma JoinedContent(lines: seq<string>)
    ensures Join(PREAMBLE + AllOps(lines) + ["ET"]) == TEXT_START + ShowsText(lines)
  {
    hide AllOps, ShowsText, Join;
    JoinedOps(lines);
    JoinedPreamble();
    var tail := AllOps(lines) + ["ET"];
    assert PREAMBLE + AllOps(lines) + ["ET"] == PREAMBLE + tail;
    JoinConcat(PREAMBLE, tail);
  }

  function StreamOf(lines: seq<string>): (d: string) {
    Latin1(TEXT_START + ShowsText(lines))
  }

  function ShownLines(lines: seq<string>): (ts: seq<string>)
    ensures |ts| == |lines|
    ensures forall i :: 0 <= i < |lines| ==> ts[i] == Shown(lines[i])
  {
    seq(|lines|, i requires 0 <= i < |lines| => Shown(lines[i]))
  }

  lemma Latin1Fixed(a: string)
    requires forall i :: 0 <= i < |a| ==> (a[i] as int) < 256
    ensures Latin1(a) == a
  {
  }

  /** One show operator in front of the remaining ones. */
  lemma ShowReadBack(line: string, more: string)
    requires '\n' !in line
    ensures ReadShows("(" + Latin1(Fitted(Escape(line))) + ")" + SHOW_AND_MOVE + more) ==
              if ReadShows(more).None? then None else Some([Shown(line)] + ReadShows(more).value)
  {
    hide Fitted, Escape, Shown, Latin1;
    var e, rest := Latin1(Fitted(Escape(line))), SHOW_AND_MOVE + more;
    var s := "(" + e + ")" + SHOW_AND_MOVE + more;
    assert s[1..] == e + ")" + rest;
    LineReadsBack(line, rest);
    assert rest[|SHOW_AND_MOVE|..] == more && StartsWith(rest, SHOW_AND_MOVE);
    assert s[0] == '(' && s != "ET";
  }

  lemma ShowsTextCons(lines: seq<string>)
    requires lines != []
    ensures ShowsText(lines) == "(" + Fitted(Escape(lines[0])) + ")" + SHOW_AND_MOVE + ShowsText(lines[1..])
    ensures ShownLines(lines) == [Shown(lines[0])] + ShownLines(lines[1..])
  {
    hide Fitted, Escape, Shown;
  }

  lemma ShowsReadBackNone()
    ensures ReadShows(Latin1(ShowsText([]))) == Some(ShownLines([]))
  {
    Latin1Fixed("ET");
  }

  lemma {:induction false} ShowsReadBack(lines: seq<string>)
    requires forall i :: 0 <= i < |lines| ==> '\n' !in lines[i]
    ensures ReadShows(Latin1(ShowsText(lines))) == Some(ShownLines(lines))
  {
    hide *;
    if lines == [] {
      ShowsReadBackNone();
    } else {
      ShowsReadBack(lines[1..]);
      ShowsTextCons(lines);
      ShowReadBack(lines[0], Latin1(ShowsText(lines[1..])));
      ShowLatin1(Fitted(Escape(lines[0])), ShowsText(lines[1..]));
    }
  }

  lemma ShowLatin1(e: string, more: string)
    ensures Latin1("(" + e + ")" + SHOW_AND_MOVE + more) == "(" + Latin1(e) + ")" + SHOW_AND_MOVE + Latin1(more)
  {
    Latin1Concat("(" + e + ")" + SHOW_AND_MOVE, more);
    Latin1Concat("(" + e + ")", SHOW_AND_MOVE);
    Latin1Concat("(" + e, ")");
    Latin1Concat("(", e);
    Latin1Fixed("(");
    Latin1Fixed(")");
    Latin1Fixed(SHOW_AND_MOVE);
  }

  lemma OperandReadsBack(d: string, next: string, rest: string)
    requires d != "" && AllDigits(d) && next != "" && !IsDigit(next[0])
    ensures ReadOperand(d + (next + rest), next) == Some(Parsed(DecValue(d), rest))
  {
    hide DecValue;
    var s := d + (next + rest);
    LeadingDigitsOf(d, next + rest);
    assert s[|d|..] == next + rest;
    assert (next + rest)[..|next|] == next && (next + rest)[|next|..] == rest;
  }

  lemma StartNumbers()
    ensures AllDigits("10") && AllDigits("50") && AllDigits("780") && AllDigits("14")
    ensures DecValue("50") == 50 && DecValue("780") == 780 && DecValue("14") == 14
  {
    assert "50"[..1] == "5" && "14"[..1] == "1" && "780"[..2] == "78" && "78"[..1] == "7";
    assert DecValue("5") == 5 && DecValue("1") == 1 && DecValue("7") == 7;
  }

  lemma StartShape(more: string)
    ensures TEXT_START + more ==
            "BT\n/" + ("F1" + (" " + ("10" + (" Tf\n" +
              ("50" + (" " + ("780" + (" Td\n" + ("14" + (" TL\n" + more))))))))))
  {
  }

  lemma FontRead(font: string, t: string)
    requires AllRegular(font)
    ensures var s := "BT\n/" + (font + (" " + t));
            && StartsWith(s, "BT\n/") && Word(s[4..]) == font && s[4..][|font|..] == " " + t
            && StartsWith(" " + t, " ") && (" " + t)[1..] == t
  {
    var s := "BT\n/" + (font + (" " + t));
    assert s[..4] == "BT\n/" && s[4..] == font + (" " + t);
    WordOf(font, " " + t);
    assert (" " + t)[..1] == " ";
  }

  /** The operators that start the text object, in front of any others. */
  lemma StartReadsBack(more: string)
    ensures ReadContent(TEXT_START + more) ==
            if ReadShows(more).None? then None else Some(TextObject("F1", 50, 780, 14, ReadShows(more).value))
  {
    assert AllRegular("F1");
    hide TEXT_START, Word, ReadShows, DecValue, LeadingDigits, AllDigits, ReadOperand, StartsWith, IsRegular;
    var t3 := "14" + (" TL\n" + more);
    var t2 := "780" + (" Td\n" + t3);
    var t1 := "50" + (" " + t2);
    var t0 := "10" + (" Tf\n" + t1);
    StartShape(more);
    StartNumbers();
    FontRead("F1", t0);
    assert !IsDigit(' ');
    OperandReadsBack("10", " Tf\n", t1);
    OperandReadsBack("50", " ", t2);
    OperandReadsBack("780", " Td\n", t3);
    OperandReadsBack("14", " TL\n", more);
  }

  /** Reading the content stream yields the shown form of every line. */
  lemma ContentReadsBack(lines: seq<string>)
    requires forall i :: 0 <= i < |lines| ==> '\n' !in lines[i]
    ensures ReadContent(StreamOf(lines)) == Some(TextObject("F1", 50, 780, 14, ShownLines(lines)))
  {
    Latin1Concat(TEXT_START, ShowsText(lines));
    Latin1Fixed(TEXT_START);
    assert StreamOf(lines) == TEXT_START + Latin1(ShowsText(lines));
    hide *;
    ShowsReadBack(lines);
    StartReadsBack(Latin1(ShowsText(lines)));
  }

  lemma {:induction false} ShowsBound(lines: seq<string>)
    ensures |ShowsText(lines)| <= 2 + 94 * |lines|
  {
    if lines != [] {
      ShowsBound(lines[1..]);
    }
  }

  // ---- The file ----

  const HEADER := "%PDF-1.4\n"
  const END_OBJ := "\nendobj\n"
  const CATALOG := "<<" + " /Type /Catalog" + " /Pages 2 0 R" + " >>" + END_OBJ
  const PAGES := "<<" + " /Type /Pages" + " /Kids [3 0 R]" + " /Count 1" + " >>" + END_OBJ
  const FONTS := "<<" + " /F1 5 0 R" + " >>"
  const RESOURCES := "<<" + (" /Font " + FONTS) + " >>"
  const PAGE := "<<" + " /Type /Page" + " /Parent 2 0 R" + " /MediaBox [0 0 612 842]" + " /Contents 4 0 R" +
                (" /Resources " + RESOURCES) + " >>" + END_OBJ
  const FONT := "<<" + " /Type /Font" + " /Subtype /Type1" + " /BaseFont /Helvetica" + " >>" + END_OBJ
  const XREF_HEAD := "xref\n0 6\n"
  const FREE_ENTRY := "0000000000 65535 f \n"
  const IN_USE := " 00000 n \n"
  const TRAILER := "trailer\n" + "<<" + " /Size 6" + " /Root 1 0 R" + " >>" + "\n"
  const START_MARK := "startxref\n"
  const END_MARK := "\n%%EOF\n"
  const LENGTH_HEAD := "<< /Length "
  const STREAM_HEAD := " >>\nstream\n"
  const STREAM_TAIL := "\nendstream\nendobj\n"

  function ObjHead(k: nat): (s: string) { Dec(k) + " 0 obj\n" }

  function StreamObject(stream: string): (b: string) {
    LENGTH_HEAD + Dec(|stream|) + STREAM_HEAD + stream + STREAM_TAIL
  }

  /** The bodies of objects 1 to 5. */
  function Bodies(stream: string): (bs: seq<string>)
    ensures |bs| == 5
  {
    [CATALOG, PAGES, PAGE, StreamObject(stream), FONT]
  }

  /** Header and the first n objects. */
  function Prefix(bs: seq<string>, n: nat): (s: string)
    requires n <= |bs|
  {
    if n == 0 then HEADER else Prefix(bs, n - 1) + (ObjHead(n) + bs[n - 1])
  }

  /** f"{n:010d}" */
  function Pad10(n: nat): (s: string) {
    if |Dec(n)| < 10 then Zeros(10 - |Dec(n)|) + Dec(n) else Dec(n)
  }

  function XrefLine(offset: nat): (e: string) { Pad10(offset) + IN_USE }

  function XrefLines(bs: seq<string>, n: nat): (s: string)
    requires n <= |bs|
  {
    if n == 0 then "" else XrefLines(bs, n - 1) + XrefLine(|Prefix(bs, n - 1)|)
  }

  function Closing(x: nat): (s: string) { TRAILER + START_MARK + Dec(x) + END_MARK }

  /** The cross-reference table with in-use entries es, and the trailer that announces position x. */
  function Table(es: string, x: nat): (s: string) { XREF_HEAD + FREE_ENTRY + es + Closing(x) }

  function FileOf(bs: seq<string>): (f: string) {
    Prefix(bs, |bs|) + Table(XrefLines(bs, |bs|), |Prefix(bs, |bs|)|)
  }

  // ---- Finding things again ----

  lemma {:induction false} TrailingDigitsOf(p: string, d: string)
    requires AllDigits(d) && (p == [] || !IsDigit(p[|p| - 1]))
    ensures TrailingDigits(p + d) == d
  {
    if d == [] {
      assert p + d == p;
    } else {
      var init := d[..|d| - 1];
      TrailingDigitsOf(p, init);
      assert (p + d)[..|p + d| - 1] == p + init;
      assert IsDigit(d[|d| - 1]);
    }
  }

  lemma {:induction false} LeadingDigitsOf(d: string, p: string)
    requires AllDigits(d) && (p == [] || !IsDigit(p[0]))
    ensures LeadingDigits(d + p) == d
  {
    if d == [] {
      assert d + p == p;
    } else {
      LeadingDigitsOf(d[1..], p);
      assert (d + p)[1..] == d[1..] + p;
      assert IsDigit(d[0]);
    }
  }

  lemma SplitEnd(p: string, q: string)
    ensures EndsWith(p + q, q) && (p + q)[..|p + q| - |q|] == p
  {
  }

  lemma XrefParse(f: string, body: string, d: string)
    requires EndsWith(f, "\n%%EOF\n") && f[..|f| - 7] == body
    requires TrailingDigits(body) == d != [] && EndsWith(body[..|body| - |d|], "startxref\n")
    ensures StartXref(f) == Some(DecValue(d))
  {
    hide TrailingDigits, DecValue, EndsWith;
  }

  /** The position announced behind the trailer is read back. */
  lemma StartXrefFound(front: string, x: nat)
    ensures StartXref(front + Closing(x)) == Some(x)
  {
    var p, d := front + TRAILER + START_MARK, Dec(x);
    assert START_MARK == "startxref\n" && END_MARK == "\n%%EOF\n" && |END_MARK| == 7;
    assert START_MARK[|START_MARK| - 1] == '\n';
    assert !IsDigit(p[|p| - 1]);
    assert front + Closing(x) == p + d + END_MARK by { hide TRAILER, START_MARK, END_MARK, Dec; }
    hide *;
    TrailingDigitsOf(p, d);
    SplitEnd(p + d, END_MARK);
    SplitEnd(p, d);
    SplitEnd(front + TRAILER, START_MARK);
    XrefParse(p + d + END_MARK, p + d, d);
  }

  const LIMIT := 10000000000

  lemma Pad10Decodes(n: nat)
    requires n < LIMIT
    ensures |Pad10(n)| == 10 && AllDigits(Pad10(n)) && DecValue(Pad10(n)) == n
  {
    assert Pow10(10) == LIMIT by {
      assert Pow10(2) == 100;
      assert Pow10(4) == 10000;
      assert Pow10(6) == 1000000;
      assert Pow10(8) == 100000000;
    }
    DecLength(n, 10);
    if |Dec(n)| < 10 {
      ZerosInsignificant(10 - |Dec(n)|, Dec(n));
    }
  }

  lemma PrefixStep(bs: seq<string>, n: nat)
    requires 0 < n <= |bs|
    ensures Prefix(bs, n) == Prefix(bs, n - 1) + (ObjHead(n) + bs[n - 1])
  {
    hide ObjHead;
  }

  lemma {:induction false} PrefixSplit(bs: seq<string>, k: nat, n: nat) returns (rest: string)
    requires k <= n <= |bs|
    ensures Prefix(bs, n) == Prefix(bs, k) + rest
  {
    if k == n {
      rest := "";
    } else {
      rest := PrefixSplit(bs, k, n - 1);
      var obj := ObjHead(n) + bs[n - 1];
      PrefixStep(bs, n);
      hide *;
      Assoc(Prefix(bs, k), rest, obj);
      rest := rest + obj;
    }
  }

  lemma {:induction false} EntriesSplit(bs: seq<string>, k: nat, n: nat) returns (rest: string)
    requires k < n <= |bs|
    ensures XrefLines(bs, n) == XrefLines(bs, k) + XrefLine(|Prefix(bs, k)|) + rest
  {
    hide Prefix, XrefLine;
    if k == n - 1 {
      rest := "";
    } else {
      rest := EntriesSplit(bs, k, n - 1);
      var front, e := XrefLines(bs, k) + XrefLine(|Prefix(bs, k)|), XrefLine(|Prefix(bs, n - 1)|);
      assert XrefLines(bs, n) == front + rest + e;
      assert front + rest + e == front + (rest + e);
      rest := rest + e;
    }
  }

  lemma {:induction false} EntriesLength(bs: seq<string>, n: nat)
    requires n <= |bs| && |Prefix(bs, n)| < LIMIT
    ensures |XrefLines(bs, n)| == 20 * n
  {
    if n > 0 {
      var _ := PrefixSplit(bs, n - 1, n);
      EntriesLength(bs, n - 1);
      Pad10Decodes(|Prefix(bs, n - 1)|);
    }
  }

  lemma Slice(a: string, e: string, b: string)
    ensures (a + e + b)[|a|..|a| + |e|] == e
    ensures (a + e + b)[|a|..] == e + b
  {
  }

  lemma TableAt(body: string, es: string, x: nat)
    ensures (body + Table(es, x))[|body|..] == Table(es, x)
    ensures Table(es, x) == XREF_HEAD + (FREE_ENTRY + es + Closing(x))
    ensures body + Table(es, x) == body + (XREF_HEAD + FREE_ENTRY + es) + Closing(x)
  {
    hide XREF_HEAD, FREE_ENTRY, Closing;
  }

  lemma TableSlice(body: string, before: string, e: string, after: string, x: nat)
    ensures var f := body + Table(before + e + after, x);
            var at := |body| + |XREF_HEAD| + |FREE_ENTRY| + |before|;
            at + |e| <= |f| && f[at..at + |e|] == e && f[at + |e|..] == after + Closing(x)
  {
    hide XREF_HEAD, FREE_ENTRY, Closing;
    var left, right := body + (XREF_HEAD + FREE_ENTRY) + before, after + Closing(x);
    assert body + Table(before + e + after, x) == left + e + right;
    Slice(left, e, right);
    SliceEnd(left, e, right);
  }

  lemma SliceEnd(a: string, e: string, b: string)
    ensures (a + e + b)[|a| + |e|..] == b
  {
  }

  lemma XrefHeadReads(t: string)
    ensures var s := XREF_HEAD + t;
            && StartsWith(s, "xref\n0 ") && LeadingDigits(s[7..]) == "6" && StartsWith(s[7..][1..], "\n")
            && DecValue("6") == 6
  {
    var s := XREF_HEAD + t;
    assert s[..7] == "xref\n0 ";
    assert s[7..] == "6" + ("\n" + t);
    LeadingDigitsOf("6", "\n" + t);
    assert ("6" + ("\n" + t))[1..] == "\n" + t;
    assert ("\n" + t)[..1] == "\n";
    assert "6"[..0] == "";
  }

  /** The table is found at the announced position, with room for six entries. */
  lemma ReadXrefFound(body: string, es: string)
    ensures ReadXref(body + Table(es, |body|)) == Some(Xref(|body| + |XREF_HEAD|, 6))
  {
    assert |XREF_HEAD| == 9;
    hide StartXref, Closing, Table, FREE_ENTRY, XREF_HEAD, LeadingDigits, StartsWith, DecValue;
    StartXrefFound(body + (XREF_HEAD + FREE_ENTRY + es), |body|);
    TableAt(body, es, |body|);
    XrefHeadReads(FREE_ENTRY + es + Closing(|body|));
  }

  lemma FreeEntryLength()
    ensures |FREE_ENTRY| == 20
  {
  }

  /** A table entry is found by its number when 20 bytes lie in front of it for every earlier entry. */
  lemma EntryFound(body: string, before: string, e: string, after: string, k: nat)
    requires 1 <= k < 6 && |before| == 20 * (k - 1) && |e| == 20
    ensures XrefEntry(body + Table(before + e + after, |body|), k) == Some(e)
  {
    hide *;
    var x, es := |body|, before + e + after;
    FreeEntryLength();
    ReadXrefFound(body, es);
    TableSlice(body, before, e, after, x);
    EntryAt(body + Table(es, x), x + |XREF_HEAD|, k, e);
  }

  lemma EntryAt(f: string, first: nat, k: nat, e: string)
    requires ReadXref(f) == Some(Xref(first, 6)) && k < 6 && |e| == 20
    requires first + 20 * k + 20 <= |f| && f[first + 20 * k..first + 20 * k + 20] == e
    ensures XrefEntry(f, k) == Some(e)
  {
    hide ReadXref;
  }

  lemma InUseReads(p: string, offset: nat)
    requires |p| == 10 && AllDigits(p) && DecValue(p) == offset
    ensures var e := p + IN_USE;
            && |e| == 20 && e[..10] == p && e[10] == ' ' && e[11..16] == "00000" && e[16] == ' ' && e[17] == 'n'
            && e[18..] == " \n"
  {
  }

  lemma FiveZeros()
    ensures AllDigits("00000") && DecValue("00000") == 0
  {
    ZerosInsignificant(5, "");
    assert Zeros(5) + "" == "00000";
  }

  /** Entry k of the cross-reference table holds the exact byte position of object k, for every object. */
  lemma XrefPointsAt(bs: seq<string>, k: nat)
    requires |bs| == 5 && 1 <= k <= 5 && |Prefix(bs, 5)| < LIMIT
    ensures XrefOffset(FileOf(bs), k, 0) == Some(|Prefix(bs, k - 1)|)
  {
    var offset := |Prefix(bs, k - 1)|;
    var _ := PrefixSplit(bs, k - 1, 5);
    Pad10Decodes(offset);
    EntriesLength(bs, k - 1);
    var after := EntriesSplit(bs, k - 1, 5);
    var e := XrefLine(offset);
    InUseReads(Pad10(offset), offset);
    FiveZeros();
    EntryFound(Prefix(bs, 5), XrefLines(bs, k - 1), e, after, k);
    hide Prefix, XrefLines, Dec, Pad10, XrefEntry, DecValue, AllDigits;
    assert XrefEntry(FileOf(bs), k) == Some(e);
  }

  lemma DigitsOf(n: nat)
    ensures AllDigits(Dec(n)) && Dec(n) != "" && DecValue(Dec(n)) == n && !IsDigit(' ')
  {
  }

  lemma HeadShape(k: nat, body: string)
    ensures ObjHead(k) + body == Dec(k) + (" " + ("0" + (" " + ("obj" + ("\n" + body)))))
  {
    hide Dec;
  }

  lemma HeadTail(body: string)
    requires body != "" && !IsWhite(body[0])
    ensures var u := "obj" + ("\n" + body);
            SkipWhite(" " + u) == u && Word(u) == "obj" && SkipWhite(u[3..]) == body
  {
    var u := "obj" + ("\n" + body);
    SkipNone(u);
    ObjWord(body);
    assert u[3..] == "\n" + body && ("\n" + body)[1..] == body;
    SkipNone(body);
  }

  lemma HeadReadsBack(k: nat, body: string)
    requires body != "" && !IsWhite(body[0])
    ensures ReadHead(ObjHead(k) + body, k, 0) == Some(body)
  {
    hide Dec, ObjHead, IsRegular, IsWhite, SkipWhite, Word, LeadingDigits, DecValue, AllDigits, IsDigit;
    var u := "obj" + ("\n" + body);
    var t := "0" + (" " + u);
    HeadShape(k, body);
    DigitsOf(k);
    ZeroValue();
    LeadingDigitsOf(Dec(k), " " + t);
    assert (Dec(k) + (" " + t))[|Dec(k)|..] == " " + t;
    SpaceSkipped(" " + u);
    LeadingDigitsOf("0", " " + u);
    assert t[1..] == " " + u;
    HeadTail(body);
  }

  lemma SpaceSkipped(s: string)
    ensures SkipWhite(" " + ("0" + s)) == "0" + s
  {
    SkipNone("0" + s);
  }

  lemma ZeroValue()
    ensures AllDigits("0") && DecValue("0") == 0
  {
    assert "0"[..0] == "";
  }

  lemma ObjWord(body: string)
    ensures Word("obj" + ("\n" + body)) == "obj"
  {
    assert AllRegular("obj");
    WordOf("obj", "\n" + body);
  }

  /** Following the cross-reference table to object k finds its body there. */
  lemma LocatesBody(bs: seq<string>, k: nat)
    requires |bs| == 5 && 1 <= k <= 5 && |Prefix(bs, 5)| < LIMIT
    requires bs[k - 1] != "" && !IsWhite(bs[k - 1][0])
    ensures Locate(FileOf(bs), k, 0).Some? && bs[k - 1] <= Locate(FileOf(bs), k, 0).value
  {
    hide XrefOffset, ObjHead, XrefLines, Table, ReadHead;
    XrefPointsAt(bs, k);
    var more := PrefixSplit(bs, k, 5);
    var table := Table(XrefLines(bs, 5), |Prefix(bs, 5)|);
    assert FileOf(bs) == Prefix(bs, k - 1) + (ObjHead(k) + bs[k - 1]) + more + table;
    hide Prefix, XrefOffset, ObjHead, XrefLines, Table, FileOf, ReadHead;
    BodyAt(Prefix(bs, k - 1), ObjHead(k), bs[k - 1], more + table);
    Assoc(Prefix(bs, k - 1) + (ObjHead(k) + bs[k - 1]), more, table);
    HeadReadsBack(k, bs[k - 1] + (more + table));
  }

  lemma BodyAt(p: string, h: string, b: string, rest: string)
    ensures var f := p + (h + b) + rest;
            |p| <= |f| && f[|p|..] == h + (b + rest) && b <= b + rest
  {
  }

  /** A stream object followed by anything reads as exactly its data. */
  lemma StreamReadsBack(stream: string, rest: string)
    ensures ReadStream(StreamObject(stream) + rest) == Some(stream)
  {
    hide *;
    var n := |stream|;
    var tail := "\nstream\n" + (stream + (STREAM_TAIL + rest));
    StreamShape(stream, rest);
    assert Ends(tail) by { TailEnds(stream + (STREAM_TAIL + rest)); }
    LengthPlain(n);
    ObjectReadsBack(LengthObject(n), tail);
    StreamData(stream, rest, StreamObject(stream) + rest);
  }

  function LengthObject(n: nat): (o: Object) { Dictionary(Entry("Length", Number(n), NoEntries)) }

  lemma LengthPlain(n: nat)
    ensures Plain(LengthObject(n)) && !LengthObject(n).Number? && Get(Some(LengthObject(n)), "Length") == Some(Number(n))
  {
  }

  lemma TailEnds(t: string)
    ensures Ends("\nstream\n" + t)
  {
  }

  lemma Front(a: string, b: string)
    ensures StartsWith(a + b, a) && (a + b)[..|a|] == a && (a + b)[|a|..] == b
  {
    assert (a + b)[..|a|] == a;
  }

  lemma StreamData(stream: string, rest: string, s: string)
    requires ReadObject(s) == Some(Parsed(LengthObject(|stream|), "\nstream\n" + (stream + (STREAM_TAIL + rest))))
    ensures ReadStream(s) == Some(stream)
  {
    LengthPlain(|stream|);
    assert STREAM_TAIL == "\nendstream\nendobj\n";
    hide ReadObject, LengthObject, Get, STREAM_TAIL, StartsWith;
    Front("\nstream\n", stream + (STREAM_TAIL + rest));
    Front(stream, STREAM_TAIL + rest);
    Front(STREAM_TAIL, rest);
  }

  lemma StreamGroup(a: string, d: string, stream: string, t: string, rest: string)
    ensures "<<" + a + d + (" >>" + "\nstream\n") + stream + t + rest ==
            ("<<" + ((a + d) + "") + " >>") + ("\nstream\n" + (stream + (t + rest)))
  {
  }

  lemma StreamShape(stream: string, rest: string)
    ensures StreamObject(stream) + rest ==
            Notation(LengthObject(|stream|)) + ("\nstream\n" + (stream + (STREAM_TAIL + rest)))
  {
    var n := |stream|;
    assert Notation(Number(n)) == Dec(n);
    assert LENGTH_HEAD == "<<" + " /Length " && STREAM_HEAD == " >>" + "\nstream\n";
    assert StreamObject(stream) == LENGTH_HEAD + Dec(n) + STREAM_HEAD + stream + STREAM_TAIL;
    assert LengthObject(n) == Dictionary(Only("Length", Number(n)));
    hide *;
    assert " /Length " == " /" + "Length" + " ";
    EntryIs("Length", Number(n), NoEntries, " /Length " + Dec(n));
    OnlyIs("Length", Number(n));
    DictionaryNotation(Only("Length", Number(n)));
    StreamGroup(" /Length ", Dec(n), stream, STREAM_TAIL, rest);
  }

  lemma OnlyIs(key: string, value: Object)
    ensures Only(key, value) == Entry(key, value, NoEntries)
  {
  }

  lemma PrefixLength(bs: seq<string>)
    requires |bs| == 5
    ensures |Prefix(bs, 5)| == |HEADER| + |ObjHead(1)| + |bs[0]| + |ObjHead(2)| + |bs[1]| + |ObjHead(3)| + |bs[2]| +
                               |ObjHead(4)| + |bs[3]| + |ObjHead(5)| + |bs[4]|
  {
    hide ObjHead;
    assert Prefix(bs, 2) == Prefix(bs, 1) + (ObjHead(2) + bs[1]);
    assert Prefix(bs, 3) == Prefix(bs, 2) + (ObjHead(3) + bs[2]);
    assert Prefix(bs, 4) == Prefix(bs, 3) + (ObjHead(4) + bs[3]);
  }

  lemma ObjHeadLength(k: nat)
    requires k <= 5
    ensures |ObjHead(k)| == 8
  {
  }

  lemma FixedLengths()
    ensures |HEADER| + |CATALOG| + |PAGES| + |PAGE| + |FONT| <= 500
    ensures |LENGTH_HEAD| + |STREAM_HEAD| + |STREAM_TAIL| <= 100
    ensures |TEXT_START| <= 50
  {
  }

  /** The line and width limits keep every offset within ten digits. */
  lemma OffsetsFit(lines: seq<string>)
    requires |lines| <= PAGE_LINES
    ensures |Prefix(Bodies(StreamOf(lines)), 5)| < LIMIT
  {
    ShowsBound(lines);
    FixedLengths();
    var stream := StreamOf(lines);
    assert |stream| < 10000;
    hide StreamOf;
    assert Pow10(5) == 100000 by { assert Pow10(3) == 1000; }
    DecLength(|stream|, 5);
    hide Dec, Prefix;
    forall k: nat | k <= 5 ensures |ObjHead(k)| == 8 { ObjHeadLength(k); }
    PrefixLength(Bodies(stream));
    hide ObjHead;
    assert |StreamObject(stream)| <= 11000;
  }

  // ---- What the fixed objects denote ----

  function Only(key: string, value: Object): (es: Entries) { Entry(key, value, NoEntries) }

  function CatalogObject(): (o: Object) { Dictionary(Entry("Type", Name("Catalog"), Only("Pages", Reference(2, 0)))) }

  function PagesObject(): (o: Object) {
    var kids := Array(Item(Reference(3, 0), NoItems));
    Dictionary(Entry("Type", Name("Pages"), Entry("Kids", kids, Only("Count", Number(1)))))
  }

  function BoxObject(): (o: Object) {
    Array(Item(Number(0), Item(Number(0), Item(Number(612), Item(Number(842), NoItems)))))
  }

  function ResourcesObject(): (o: Object) {
    Dictionary(Only("Font", Dictionary(Only("F1", Reference(5, 0)))))
  }

  function PageObject(): (o: Object) {
    Dictionary(Entry("Type", Name("Page"), Entry("Parent", Reference(2, 0), Entry("MediaBox", BoxObject(),
      Entry("Contents", Reference(4, 0), Only("Resources", ResourcesObject()))))))
  }

  function FontObject(): (o: Object) {
    Dictionary(Entry("Type", Name("Font"), Entry("Subtype", Name("Type1"), Only("BaseFont", Name("Helvetica")))))
  }

  function TrailerObject(): (o: Object) { Dictionary(Entry("Size", Number(6), Only("Root", Reference(1, 0)))) }

  lemma SmallDecimals()
    ensures Dec(0) == "0" && Dec(1) == "1" && Dec(2) == "2" && Dec(3) == "3" && Dec(4) == "4" && Dec(5) == "5"
    ensures Dec(6) == "6" && Dec(612) == "612" && Dec(842) == "842"
  {
    assert Dec(8) == "8" && Dec(61) == "61" && Dec(84) == "84";
  }

  lemma DictionaryNotation(es: Entries)
    ensures Notation(Dictionary(es)) == "<<" + EntriesNotation(es) + " >>"
    ensures EntriesNotation(NoEntries) == ""
  {
    hide EntriesNotation;
    NoNotation();
  }

  lemma NoNotation()
    ensures EntriesNotation(NoEntries) == ""
  {
  }

  /** The notation of an entry in front of others. */
  lemma EntryIs(k: string, v: Object, t: Entries, text: string)
    requires text == " /" + k + " " + Notation(v)
    ensures EntriesNotation(Entry(k, v, t)) == text + EntriesNotation(t)
  {
    hide Notation;
  }

  lemma Values()
    ensures Notation(Reference(1, 0)) == "1 0 R" && Notation(Reference(2, 0)) == "2 0 R"
    ensures Notation(Reference(3, 0)) == "3 0 R" && Notation(Reference(4, 0)) == "4 0 R"
    ensures Notation(Reference(5, 0)) == "5 0 R" && Notation(Number(1)) == "1" && Notation(Number(6)) == "6"
  {
    SmallDecimals();
    hide Dec;
  }

  lemma Group2(a: string, b: string)
    ensures "<<" + (a + (b + "")) + " >>" == "<<" + a + b + " >>"
  {
  }

  lemma Group3(a: string, b: string, c: string)
    ensures "<<" + (a + (b + (c + ""))) + " >>" == "<<" + a + b + c + " >>"
  {
  }

  lemma Group5(a: string, b: string, c: string, d: string, e: string)
    ensures "<<" + (a + (b + (c + (d + (e + ""))))) + " >>" == "<<" + a + b + c + d + e + " >>"
  {
  }

  lemma CatalogDenotes()
    ensures CATALOG == Notation(CatalogObject()) + END_OBJ
  {
    var rest := Only("Pages", Reference(2, 0));
    var es := Entry("Type", Name("Catalog"), rest);
    assert Notation(Name("Catalog")) == "/" + "Catalog";
    assert CatalogObject() == Dictionary(es);
    hide Notation, EntriesNotation, END_OBJ;
    Values();
    assert " /Type /Catalog" == " /" + "Type" + " " + ("/" + "Catalog");
    EntryIs("Type", Name("Catalog"), rest, " /Type /Catalog");
    assert " /Pages 2 0 R" == " /" + "Pages" + " " + "2 0 R";
    EntryIs("Pages", Reference(2, 0), NoEntries, " /Pages 2 0 R");
    DictionaryNotation(es);
    Group2(" /Type /Catalog", " /Pages 2 0 R");
  }

  lemma PagesDenotes()
    ensures PAGES == Notation(PagesObject()) + END_OBJ
  {
    var kids := Array(Item(Reference(3, 0), NoItems));
    var rest2 := Only("Count", Number(1));
    var rest1 := Entry("Kids", kids, rest2);
    var es := Entry("Type", Name("Pages"), rest1);
    assert Notation(Name("Pages")) == "/" + "Pages";
    KidsNotation();
    assert PagesObject() == Dictionary(es);
    hide Notation, EntriesNotation, END_OBJ;
    Values();
    assert " /Type /Pages" == " /" + "Type" + " " + ("/" + "Pages");
    EntryIs("Type", Name("Pages"), rest1, " /Type /Pages");
    assert " /Kids [3 0 R]" == " /" + "Kids" + " " + "[3 0 R]";
    EntryIs("Kids", kids, rest2, " /Kids [3 0 R]");
    assert " /Count 1" == " /" + "Count" + " " + "1";
    EntryIs("Count", Number(1), NoEntries, " /Count 1");
    DictionaryNotation(es);
    Group3(" /Type /Pages", " /Kids [3 0 R]", " /Count 1");
  }

  lemma KidsNotation()
    ensures Notation(Array(Item(Reference(3, 0), NoItems))) == "[3 0 R]"
  {
    SmallDecimals();
    hide Dec;
    assert ItemsNotation(Item(Reference(3, 0), NoItems)) == "3 0 R";
  }

  lemma FontEntryTexts()
    ensures " /Type /Font" == " /" + "Type" + " " + ("/" + "Font")
    ensures " /Subtype /Type1" == " /" + "Subtype" + " " + ("/" + "Type1")
    ensures " /BaseFont /Helvetica" == " /" + "BaseFont" + " " + ("/" + "Helvetica")
  {
  }

  lemma FontDenotes()
    ensures FONT == Notation(FontObject()) + END_OBJ
  {
    var rest2 := Only("BaseFont", Name("Helvetica"));
    var rest1 := Entry("Subtype", Name("Type1"), rest2);
    var es := Entry("Type", Name("Font"), rest1);
    assert Notation(Name("Font")) == "/" + "Font" && Notation(Name("Type1")) == "/" + "Type1";
    assert Notation(Name("Helvetica")) == "/" + "Helvetica";
    assert FontObject() == Dictionary(es);
    hide Notation, EntriesNotation, END_OBJ;
    FontEntryTexts();
    EntryIs("Type", Name("Font"), rest1, " /Type /Font");
    EntryIs("Subtype", Name("Type1"), rest2, " /Subtype /Type1");
    EntryIs("BaseFont", Name("Helvetica"), NoEntries, " /BaseFont /Helvetica");
    DictionaryNotation(es);
    Group3(" /Type /Font", " /Subtype /Type1", " /BaseFont /Helvetica");
  }

  lemma TrailerDenotes()
    ensures TRAILER == "trailer\n" + Notation(TrailerObject()) + "\n"
  {
    var rest := Only("Root", Reference(1, 0));
    var es := Entry("Size", Number(6), rest);
    assert TrailerObject() == Dictionary(es);
    hide Notation, EntriesNotation;
    Values();
    assert " /Size 6" == " /" + "Size" + " " + "6";
    EntryIs("Size", Number(6), rest, " /Size 6");
    assert " /Root 1 0 R" == " /" + "Root" + " " + "1 0 R";
    EntryIs("Root", Reference(1, 0), NoEntries, " /Root 1 0 R");
    DictionaryNotation(es);
    Group2(" /Size 6", " /Root 1 0 R");
    TrailerGroup(" /Size 6", " /Root 1 0 R");
  }

  lemma TrailerGroup(a: string, b: string)
    ensures "trailer\n" + "<<" + a + b + " >>" + "\n" == "trailer\n" + ("<<" + a + b + " >>") + "\n"
  {
  }

  lemma BoxDenotes()
    ensures Notation(BoxObject()) == "[0 0 612 842]"
  {
    SmallDecimals();
    hide Dec;
  }

  lemma Group1(a: string)
    ensures "<<" + (a + "") + " >>" == "<<" + a + " >>"
  {
    assert a + "" == a;
  }

  lemma FontsDenotes()
    ensures Notation(Dictionary(Only("F1", Reference(5, 0)))) == FONTS
  {
    hide Notation, EntriesNotation;
    Values();
    assert " /F1 5 0 R" == " /" + "F1" + " " + "5 0 R";
    EntryIs("F1", Reference(5, 0), NoEntries, " /F1 5 0 R");
    DictionaryNotation(Only("F1", Reference(5, 0)));
    Group1(" /F1 5 0 R");
  }

  lemma ResourcesDenotes()
    ensures Notation(ResourcesObject()) == RESOURCES
  {
    var fonts := Dictionary(Only("F1", Reference(5, 0)));
    assert ResourcesObject() == Dictionary(Only("Font", fonts));
    FontsDenotes();
    hide Notation, EntriesNotation, FONTS, ResourcesObject;
    assert " /Font " == " /" + "Font" + " ";
    EntryIs("Font", fonts, NoEntries, " /Font " + FONTS);
    DictionaryNotation(Only("Font", fonts));
    Group1(" /Font " + FONTS);
  }

  lemma PageDenotes()
    ensures PAGE == Notation(PageObject()) + END_OBJ
  {
    var t4 := Only("Resources", ResourcesObject());
    var t3 := Entry("Contents", Reference(4, 0), t4);
    var t2 := Entry("MediaBox", BoxObject(), t3);
    var t1 := Entry("Parent", Reference(2, 0), t2);
    var es := Entry("Type", Name("Page"), t1);
    assert Notation(Name("Page")) == "/" + "Page";
    assert PageObject() == Dictionary(es);
    hide Notation, EntriesNotation, BoxObject, ResourcesObject, PageObject, END_OBJ, RESOURCES;
    BoxDenotes();
    ResourcesDenotes();
    Values();
    PageEntryTexts();
    EntryIs("Type", Name("Page"), t1, " /Type /Page");
    EntryIs("Parent", Reference(2, 0), t2, " /Parent 2 0 R");
    EntryIs("MediaBox", BoxObject(), t3, " /MediaBox [0 0 612 842]");
    EntryIs("Contents", Reference(4, 0), t4, " /Contents 4 0 R");
    EntryIs("Resources", ResourcesObject(), NoEntries, " /Resources " + RESOURCES);
    DictionaryNotation(es);
    Group5(" /Type /Page", " /Parent 2 0 R", " /MediaBox [0 0 612 842]", " /Contents 4 0 R", " /Resources " + RESOURCES);
  }

  lemma PageEntryTexts()
    ensures " /Type /Page" == " /" + "Type" + " " + ("/" + "Page")
    ensures " /Parent 2 0 R" == " /" + "Parent" + " " + "2 0 R"
    ensures " /MediaBox [0 0 612 842]" == " /" + "MediaBox" + " " + "[0 0 612 842]"
    ensures " /Contents 4 0 R" == " /" + "Contents" + " " + "4 0 R"
    ensures " /Resources " == " /" + "Resources" + " "
  {
  }

  predicate IsAlphanumeric(c: char) { 'a' <= c <= 'z' || 'A' <= c <= 'Z' || '0' <= c <= '9' }

  lemma Alphanumeric(w: string)
    requires forall i :: 0 <= i < |w| ==> IsAlphanumeric(w[i])
    ensures AllRegular(w)
  {
  }

  lemma KeysRegular()
    ensures AllRegular("Type") && AllRegular("Pages") && AllRegular("Kids") && AllRegular("Count") && AllRegular("Size")
    ensures AllRegular("Root") && AllRegular("Parent") && AllRegular("MediaBox") && AllRegular("Contents")
    ensures AllRegular("Resources") && AllRegular("Font") && AllRegular("F1") && AllRegular("Subtype")
    ensures AllRegular("BaseFont")
  {
    hide AllRegular;
    Alphanumeric("Type"); Alphanumeric("Pages"); Alphanumeric("Kids"); Alphanumeric("Count"); Alphanumeric("Size");
    Alphanumeric("Root"); Alphanumeric("Parent"); Alphanumeric("MediaBox"); Alphanumeric("Contents");
    Alphanumeric("Resources"); Alphanumeric("Font"); Alphanumeric("F1"); Alphanumeric("Subtype");
    Alphanumeric("BaseFont");
  }

  lemma NamesRegular()
    ensures AllRegular("Catalog") && AllRegular("Page") && AllRegular("Type1") && AllRegular("Helvetica")
  {
    hide AllRegular;
    Alphanumeric("Catalog"); Alphanumeric("Page"); Alphanumeric("Type1"); Alphanumeric("Helvetica");
  }

  lemma AllPlain()
    ensures Plain(CatalogObject()) && Plain(PagesObject()) && Plain(FontObject()) && Plain(TrailerObject())
    ensures Plain(PageObject())
  {
    hide AllRegular;
    KeysRegular();
    NamesRegular();
    assert Plain(ResourcesObject()) && Plain(BoxObject());
    hide ResourcesObject, BoxObject;
  }

  // ---- From the trailer to the text ----

  lemma EndobjNext(more: string)
    ensures var s := "\nendobj\n" + more; Ends(s) && Word(SkipWhite(s)) == "endobj"
  {
    var t := "endobj" + ("\n" + more);
    assert "\nendobj\n" + more == "\n" + t;
    assert ("\n" + t)[1..] == t;
    SkipNone(t);
    assert SkipWhite("\n" + t) == SkipWhite(t);
    assert AllRegular("endobj");
    WordOf("endobj", "\n" + more);
  }

  /** An object written in the file is the one its reference resolves to. */
  lemma Resolves(bs: seq<string>, k: nat, o: Object)
    requires |bs| == 5 && 1 <= k <= 5 && |Prefix(bs, 5)| < LIMIT
    requires bs[k - 1] == Notation(o) + END_OBJ && Plain(o) && !o.Number?
    ensures Resolve(FileOf(bs), Reference(k, 0)) == Some(o)
  {
    hide Prefix, FileOf, Locate, Notation, Plain, ReadObject, Word, SkipWhite, IsWhite, NoReference, Ends;
    NotationHead(o);
    LocatesBody(bs, k);
    var at := Locate(FileOf(bs), k, 0).value;
    var more := at[|bs[k - 1]|..];
    assert END_OBJ == "\nendobj\n";
    hide END_OBJ;
    assert at == Notation(o) + (END_OBJ + more);
    EndobjNext(more);
    ObjectReadsBack(o, "\nendobj\n" + more);
  }

  lemma ClosingShape(x: nat)
    ensures Closing(x) == "trailer\n" + (Notation(TrailerObject()) + ("\n" + START_MARK + Dec(x) + END_MARK))
    ensures StartsWith(Closing(x), "trailer\n")
    ensures Closing(x)[8..] == Notation(TrailerObject()) + ("\n" + START_MARK + Dec(x) + END_MARK)
  {
    TrailerDenotes();
    hide START_MARK, Dec, END_MARK, TRAILER, TrailerObject;
    var t := Notation(TrailerObject()) + ("\n" + START_MARK + Dec(x) + END_MARK);
    assert Closing(x) == "trailer\n" + t;
    assert ("trailer\n" + t)[..8] == "trailer\n" && ("trailer\n" + t)[8..] == t;
  }

  lemma TableEnds(body: string, es: string, x: nat)
    requires |es| == 100
    ensures var f, at := body + Table(es, x), |body| + |XREF_HEAD| + 120; at <= |f| && f[at..] == Closing(x)
  {
    assert |FREE_ENTRY| == 20;
    hide Closing, FREE_ENTRY, XREF_HEAD;
    var front := body + XREF_HEAD + FREE_ENTRY + es;
    assert body + Table(es, x) == front + Closing(x);
    Front(front, Closing(x));
  }

  lemma TrailerFields(x: nat)
    ensures Ends("\n" + START_MARK + Dec(x) + END_MARK)
    ensures Get(Some(TrailerObject()), "Size") == Some(Number(6)) && !TrailerObject().Number?
  {
  }

  lemma TrailerParse(f: string, first: nat, closing: string, rest: string)
    requires ReadXref(f) == Some(Xref(first, 6)) && first + 120 <= |f| && f[first + 120..] == closing
    requires StartsWith(closing, "trailer\n") && ReadObject(closing[8..]) == Some(Parsed(TrailerObject(), rest))
    requires Get(Some(TrailerObject()), "Size") == Some(Number(6))
    ensures Trailer(f) == Some(TrailerObject())
  {
    hide ReadXref, ReadObject, Get, TrailerObject, StartsWith;
  }

  lemma TrailerRead(x: nat)
    ensures exists rest :: ReadObject(Closing(x)[8..]) == Some(Parsed(TrailerObject(), rest))
  {
    var tail := "\n" + START_MARK + Dec(x) + END_MARK;
    TrailerFields(x);
    AllPlain();
    ClosingShape(x);
    hide *;
    ObjectReadsBack(TrailerObject(), tail);
    assert ReadObject(Closing(x)[8..]) == Some(Parsed(TrailerObject(), tail));
  }

  lemma TrailerIn(f: string, first: nat, x: nat)
    requires ReadXref(f) == Some(Xref(first, 6)) && first + 120 <= |f| && f[first + 120..] == Closing(x)
    ensures Trailer(f) == Some(TrailerObject())
  {
    hide *;
    TrailerFields(x);
    ClosingShape(x);
    TrailerRead(x);
    var rest :| ReadObject(Closing(x)[8..]) == Some(Parsed(TrailerObject(), rest));
    TrailerParse(f, first, Closing(x), rest);
  }

  lemma TrailerOf(body: string, es: string)
    requires |es| == 100
    ensures Trailer(body + Table(es, |body|)) == Some(TrailerObject())
  {
    hide *;
    ReadXrefFound(body, es);
    TableEnds(body, es, |body|);
    TrailerIn(body + Table(es, |body|), |body| + |XREF_HEAD|, |body|);
  }

  lemma TrailerFound(bs: seq<string>)
    requires |bs| == 5 && |Prefix(bs, 5)| < LIMIT
    ensures Trailer(FileOf(bs)) == Some(TrailerObject())
  {
    assert FileOf(bs) == Prefix(bs, 5) + Table(XrefLines(bs, 5), |Prefix(bs, 5)|);
    hide *;
    EntriesLength(bs, 5);
    TrailerOf(Prefix(bs, 5), XrefLines(bs, 5));
  }

  lemma BodiesDenote(stream: string)
    ensures var bs := Bodies(stream);
            && bs[0] == Notation(CatalogObject()) + END_OBJ && bs[1] == Notation(PagesObject()) + END_OBJ
            && bs[2] == Notation(PageObject()) + END_OBJ && bs[4] == Notation(FontObject()) + END_OBJ
            && Plain(CatalogObject()) && Plain(PagesObject()) && Plain(PageObject()) && Plain(FontObject())
  {
    CatalogDenotes();
    PagesDenotes();
    PageDenotes();
    FontDenotes();
    AllPlain();
    hide END_OBJ, Notation, CATALOG, PAGES, PAGE, FONT, CatalogObject, PagesObject, PageObject, FontObject, Plain;
  }

  lemma Objects(stream: string)
    requires |Prefix(Bodies(stream), 5)| < LIMIT
    ensures var f := FileOf(Bodies(stream));
            && Resolve(f, Reference(1, 0)) == Some(CatalogObject()) && Resolve(f, Reference(2, 0)) == Some(PagesObject())
            && Resolve(f, Reference(3, 0)) == Some(PageObject()) && Resolve(f, Reference(5, 0)) == Some(FontObject())
            && Trailer(f) == Some(TrailerObject())
  {
    var bs := Bodies(stream);
    BodiesDenote(stream);
    assert !CatalogObject().Number? && !PagesObject().Number? && !PageObject().Number? && !FontObject().Number?;
    hide Notation, Bodies, CatalogObject, PagesObject, PageObject, FontObject, Plain, FileOf, Prefix, Resolve, END_OBJ;
    Resolves(bs, 1, CatalogObject());
    Resolves(bs, 2, PagesObject());
    Resolves(bs, 3, PageObject());
    Resolves(bs, 5, FontObject());
    TrailerFound(bs);
  }

  lemma CatalogEntries()
    ensures Get(Some(TrailerObject()), "Root") == Some(Reference(1, 0))
    ensures HasType(Some(CatalogObject()), "Catalog") && Get(Some(CatalogObject()), "Pages") == Some(Reference(2, 0))
    ensures HasType(Some(PagesObject()), "Pages")
    ensures Get(Some(PagesObject()), "Kids") == Some(Array(Item(Reference(3, 0), NoItems)))
  {
  }

  lemma PageEntries()
    ensures HasType(Some(PageObject()), "Page") && Get(Some(PageObject()), "Parent") == Some(Reference(2, 0))
    ensures Get(Some(PageObject()), "Contents") == Some(Reference(4, 0))
    ensures Get(Some(PageObject()), "MediaBox") == Some(BoxObject())
    ensures Get(Some(PageObject()), "Resources") == Some(ResourcesObject())
  {
    hide BoxObject, ResourcesObject;
  }

  lemma FontEntries()
    ensures Get(Get(Some(ResourcesObject()), "Font"), "F1") == Some(Reference(5, 0))
    ensures IsStandardFont(Some(FontObject()))
    ensures Numbers4(Some(BoxObject())) == Some((0, 0, 612, 842))
  {
  }

  lemma FirstPageFound(stream: string)
    requires |Prefix(Bodies(stream), 5)| < LIMIT
    ensures var f := FileOf(Bodies(stream));
            FirstPage(f) == Some(PageObject()) && FontOf(f, Some(PageObject()), "F1") == Some(FontObject())
  {
    hide Get, HasType, Resolve, Trailer, FileOf, Bodies, Prefix, CatalogObject, PagesObject, PageObject, FontObject,
         TrailerObject, ResourcesObject, BoxObject;
    Objects(stream);
    CatalogEntries();
    PageEntries();
    FontEntries();
  }

  lemma StreamBody(stream: string)
    ensures Bodies(stream)[3] == StreamObject(stream) && StreamObject(stream) != "" && !IsWhite(StreamObject(stream)[0])
  {
    hide CATALOG, PAGES, PAGE, FONT, Dec, STREAM_HEAD, STREAM_TAIL;
    assert StreamObject(stream)[0] == LENGTH_HEAD[0] == '<';
  }

  lemma StreamLocated(stream: string)
    requires |Prefix(Bodies(stream), 5)| < LIMIT
    ensures Locate(FileOf(Bodies(stream)), 4, 0).Some?
    ensures ReadStream(Locate(FileOf(Bodies(stream)), 4, 0).value) == Some(stream)
  {
    var bs := Bodies(stream);
    hide *;
    StreamBody(stream);
    LocatesBody(bs, 4);
    var at := Locate(FileOf(bs), 4, 0).value;
    assert at == StreamObject(stream) + at[|StreamObject(stream)|..];
    StreamReadsBack(stream, at[|StreamObject(stream)|..]);
  }

  lemma HeaderStarts(t: string)
    ensures StartsWith(HEADER + t, "%PDF-1.")
  {
    assert (HEADER + t)[..7] == HEADER[..7] == "%PDF-1.";
  }

  lemma HeaderFirst(bs: seq<string>)
    requires |bs| == 5
    ensures StartsWith(FileOf(bs), "%PDF-1.")
  {
    hide *;
    var rest := PrefixSplit(bs, 0, 5);
    var t := FileShape(bs);
    Assoc(HEADER, rest, t);
    HeaderStarts(rest + t);
  }

  lemma FileShape(bs: seq<string>) returns (table: string)
    requires |bs| == 5
    ensures FileOf(bs) == Prefix(bs, 5) + table && Prefix(bs, 0) == HEADER
  {
    hide HEADER, Table, XrefLines, ObjHead;
    table := Table(XrefLines(bs, 5), |Prefix(bs, 5)|);
  }

  lemma ContentFound(f: string, page: Object, stream: string)
    requires Get(Some(page), "Contents") == Some(Reference(4, 0))
    requires Locate(f, 4, 0).Some? && ReadStream(Locate(f, 4, 0).value) == Some(stream)
    ensures ContentOf(f, Some(page)) == ReadContent(stream)
  {
    hide Get, Locate, ReadStream, ReadContent;
  }

  lemma TextExtracted(f: string, page: Object, font: Object, t: TextObject, box: Object)
    requires StartsWith(f, "%PDF-1.") && FirstPage(f) == Some(page) && ContentOf(f, Some(page)) == Some(t)
    requires FontOf(f, Some(page), t.font) == Some(font) && IsStandardFont(Some(font))
    requires Get(Some(page), "MediaBox") == Some(box) && OnSheet(t, Numbers4(Some(box)))
    ensures ExtractText(f) == Some(t.lines)
  {
    hide StartsWith, FirstPage, ContentOf, FontOf, IsStandardFont, Get, OnSheet, Numbers4;
  }

  /** Fifty-five lines fit on the sheet. */
  lemma LinesFit(lines: seq<string>)
    requires |lines| <= 55
    ensures OnSheet(TextObject("F1", 50, 780, 14, lines), Some((0, 0, 612, 842)))
  {
  }

  /** Opening the file in a reader, which goes from the trailer over the catalog and the page tree to the page, shows
      the first 55 report lines, for every report text. */
  lemma ReportReadsBack(lines: seq<string>)
    requires |lines| <= PAGE_LINES && forall i :: 0 <= i < |lines| ==> '\n' !in lines[i]
    ensures ExtractText(FileOf(Bodies(StreamOf(lines)))) == Some(ShownLines(lines))
  {
    var stream := StreamOf(lines);
    var f := FileOf(Bodies(stream));
    assert |ShownLines(lines)| <= 55;
    hide *;
    OffsetsFit(lines);
    FirstPageFound(stream);
    PageEntries();
    FontEntries();
    StreamLocated(stream);
    ContentReadsBack(lines);
    ContentFound(f, PageObject(), stream);
    HeaderFirst(Bodies(stream));
    LinesFit(ShownLines(lines));
    TextExtracted(f, PageObject(), FontObject(), TextObject("F1", 50, 780, 14, ShownLines(lines)), BoxObject());
  }

  /** The loop over the page's lines and the encoding of the joined operators. */
  method WriteStream(lines: seq<string>) returns (stream: string)
    ensures stream == StreamOf(lines)
  {
    hide Replace, Escape, Join, PREAMBLE;
    var streamLines := PREAMBLE;
    for i := 0 to |lines|
      invariant streamLines == PREAMBLE + AllOps(lines[..i])
    {
      var escaped := Replace(Replace(Replace(lines[i], '\\'), '('), ')');
      ThreeReplacesAreOneEscape(lines[i]);
      if |escaped| > WIDTH {
        escaped := escaped[..KEPT] + DOTS;
      }
      assert lines[..i + 1][..i] == lines[..i];
      assert AllOps(lines[..i + 1]) == AllOps(lines[..i]) + LineOps(lines[i]);
      streamLines := streamLines + ["(" + escaped + ") Tj"];
      streamLines := streamLines + ["T*"];
    }
    assert lines[..|lines|] == lines;
    JoinedContent(lines);
    stream := Latin1(Join(streamLines + ["ET"]));
  }

  /** Writing the objects, the cross-reference table and the trailer into one buffer. */
  method WriteFile(bodies: seq<string>) returns (out: string)
    requires |bodies| == 5
    ensures out == FileOf(bodies)
  {
    hide ObjHead, XrefLine, Dec, HEADER, XREF_HEAD, FREE_ENTRY, TRAILER, START_MARK, END_MARK;
    out := HEADER;
    var offsets: seq<nat> := [];
    for k := 0 to 5
      invariant out == Prefix(bodies, k)
      invariant |offsets| == k && forall j :: 0 <= j < k ==> offsets[j] == |Prefix(bodies, j)|
    {
      offsets := offsets + [|out|];
      out := out + (ObjHead(k + 1) + bodies[k]);
    }
    var xrefPos := |out|;
    out := out + XREF_HEAD + FREE_ENTRY;
    ghost var before := out;
    assert before == before + XrefLines(bodies, 0);
    for k := 0 to 5
      invariant out == before + XrefLines(bodies, k)
    {
      assert before + XrefLines(bodies, k) + XrefLine(offsets[k])
          == before + (XrefLines(bodies, k) + XrefLine(offsets[k]));
      out := out + XrefLine(offsets[k]);
    }
    ghost var es := XrefLines(bodies, 5);
    out := out + (TRAILER + START_MARK + Dec(xrefPos) + END_MARK);
    assert Prefix(bodies, 5) + XREF_HEAD + FREE_ENTRY + es + Closing(xrefPos) ==
           Prefix(bodies, 5) + (XREF_HEAD + FREE_ENTRY + es + Closing(xrefPos));
  }

  /** generate_pdf_report_bytes on the rendered report text: for every text the result is a file from which a reader
      shows the first 55 lines, and whose cross-reference table leads to every object. */
  method GeneratePdf(text: string) returns (out: string)
    ensures ExtractText(out) == Some(ShownLines(OnPage(Split(text))))
    ensures forall k :: 1 <= k <= 5 ==>
              Locate(out, k, 0).Some? && Bodies(StreamOf(OnPage(Split(text))))[k - 1] <= Locate(out, k, 0).value
  {
    hide Locate, ExtractText, StreamOf, FileOf, Prefix, ShownLines, StreamObject, CATALOG, PAGES, PAGE, FONT;
    var lines := OnPage(Split(text));
    var stream := WriteStream(lines);
    out := WriteFile(Bodies(stream));
    ReportReadsBack(lines);
    OffsetsFit(lines);
    forall k | 1 <= k <= 5 ensures Locate(out, k, 0).Some? && Bodies(stream)[k - 1] <= Locate(out, k, 0).value {
      BodiesStart(stream, k);
      LocatesBody(Bodies(stream), k);
    }
  }

  lemma BodiesStart(stream: string, k: nat)
    requires 1 <= k <= 5
    ensures Bodies(stream)[k - 1] != "" && !IsWhite(Bodies(stream)[k - 1][0])
  {
  }
}
