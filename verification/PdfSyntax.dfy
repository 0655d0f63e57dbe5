/** A reader for a part of PDF (ISO 32000-1): objects, the cross-reference table, the page tree and simple text
    objects.  A file is a byte string, held as a string of characters below 256.  Nothing here refers to the writer. */
module PdfSyntax {
  import opened Text
  import opened Wrappers

  datatype Literal = Literal(text: string, rest: string)

  // ---- Literal strings, section 7.3.4.2 ----

  predicate IsOctal(c: char) { '0' <= c <= '7' }

  /** The number of octal digits, at most three, at the start of s. */
  function OctalRun(s: string): (k: nat)
    ensures k <= 3 && k <= |s|
    ensures k > 0 <==> s != [] && IsOctal(s[0])
    ensures forall i :: 0 <= i < k ==> IsOctal(s[i])
  {
    if |s| >= 1 && IsOctal(s[0]) then
      if |s| >= 2 && IsOctal(s[1]) then
        if |s| >= 3 && IsOctal(s[2]) then 3 else 2
      else 1
    else 0
  }

  function OctalValue(s: string): (n: nat)
    requires forall i :: 0 <= i < |s| ==> IsOctal(s[i])
  {
    if s == [] then 0
    else
      var c := s[|s| - 1];
      assert IsOctal(c);
      8 * OctalValue(s[..|s| - 1]) + (c as int - '0' as int)
  }

  /** The character a reverse solidus followed by c stands for; any other c stands for itself. */
  function Escaped(c: char): (r: char) {
    match c
    case 'n' => '\n'
    case 'r' => '\r'
    case 't' => '\t'
    case 'b' => 8 as char
    case 'f' => 12 as char
    case _ => c
  }

  function Prepend(t: string, r: Option<Literal>): (q: Option<Literal>) {
    if r.None? then None else Some(Literal(t + r.value.text, r.value.rest))
  }

  /** Reads a literal string whose opening parenthesis has been consumed, with `depth` further parentheses
      open.  Yields the text and what follows the closing parenthesis. */
  function ReadLiteral(s: string, depth: nat): (r: Option<Literal>)
    decreases |s|
  {
    if s == [] then None
    else if s[0] == ')' then
      if depth == 0 then Some(Literal("", s[1..])) else Prepend(")", ReadLiteral(s[1..], depth - 1))
    else if s[0] == '(' then Prepend("(", ReadLiteral(s[1..], depth + 1))
    else if s[0] == '\\' then
      if |s| == 1 then None
      else if IsOctal(s[1]) then
        var k := OctalRun(s[1..]);
        var code := OctalValue(s[1..][..k]) % 256;
        Prepend([code as char], ReadLiteral(s[1 + k..], depth))
      else if s[1] == '\r' then ReadLiteral(if |s| > 2 && s[2] == '\n' then s[3..] else s[2..], depth)
      else if s[1] == '\n' then ReadLiteral(s[2..], depth)
      else Prepend([Escaped(s[1])], ReadLiteral(s[2..], depth))
    else if s[0] == '\r' then Prepend("\n", ReadLiteral(if |s| > 1 && s[1] == '\n' then s[2..] else s[1..], depth))
    else Prepend([s[0]], ReadLiteral(s[1..], depth))
  }

  // ---- Lexical conventions, section 7.2 ----

  predicate IsWhite(c: char) { c == ' ' || c == '\n' || c == '\r' || c == '\t' || c as int == 0 || c as int == 12 }

  predicate IsDelimiter(c: char) { c in "()<>[]{}/%" }

  predicate IsRegular(c: char) { !IsWhite(c) && !IsDelimiter(c) }

  function SkipWhite(s: string): (r: string)
    ensures |r| <= |s|
    ensures r == "" || !IsWhite(r[0])
  {
    if s != "" && IsWhite(s[0]) then SkipWhite(s[1..]) else s
  }

  /** The regular characters at the start of s. */
  function Word(s: string): (w: string)
    ensures w <= s
    ensures forall i :: 0 <= i < |w| ==> IsRegular(w[i])
  {
    if s == "" || !IsRegular(s[0]) then "" else [s[0]] + Word(s[1..])
  }

  // ---- Objects, section 7.3 ----

  datatype Object =
    | Name(name: string)
    | Number(value: nat)
    | Reference(number: nat, generation: nat)
    | Array(items: Items)
    | Dictionary(entries: Entries)

  datatype Items = NoItems | Item(head: Object, tail: Items)

  datatype Entries = NoEntries | Entry(key: string, value: Object, tail: Entries)

  datatype Parsed<T> = Parsed(value: T, rest: string)

  predicate IsNumeral(w: string) { w != "" && AllDigits(w) }

  /** The generation number and the R that make a number before them a reference. */
  function ReadGeneration(s: string): (g: Option<Parsed<nat>>)
    ensures g.Some? ==> |g.value.rest| <= |s|
  {
    var t := SkipWhite(s);
    var w := Word(t);
    var u := SkipWhite(t[|w|..]);
    if IsNumeral(w) && Word(u) == "R" then Some(Parsed(DecValue(w), u[1..])) else None
  }

  function ReadObject(s: string): (r: Option<Parsed<Object>>)
    ensures r.Some? ==> |r.value.rest| < |s|
    decreases |s|, 0
  {
    var t := SkipWhite(s);
    if t == "" then None
    else if t[0] == '/' then
      var w := Word(t[1..]);
      Some(Parsed(Name(w), t[1..][|w|..]))
    else if t[0] == '[' then
      var items := ReadItems(t[1..]);
      if items.None? then None else Some(Parsed(Array(items.value.value), items.value.rest))
    else if StartsWith(t, "<<") then
      var entries := ReadEntries(t[2..]);
      if entries.None? then None else Some(Parsed(Dictionary(entries.value.value), entries.value.rest))
    else
      var w := Word(t);
      if !IsNumeral(w) then None
      else
        var g := ReadGeneration(t[|w|..]);
        if g.None? then Some(Parsed(Number(DecValue(w)), t[|w|..]))
        else Some(Parsed(Reference(DecValue(w), g.value.value), g.value.rest))
  }

  function ReadItems(s: string): (r: Option<Parsed<Items>>)
    ensures r.Some? ==> |r.value.rest| < |s|
    decreases |s|, 1
  {
    var t := SkipWhite(s);
    if t == "" then None
    else if t[0] == ']' then Some(Parsed(NoItems, t[1..]))
    else
      var o := ReadObject(t);
      if o.None? then None
      else
        var more := ReadItems(o.value.rest);
        if more.None? then None else Some(Parsed(Item(o.value.value, more.value.value), more.value.rest))
  }

  function ReadEntries(s: string): (r: Option<Parsed<Entries>>)
    ensures r.Some? ==> |r.value.rest| < |s|
    decreases |s|, 1
  {
    var t := SkipWhite(s);
    if StartsWith(t, ">>") then Some(Parsed(NoEntries, t[2..]))
    else if t == "" || t[0] != '/' then None
    else
      var w := Word(t[1..]);
      var o := ReadObject(t[1..][|w|..]);
      if o.None? then None
      else
        var more := ReadEntries(o.value.rest);
        if more.None? then None else Some(Parsed(Entry(w, o.value.value, more.value.value), more.value.rest))
  }

  function Lookup(es: Entries, key: string): (o: Option<Object>) {
    match es
    case NoEntries => None
    case Entry(k, v, tail) => if k == key then Some(v) else Lookup(tail, key)
  }

  // ---- The usual notation of an object, and that it is read back ----

  function Notation(o: Object): (s: string) {
    match o
    case Name(n) => "/" + n
    case Number(n) => Dec(n)
    case Reference(n, g) => Dec(n) + " " + Dec(g) + " R"
    case Array(xs) => "[" + ItemsNotation(xs) + "]"
    case Dictionary(es) => "<<" + EntriesNotation(es) + " >>"
  }

  function ItemsNotation(xs: Items): (s: string) {
    match xs
    case NoItems => ""
    case Item(h, t) => Notation(h) + (if t.NoItems? then "" else " " + ItemsNotation(t))
  }

  function EntriesNotation(es: Entries): (s: string) {
    match es
    case NoEntries => ""
    case Entry(k, v, t) => " /" + k + " " + Notation(v) + EntriesNotation(t)
  }

  predicate AllRegular(w: string) { forall i :: 0 <= i < |w| ==> IsRegular(w[i]) }

  /** All names in the object are made of regular characters. */
  predicate Plain(o: Object) {
    match o
    case Name(n) => AllRegular(n)
    case Number(_) => true
    case Reference(_, _) => true
    case Array(xs) => PlainItems(xs)
    case Dictionary(es) => PlainEntries(es)
  }

  predicate PlainItems(xs: Items) { xs.Item? ==> Plain(xs.head) && PlainItems(xs.tail) }

  predicate PlainEntries(es: Entries) {
    es.Entry? ==> AllRegular(es.key) && Plain(es.value) && PlainEntries(es.tail)
  }

  /** A word ends where s begins. */
  predicate Ends(s: string) { s == "" || !IsRegular(s[0]) }

  lemma {:induction false} WordOf(w: string, rest: string)
    requires AllRegular(w) && Ends(rest)
    ensures Word(w + rest) == w
  {
    if w == "" {
      assert w + rest == rest;
    } else {
      WordOf(w[1..], rest);
      assert (w + rest)[1..] == w[1..] + rest;
    }
  }

  lemma DecRegular(n: nat)
    ensures AllRegular(Dec(n)) && IsNumeral(Dec(n))
  {
    var d := Dec(n);
    forall i | 0 <= i < |d| ensures IsRegular(d[i]) {
      assert IsDigit(d[i]);
    }
  }

  /** The first character of a notation: no white space, and no R. */
  lemma NotationHead(o: Object)
    ensures Notation(o) != "" && !IsWhite(Notation(o)[0]) && Notation(o)[0] != 'R'
    ensures Notation(o)[0] != ']' && Notation(o)[0] != '>'
  {
    match o
    case Number(n) => DecRegular(n); assert IsDigit(Dec(n)[0]);
    case Reference(n, g) => DecRegular(n); assert IsDigit(Dec(n)[0]);
    case _ =>
  }

  /** No R comes next in s. */
  predicate NoR(s: string) { Word(SkipWhite(s)) != "R" }

  lemma SkipNone(s: string)
    requires s != "" && !IsWhite(s[0])
    ensures SkipWhite(s) == s && SkipWhite(" " + s) == s
  {
    assert (" " + s)[1..] == s;
  }

  lemma NotationNoR(o: Object, rest: string)
    ensures NoR(Notation(o) + rest) && NoR(" " + Notation(o) + rest)
    ensures SkipWhite(" " + Notation(o) + rest) == Notation(o) + rest == SkipWhite(Notation(o) + rest)
  {
    hide Notation, SkipWhite, Word, IsWhite, IsRegular;
    NotationHead(o);
    var s := Notation(o) + rest;
    assert s[0] == Notation(o)[0];
    assert " " + Notation(o) + rest == " " + s;
    SkipNone(s);
    WordFirst(s, 'R');
  }

  lemma WordFirst(s: string, c: char)
    requires s != "" && s[0] != c
    ensures Word(s) != [c]
  {
  }

  lemma StartsFirst(s: string, p: string)
    requires p != "" && s != "" && s[0] != p[0]
    ensures !StartsWith(s, p)
  {
    if |p| <= |s| {
      assert s[..|p|][0] == s[0];
    }
  }

  /** A number and white space in front of s would not make a reference. */
  predicate NoReference(s: string) { ReadGeneration(s).None? }

  lemma NumeralNoReference(n: nat, rest: string)
    requires Ends(rest) && NoR(rest)
    ensures NoReference(" " + Dec(n) + rest)
  {
    DecRegular(n);
    WordOf(Dec(n), rest);
    NotationNoR(Number(n), rest);
    assert (Dec(n) + rest)[|Dec(n)|..] == rest;
  }

  /** A notation behind a number does not make it a reference, if what follows does not begin with R. */
  lemma NotationNoReference(o: Object, rest: string)
    requires Plain(o) && Ends(rest) && NoR(rest)
    ensures NoReference(" " + Notation(o) + rest)
  {
    if o.Number? {
      NumeralNoReference(o.value, rest);
    } else if o.Reference? {
      PairNoReference(o.number, o.generation, rest);
    } else {
      SymbolNoReference(o, rest);
    }
  }

  lemma PairShape(n: nat, g: nat, rest: string)
    ensures var tail := " " + Dec(g) + " R" + rest;
            && tail == " " + Notation(Number(g)) + (" R" + rest) && Ends(tail)
            && " " + Notation(Reference(n, g)) + rest == " " + Dec(n) + tail
  {
    hide Dec;
  }

  lemma PairNoReference(n: nat, g: nat, rest: string)
    ensures NoReference(" " + Notation(Reference(n, g)) + rest)
  {
    hide *;
    NotationNoR(Number(g), " R" + rest);
    PairShape(n, g, rest);
    NumeralNoReference(n, " " + Dec(g) + " R" + rest);
  }

  lemma SymbolNoReference(o: Object, rest: string)
    requires !o.Number? && !o.Reference?
    ensures NoReference(" " + Notation(o) + rest)
  {
    assert IsDelimiter(Notation(o)[0]) by {
      assert Notation(o)[0] in ['/', '[', '<'];
    }
    hide Notation;
    NotationHead(o);
    NotationNoR(o, rest);
    assert (Notation(o) + rest)[0] == Notation(o)[0];
    DelimiterNoReference(" " + Notation(o) + rest);
  }

  lemma DelimiterNoReference(s: string)
    requires SkipWhite(s) != "" && IsDelimiter(SkipWhite(s)[0])
    ensures NoReference(s) && NoR(s)
  {
    assert Word(SkipWhite(s)) == "";
  }

  // ReadObject, case by case.

  lemma ReadName(s: string)
    requires s != "" && s[0] == '/'
    ensures var w := Word(s[1..]); ReadObject(s) == Some(Parsed(Name(w), s[1..][|w|..]))
  {
    hide Word, ReadItems, ReadEntries, ReadGeneration;
    assert SkipWhite(s) == s;
  }

  lemma ReadArray(s: string)
    requires s != "" && s[0] == '['
    ensures var items := ReadItems(s[1..]);
            ReadObject(s) == if items.None? then None else Some(Parsed(Array(items.value.value), items.value.rest))
  {
    hide Word, ReadItems, ReadEntries, ReadGeneration;
    assert SkipWhite(s) == s;
  }

  lemma ReadDictionary(s: string)
    requires StartsWith(s, "<<")
    ensures var es := ReadEntries(s[2..]);
            ReadObject(s) == if es.None? then None else Some(Parsed(Dictionary(es.value.value), es.value.rest))
  {
    hide Word, ReadItems, ReadEntries, ReadGeneration;
    assert s[0] == s[..2][0] == '<';
    assert SkipWhite(s) == s;
  }

  lemma ReadNumeral(s: string, w: string)
    requires s != "" && SkipWhite(s) == s && s[0] != '/' && s[0] != '[' && !StartsWith(s, "<<")
    requires Word(s) == w && IsNumeral(w)
    ensures var g := ReadGeneration(s[|w|..]);
            ReadObject(s) == if g.None? then Some(Parsed(Number(DecValue(w)), s[|w|..]))
                             else Some(Parsed(Reference(DecValue(w), g.value.value), g.value.rest))
  {
    hide Word, ReadItems, ReadEntries, ReadGeneration, SkipWhite, DecValue, StartsWith;
  }

  lemma ReadSkipsSpace(s: string)
    ensures ReadObject(" " + s) == ReadObject(s)
  {
    hide Word, ReadItems, ReadEntries, ReadGeneration;
    assert (" " + s)[1..] == s;
    assert SkipWhite(" " + s) == SkipWhite(s);
  }

  lemma GenerationRead(g: nat, rest: string)
    requires Ends(rest)
    ensures ReadGeneration(" " + Dec(g) + " R" + rest) == Some(Parsed(g, rest))
  {
    hide Dec, DecValue, AllDigits, IsRegular;
    var tail, t := " " + Dec(g) + " R" + rest, Dec(g) + (" R" + rest);
    DecRegular(g);
    NotationNoR(Number(g), " R" + rest);
    assert Notation(Number(g)) == Dec(g);
    assert tail == " " + Notation(Number(g)) + (" R" + rest);
    assert SkipWhite(tail) == t;
    SpaceR(rest);
    WordOf(Dec(g), " R" + rest);
    assert t[|Dec(g)|..] == " R" + rest;
    assert ("R" + rest)[1..] == rest;
    DecOf(g);
  }

  lemma DecOf(n: nat)
    ensures IsNumeral(Dec(n)) && DecValue(Dec(n)) == n
  {
  }

  lemma SpaceR(rest: string)
    requires Ends(rest)
    ensures SkipWhite(" R" + rest) == "R" + rest && Word("R" + rest) == "R" && Ends(" R" + rest)
  {
    assert (" R" + rest)[1..] == "R" + rest;
    assert SkipWhite("R" + rest) == "R" + rest;
    WordOf("R", rest);
  }

  lemma ReferenceReadsBack(n: nat, g: nat, rest: string)
    requires Ends(rest)
    ensures ReadObject(Notation(Reference(n, g)) + rest) == Some(Parsed(Reference(n, g), rest))
  {
    var tail := " " + Dec(g) + " R" + rest;
    var s := Notation(Reference(n, g)) + rest;
    assert s == Dec(n) + tail;
    DecOf(n);
    DecRegular(n);
    assert Ends(tail);
    hide *;
    NumeralFirst(n, tail);
    WordOf(Dec(n), tail);
    assert s[|Dec(n)|..] == tail;
    GenerationRead(g, rest);
    ReadNumeral(s, Dec(n));
  }

  /** A numeral is read neither as a name nor as an array nor as a dictionary. */
  lemma NumeralFirst(n: nat, rest: string)
    ensures var s := Dec(n) + rest;
            s != "" && SkipWhite(s) == s && s[0] != '/' && s[0] != '[' && !StartsWith(s, "<<")
  {
    DecRegular(n);
    var s := Dec(n) + rest;
    assert s[0] == Dec(n)[0] && IsDigit(s[0]);
    assert !IsWhite(s[0]);
    StartsFirst(s, "<<");
  }

  lemma NumberReadsBack(n: nat, rest: string)
    requires Ends(rest) && NoReference(rest)
    ensures ReadObject(Dec(n) + rest) == Some(Parsed(Number(n), rest))
  {
    assert ReadGeneration(rest).None?;
    DecOf(n);
    DecRegular(n);
    hide *;
    NumeralFirst(n, rest);
    WordOf(Dec(n), rest);
    assert (Dec(n) + rest)[|Dec(n)|..] == rest;
    ReadNumeral(Dec(n) + rest, Dec(n));
  }

  lemma NameReadsBack(n: string, rest: string)
    requires AllRegular(n) && Ends(rest)
    ensures ReadObject("/" + n + rest) == Some(Parsed(Name(n), rest))
  {
    hide *;
    var s := "/" + n + rest;
    assert s[1..] == n + rest;
    WordOf(n, rest);
    assert (n + rest)[|n|..] == rest;
    ReadName(s);
  }

  /** What is written in the usual notation is read as the object it denotes. */
  lemma {:induction false} ObjectReadsBack(o: Object, rest: string)
    requires Plain(o) && Ends(rest) && (o.Number? ==> NoReference(rest))
    ensures ReadObject(Notation(o) + rest) == Some(Parsed(o, rest))
    decreases o
  {
    match o
    case Name(n) => NameReadsBack(n, rest);
    case Number(n) => NumberReadsBack(n, rest);
    case Reference(n, g) => ReferenceReadsBack(n, g, rest);
    case Array(xs) =>
      ItemsReadBack(xs, rest);
      ArrayRead(xs, rest);
    case Dictionary(es) =>
      EntriesReadBack(es, rest);
      DictionaryRead(es, rest);
  }

  lemma ArrayShape(xs: Items, rest: string)
    ensures var t := ItemsNotation(xs) + "]" + rest;
            Notation(Array(xs)) + rest == "[" + t && ("[" + t)[1..] == t && ("[" + t)[0] == '['
  {
    hide ItemsNotation;
  }

  lemma ArrayRead(xs: Items, rest: string)
    requires ReadItems(ItemsNotation(xs) + "]" + rest) == Some(Parsed(xs, rest))
    ensures ReadObject(Notation(Array(xs)) + rest) == Some(Parsed(Array(xs), rest))
  {
    hide *;
    ArrayShape(xs, rest);
    ReadArray(Notation(Array(xs)) + rest);
  }

  lemma DictionaryShape(es: Entries, rest: string)
    ensures var t := EntriesRest(es, rest);
            Notation(Dictionary(es)) + rest == "<<" + t && StartsWith("<<" + t, "<<") && ("<<" + t)[2..] == t
  {
    hide EntriesNotation;
    var t := EntriesRest(es, rest);
    assert ("<<" + t)[..2] == "<<";
  }

  lemma DictionaryRead(es: Entries, rest: string)
    requires ReadEntries(EntriesRest(es, rest)) == Some(Parsed(es, rest))
    ensures ReadObject(Notation(Dictionary(es)) + rest) == Some(Parsed(Dictionary(es), rest))
  {
    hide *;
    DictionaryShape(es, rest);
    ReadDictionary(Notation(Dictionary(es)) + rest);
  }

  /** What stands behind an item: the closing bracket, or a space and the other items. */
  function ItemsRest(t: Items, rest: string): (s: string) {
    if t.NoItems? then "]" + rest else " " + (ItemsNotation(t) + "]" + rest)
  }

  lemma ItemsNotationIs(xs: Items)
    ensures xs.NoItems? ==> ItemsNotation(xs) == ""
    ensures xs.Item? ==>
              ItemsNotation(xs) == Notation(xs.head) + (if xs.tail.NoItems? then "" else " " + ItemsNotation(xs.tail))
  {
    hide Notation;
  }

  lemma Regroup(a: string, b: string, c: string)
    ensures a + "" + "]" + c == a + ("]" + c)
    ensures a + (" " + b) + "]" + c == a + (" " + (b + "]" + c))
  {
  }

  lemma ItemsShape(xs: Items, rest: string)
    ensures xs.NoItems? ==> ItemsNotation(xs) + "]" + rest == "]" + rest
    ensures xs.Item? ==> ItemsNotation(xs) + "]" + rest == Notation(xs.head) + ItemsRest(xs.tail, rest)
  {
    hide Notation, ItemsNotation;
    ItemsNotationIs(xs);
    if xs.Item? {
      Regroup(Notation(xs.head), ItemsNotation(xs.tail), rest);
    }
  }

  lemma Bracket(rest: string)
    ensures var s := "]" + rest;
            ReadItems(s) == Some(Parsed(NoItems, rest)) && NoReference(s) && NoR(s) && Ends(s)
  {
    var s := "]" + rest;
    SkipNone(s);
    assert s[1..] == rest;
    DelimiterNoReference(s);
  }

  lemma {:induction false} ItemsReadBack(xs: Items, rest: string)
    requires PlainItems(xs)
    ensures ReadItems(ItemsNotation(xs) + "]" + rest) == Some(Parsed(xs, rest))
    decreases xs
  {
    ItemsShape(xs, rest);
    if xs.NoItems? {
      hide *;
      Bracket(rest);
    } else {
      hide Notation, ItemsNotation, ReadObject, ReadItems, ItemsRest, Ends, NoReference, Plain;
      ItemsReadBack(xs.tail, rest);
      ItemsTail(xs.tail, rest);
      ObjectReadsBack(xs.head, ItemsRest(xs.tail, rest));
      ItemsStep(xs, ItemsRest(xs.tail, rest), rest);
    }
  }

  lemma RestEnds(t: Items, rest: string)
    ensures Ends(ItemsRest(t, rest)) && NoR(ItemsRest(t, rest))
  {
    if t.NoItems? {
      Bracket(rest);
    } else {
      ItemsShape(t, rest);
      hide Notation, ItemsNotation, NoR, SkipWhite;
      var more := ItemsRest(t.tail, rest);
      assert ItemsRest(t, rest) == " " + Notation(t.head) + more;
      NotationNoR(t.head, more);
    }
  }

  /** What follows an item is read as the other items and does not make a reference of it. */
  lemma ItemsTail(t: Items, rest: string)
    requires PlainItems(t) && ReadItems(ItemsNotation(t) + "]" + rest) == Some(Parsed(t, rest))
    ensures Ends(ItemsRest(t, rest)) && NoReference(ItemsRest(t, rest))
    ensures ReadItems(ItemsRest(t, rest)) == Some(Parsed(t, rest))
  {
    hide Notation, ItemsNotation, ReadItems, Ends, NoReference, NoR, Plain;
    RestEnds(t, rest);
    if t.NoItems? {
      Bracket(rest);
    } else {
      ItemsShape(t, rest);
      var more := ItemsRest(t.tail, rest);
      RestEnds(t.tail, rest);
      assert ItemsRest(t, rest) == " " + Notation(t.head) + more;
      NotationNoReference(t.head, more);
      SkipsSpace(ItemsNotation(t) + "]" + rest);
    }
  }

  lemma SkipsSpace(s: string)
    ensures ReadItems(" " + s) == ReadItems(s)
  {
    assert (" " + s)[1..] == s;
    assert SkipWhite(" " + s) == SkipWhite(s);
  }

  lemma ItemsStep(xs: Items, tail: string, rest: string)
    requires xs.Item? && ReadObject(Notation(xs.head) + tail) == Some(Parsed(xs.head, tail))
    requires ReadItems(tail) == Some(Parsed(xs.tail, rest))
    ensures ReadItems(Notation(xs.head) + tail) == Some(Parsed(xs, rest))
  {
    var s := Notation(xs.head) + tail;
    NotationHead(xs.head);
    NotationNoR(xs.head, tail);
    assert SkipWhite(s) == s && s[0] != ']';
  }

  /** What stands behind the key and value of a dictionary: the other entries and the closing mark. */
  function EntriesRest(es: Entries, rest: string): (s: string) { EntriesNotation(es) + " >>" + rest }

  lemma EntriesShape(es: Entries, rest: string)
    ensures es.NoEntries? ==> EntriesRest(es, rest) == " >>" + rest
    ensures es.Entry? ==>
              EntriesRest(es, rest) == " /" + es.key + " " + Notation(es.value) + EntriesRest(es.tail, rest)
  {
    hide Notation;
  }

  lemma ClosingMark(rest: string)
    ensures var s := " >>" + rest;
            ReadEntries(s) == Some(Parsed(NoEntries, rest)) && Ends(s) && NoReference(s)
  {
    var s, t := " >>" + rest, ">>" + rest;
    assert s == " " + t;
    SkipNone(t);
    assert t[..2] == ">>" && t[2..] == rest;
    DelimiterNoReference(s);
    hide SkipWhite, NoReference;
  }

  lemma {:induction false} EntriesReadBack(es: Entries, rest: string)
    requires PlainEntries(es)
    ensures ReadEntries(EntriesRest(es, rest)) == Some(Parsed(es, rest))
    ensures Ends(EntriesRest(es, rest)) && NoReference(EntriesRest(es, rest))
    decreases es
  {
    EntriesShape(es, rest);
    if es.NoEntries? {
      hide *;
      ClosingMark(rest);
    } else {
      hide Notation, EntriesNotation, ReadObject, ReadEntries, EntriesRest, Ends, NoReference, Plain;
      EntriesReadBack(es.tail, rest);
      ObjectReadsBack(es.value, EntriesRest(es.tail, rest));
      EntryRead(es, EntriesRest(es.tail, rest), rest);
    }
  }

  lemma EntryShape(key: string, value: string)
    requires AllRegular(key)
    ensures var s, t := " /" + key + " " + value, "/" + key + (" " + value);
            && SkipWhite(s) == t && Ends(s) && t[0] == '/' && !StartsWith(t, ">>")
            && t[1..] == key + (" " + value) && Word(t[1..]) == key && t[1..][|key|..] == " " + value
  {
    var s, t := " /" + key + " " + value, "/" + key + (" " + value);
    assert s[1..] == t && SkipWhite(t) == t;
    StartsFirst(t, ">>");
    WordOf(key, " " + value);
    assert t[1..] == key + (" " + value);
  }

  lemma EntryRead(es: Entries, tail: string, rest: string)
    requires es.Entry? && AllRegular(es.key)
    requires ReadObject(Notation(es.value) + tail) == Some(Parsed(es.value, tail))
    requires ReadEntries(tail) == Some(Parsed(es.tail, rest))
    ensures var s := " /" + es.key + " " + Notation(es.value) + tail;
            ReadEntries(s) == Some(Parsed(es, rest)) && Ends(s) && NoReference(s)
  {
    assert IsDelimiter('/');
    hide *;
    var value := Notation(es.value) + tail;
    var s := " /" + es.key + " " + value;
    assert s == " /" + es.key + " " + Notation(es.value) + tail;
    EntryShape(es.key, value);
    DelimiterNoReference(s);
    ReadSkipsSpace(value);
    EntriesStep(s, "/" + es.key + (" " + value), es, tail, rest);
  }

  lemma EntriesStep(s: string, t: string, es: Entries, tail: string, rest: string)
    requires es.Entry? && SkipWhite(s) == t && t != "" && t[0] == '/' && !StartsWith(t, ">>")
    requires Word(t[1..]) == es.key
    requires ReadObject(t[1..][|es.key|..]) == Some(Parsed(es.value, tail))
    requires ReadEntries(tail) == Some(Parsed(es.tail, rest))
    ensures ReadEntries(s) == Some(Parsed(es, rest))
  {
    hide Word, ReadObject, SkipWhite, StartsWith;
  }

  // ---- File structure, section 7.5 ----

  function LeadingDigits(s: string): (d: string)
    ensures AllDigits(d) && d <= s
  {
    if s == [] || !IsDigit(s[0]) then [] else [s[0]] + LeadingDigits(s[1..])
  }

  function TrailingDigits(s: string): (d: string)
    ensures AllDigits(d) && |d| <= |s| && s[|s| - |d|..] == d
  {
    if s == [] || !IsDigit(s[|s| - 1]) then [] else TrailingDigits(s[..|s| - 1]) + [s[|s| - 1]]
  }

  predicate EndsWith(s: string, suffix: string) {
    |suffix| <= |s| && s[|s| - |suffix|..] == suffix
  }

  /** The position announced at the end of the file (section 7.5.5). */
  function StartXref(f: string): (x: Option<nat>) {
    if !EndsWith(f, "\n%%EOF\n") then None
    else
      var body := f[..|f| - 7];
      var d := TrailingDigits(body);
      if d == [] || !EndsWith(body[..|body| - |d|], "startxref\n") then None else Some(DecValue(d))
  }

  /** A cross-reference table of one subsection that starts with object 0 (section 7.5.4): the position of its first
      entry and the number of entries. */
  datatype Xref = Xref(first: nat, count: nat)

  function ReadXref(f: string): (x: Option<Xref>) {
    var at := StartXref(f);
    if at.None? || at.value > |f| || !StartsWith(f[at.value..], "xref\n0 ") then None
    else
      var t := f[at.value..][7..];
      var n := LeadingDigits(t);
      if n == [] || !StartsWith(t[|n|..], "\n") then None else Some(Xref(at.value + 8 + |n|, DecValue(n)))
  }

  /** Entry k: 20 bytes. */
  function XrefEntry(f: string, k: nat): (e: Option<string>)
    ensures e.Some? ==> |e.value| == 20
  {
    var x := ReadXref(f);
    if x.None? || k >= x.value.count || x.value.first + 20 * k + 20 > |f| then None
    else Some(f[x.value.first + 20 * k..x.value.first + 20 * k + 20])
  }

  /** The offset of object k if it is in use: ten digits, the generation in five, an n and a two-character end of
      line. */
  function XrefOffset(f: string, k: nat, generation: nat): (o: Option<nat>) {
    var e := XrefEntry(f, k);
    if e.None? then None
    else
      var s := e.value;
      if AllDigits(s[..10]) && s[10] == ' ' && AllDigits(s[11..16]) && DecValue(s[11..16]) == generation
         && s[16] == ' ' && s[17] == 'n' && s[18..] in [" \n", " \r", "\r\n"]
      then Some(DecValue(s[..10])) else None
  }

  /** Reads "k generation obj". */
  function ReadHead(s: string, k: nat, generation: nat): (r: Option<string>) {
    var a := LeadingDigits(s);
    var t := SkipWhite(s[|a|..]);
    var b := LeadingDigits(t);
    var u := SkipWhite(t[|b|..]);
    if a != [] && DecValue(a) == k && b != [] && DecValue(b) == generation && Word(u) == "obj"
    then Some(SkipWhite(u[3..])) else None
  }

  /** The file from the body of an indirect object on, located through the cross-reference table. */
  function Locate(f: string, k: nat, generation: nat): (s: Option<string>) {
    var o := XrefOffset(f, k, generation);
    if o.None? || o.value > |f| then None else ReadHead(f[o.value..], k, generation)
  }

  /** The object a reference leads to, which must be followed by endobj. */
  function Resolve(f: string, o: Object): (r: Option<Object>) {
    if !o.Reference? then None
    else
      var s := Locate(f, o.number, o.generation);
      var p := if s.None? then None else ReadObject(s.value);
      if p.None? || Word(SkipWhite(p.value.rest)) != "endobj" then None else Some(p.value.value)
  }

  /** The entry of a dictionary. */
  function Get(o: Option<Object>, key: string): (r: Option<Object>) {
    if o.None? || !o.value.Dictionary? then None else Lookup(o.value.entries, key)
  }

  /** The entry of a dictionary, which must be a reference, resolved. */
  function Follow(f: string, o: Option<Object>, key: string): (r: Option<Object>) {
    var v := Get(o, key);
    if v.None? then None else Resolve(f, v.value)
  }

  predicate HasType(o: Option<Object>, kind: string) { Get(o, "Type") == Some(Name(kind)) }

  /** The trailer dictionary behind the table, whose size must be that of the table. */
  function Trailer(f: string): (t: Option<Object>) {
    var x := ReadXref(f);
    if x.None? || x.value.first + 20 * x.value.count > |f| then None
    else
      var s := f[x.value.first + 20 * x.value.count..];
      if !StartsWith(s, "trailer\n") then None
      else
        var p := ReadObject(s[8..]);
        if p.None? || Get(Some(p.value.value), "Size") != Some(Number(x.value.count)) then None else Some(p.value.value)
  }

  // ---- The page tree, section 7.7 ----

  /** The first page: a kid of the root of the page tree of the catalog that the trailer names. */
  function FirstPage(f: string): (p: Option<Object>) {
    var catalog := Follow(f, Trailer(f), "Root");
    var pages := Follow(f, catalog, "Pages");
    var kids := Get(pages, "Kids");
    if !HasType(catalog, "Catalog") || !HasType(pages, "Pages") || kids.None? || !kids.value.Array? then None
    else if kids.value.items.NoItems? then None
    else
      var page := Resolve(f, kids.value.items.head);
      if HasType(page, "Page") && Get(page, "Parent") == Get(catalog, "Pages") then page else None
  }

  /** The font resource of a page under the given name. */
  function FontOf(f: string, page: Option<Object>, name: string): (o: Option<Object>) {
    Follow(f, Get(Get(page, "Resources"), "Font"), name)
  }

  /** The data of a stream object: exactly /Length bytes, after which the object must end (section 7.3.8). */
  function ReadStream(s: string): (d: Option<string>) {
    var p := ReadObject(s);
    if p.None? then None
    else
      var n := Get(Some(p.value.value), "Length");
      if n.None? || !n.value.Number? || !StartsWith(p.value.rest, "\nstream\n") then None
      else
        var data := p.value.rest[8..];
        if n.value.value > |data| || !StartsWith(data[n.value.value..], "\nendstream\nendobj\n") then None
        else Some(data[..n.value.value])
  }

  // ---- Content streams: one text object that shows a string per line ----

  datatype TextObject = TextObject(font: string, x: nat, y: nat, leading: nat, lines: seq<string>)

  /** The strings shown by the remaining operators of the text object. */
  function ReadShows(s: string): (r: Option<seq<string>>)
    decreases |s|
  {
    if s == "ET" then Some([])
    else if s == [] || s[0] != '(' then None
    else
      var lit := ReadLiteral(s[1..], 0);
      if lit.None? || !StartsWith(lit.value.rest, " Tj\nT*\n") || |lit.value.rest| >= |s| then None
      else
        var more := ReadShows(lit.value.rest[7..]);
        if more.None? then None else Some([lit.value.text] + more.value)
  }

  /** Reads a number and the operator or separator behind it. */
  function ReadOperand(s: string, next: string): (r: Option<Parsed<nat>>) {
    var d := LeadingDigits(s);
    if d == "" || !StartsWith(s[|d|..], next) then None else Some(Parsed(DecValue(d), s[|d|..][|next|..]))
  }

  /** A text object in one font, with its start and its leading (section 9.4). */
  function ReadContent(s: string): (r: Option<TextObject>) {
    if !StartsWith(s, "BT\n/") then None
    else
      var font := Word(s[4..]);
      var t := s[4..][|font|..];
      var size := if StartsWith(t, " ") then ReadOperand(t[1..], " Tf\n") else None;
      var x := if size.None? then None else ReadOperand(size.value.rest, " ");
      var y := if x.None? then None else ReadOperand(x.value.rest, " Td\n");
      var leading := if y.None? then None else ReadOperand(y.value.rest, " TL\n");
      var lines := if leading.None? then None else ReadShows(leading.value.rest);
      if lines.None? then None
      else Some(TextObject(font, x.value.value, y.value.value, leading.value.value, lines.value))
  }

  // ---- What a viewer shows ----

  /** The standard fonts, which need no font program (section 9.6.2.2). */
  const STANDARD_FONTS: set<string> :=
    {"Times-Roman", "Times-Bold", "Times-Italic", "Times-BoldItalic", "Helvetica", "Helvetica-Bold",
     "Helvetica-Oblique", "Helvetica-BoldOblique", "Courier", "Courier-Bold", "Courier-Oblique",
     "Courier-BoldOblique", "Symbol", "ZapfDingbats"}

  predicate IsStandardFont(font: Option<Object>) {
    var base := Get(font, "BaseFont");
    HasType(font, "Font") && Get(font, "Subtype") == Some(Name("Type1"))
    && base.Some? && base.value.Name? && base.value.name in STANDARD_FONTS
  }

  /** The four numbers of a rectangle. */
  function Numbers4(o: Option<Object>): (r: Option<(nat, nat, nat, nat)>) {
    match o
    case Some(Array(Item(Number(a), Item(Number(b), Item(Number(c), Item(Number(d), NoItems)))))) => Some((a, b, c, d))
    case _ => None
  }

  /** Every line begins on the sheet. */
  predicate OnSheet(t: TextObject, box: Option<(nat, nat, nat, nat)>) {
    && box.Some? && box.value.0 <= t.x <= box.value.2 && t.y <= box.value.3
    && (t.lines != [] ==> t.y - t.leading * (|t.lines| - 1) >= box.value.1)
  }

  /** The text object that is the content of a page. */
  function ContentOf(f: string, page: Option<Object>): (t: Option<TextObject>) {
    var contents := Get(page, "Contents");
    if contents.None? || !contents.value.Reference? then None
    else
      var at := Locate(f, contents.value.number, contents.value.generation);
      var data := if at.None? then None else ReadStream(at.value);
      if data.None? then None else ReadContent(data.value)
  }

  /** The lines a viewer shows on the first page: the text that is the page's content, in a font that the page has,
      with every line on the sheet. */
  function ExtractText(f: string): (r: Option<seq<string>>) {
    var page := FirstPage(f);
    var text := ContentOf(f, page);
    if StartsWith(f, "%PDF-1.") && text.Some? && IsStandardFont(FontOf(f, page, text.value.font))
       && OnSheet(text.value, Numbers4(Get(page, "MediaBox")))
    then Some(text.value.lines) else None
  }
}
