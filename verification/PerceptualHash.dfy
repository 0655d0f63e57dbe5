/** Hex encodings of perceptual hashes and their Hamming distance. */
module PerceptualHash {
  import opened Wrappers

  // ---- Hex digits ----

  function HexDigit(v: int): (c: char)
    requires 0 <= v < 16
    ensures HexValue(c) == Some(v)
  {
    if v < 10 then ('0' as int + v) as char else ('a' as int + v - 10) as char
  }

  function HexValue(c: char): (v: Option<nat>)
    ensures v.Some? ==> v.value < 16
  {
    if '0' <= c <= '9' then Some(c as int - '0' as int)
    else if 'a' <= c <= 'f' then Some(c as int - 'a' as int + 10)
    else if 'A' <= c <= 'F' then Some(c as int - 'A' as int + 10)
    else None
  }

  /** The digits in order; capitals count as well. */
  lemma HexAlphabet(v: nat)
    requires v < 16
    ensures HexDigit(v) == "0123456789abcdef"[v] && HexValue("0123456789ABCDEF"[v]) == Some(v)
  {
  }

  predicate IsHex(h: string) { forall i :: 0 <= i < |h| ==> HexValue(h[i]).Some? }

  function Value(h: string): (n: nat)
    requires IsHex(h)
  {
    if h == [] then 0 else 16 * Value(h[..|h| - 1]) + HexValue(h[|h| - 1]).value
  }

  /** int(h, 16) on hex digits; anything else raises. */
  function Parse(h: string): (n: Option<nat>) {
    if h != [] && IsHex(h) then Some(Value(h)) else None
  }

  // ---- XOR and bit count of natural numbers ----

  function Xor(a: nat, b: nat): (x: nat) {
    if a == 0 && b == 0 then 0 else 2 * Xor(a / 2, b / 2) + if a % 2 == b % 2 then 0 else 1
  }

  /** bin(n).count("1") */
  function BitCount(n: nat): (k: nat) {
    if n == 0 then 0 else BitCount(n / 2) + n % 2
  }

  function Differing(a: nat, b: nat): (k: nat) { BitCount(Xor(a, b)) }

  /** One binary digit more on both sides. */
  lemma DifferingBit(a: nat, b: nat, x: nat, y: nat)
    requires x < 2 && y < 2
    ensures Differing(2 * a + x, 2 * b + y) == Differing(a, b) + if x == y then 0 else 1
  {
    assert (2 * a + x) / 2 == a && (2 * b + y) / 2 == b;
    assert Xor(0, 0) == 0;
    var z := Xor(a, b);
    var d := if x == y then 0 else 1;
    assert Xor(2 * a + x, 2 * b + y) == 2 * z + d;
    assert (2 * z + d) / 2 == z && (2 * z + d) % 2 == d;
  }

  /** The number with the given bits below a, most significant first. */
  function Bits(a: nat, b: seq<bool>): (n: nat) {
    if b == [] then a else 2 * Bits(a, b[..|b| - 1]) + if b[|b| - 1] then 1 else 0
  }

  /** Positions below n at which two bit lists differ. */
  function DiffUpTo(a: seq<bool>, b: seq<bool>, n: nat): (k: nat)
    requires n <= |a| && n <= |b|
  {
    if n == 0 then 0 else DiffUpTo(a, b, n - 1) + if a[n - 1] == b[n - 1] then 0 else 1
  }

  lemma {:induction false} DiffPrefix(a: seq<bool>, b: seq<bool>, m: nat, n: nat)
    requires n <= m <= |a| && m <= |b|
    ensures DiffUpTo(a[..m], b[..m], n) == DiffUpTo(a, b, n)
  {
    if n > 0 {
      DiffPrefix(a, b, m, n - 1);
    }
  }

  lemma {:induction false} DifferingBits(m: nat, n: nat, a: seq<bool>, b: seq<bool>)
    requires |a| == |b|
    ensures Differing(Bits(m, a), Bits(n, b)) == Differing(m, n) + DiffUpTo(a, b, |a|)
  {
    if a != [] {
      var k := |a| - 1;
      DifferingBits(m, n, a[..k], b[..k]);
      DiffPrefix(a, b, k, k);
      DifferingBit(Bits(m, a[..k]), Bits(n, b[..k]), if a[k] then 1 else 0, if b[k] then 1 else 0);
    }
  }

  lemma DiffSplit(a: seq<bool>, b: seq<bool>, i: nat, n: nat)
    requires i <= n <= |a| && n <= |b|
    ensures DiffUpTo(a, b, n) == DiffUpTo(a, b, i) + DiffUpTo(a[i..n], b[i..n], n - i)
  {
    if i < n {
      DiffSplit(a, b, i, n - 1);
      assert a[i..n][..n - 1 - i] == a[i..n - 1] && b[i..n][..n - 1 - i] == b[i..n - 1];
      DiffPrefix(a[i..n], b[i..n], n - 1 - i, n - 1 - i);
    }
  }

  // ---- A metric ----

  lemma {:induction false} DifferingSymmetric(a: nat, b: nat)
    ensures Xor(a, b) == Xor(b, a)
  {
    if a != 0 || b != 0 {
      DifferingSymmetric(a / 2, b / 2);
    }
  }

  lemma {:induction false} DifferingZeroIff(a: nat, b: nat)
    ensures Differing(a, b) == 0 <==> a == b
    decreases a + b
  {
    if a != 0 || b != 0 {
      DifferingZeroIff(a / 2, b / 2);
      DifferingBit(a / 2, b / 2, a % 2, b % 2);
    }
  }

  lemma {:induction false} DifferingTriangle(a: nat, b: nat, c: nat)
    ensures Differing(a, c) <= Differing(a, b) + Differing(b, c)
    decreases a + b + c
  {
    if a != 0 || b != 0 || c != 0 {
      DifferingTriangle(a / 2, b / 2, c / 2);
      DifferingBit(a / 2, b / 2, a % 2, b % 2);
      DifferingBit(b / 2, c / 2, b % 2, c % 2);
      DifferingBit(a / 2, c / 2, a % 2, c % 2);
    }
  }

  // ---- The two distances ----

  function Zfill(h: string, n: nat): (r: string)
    ensures |r| == if |h| < n then n else |h|
  {
    if |h| < n then seq(n - |h|, i => '0') + h else h
  }

  function MaxLen(a: string, b: string): (n: nat) { if |a| < |b| then |b| else |a| }

  /** ImageAnalysisService.calculate_hamming_distance */
  function Distance(h1: string, h2: string): (d: nat) {
    var n := MaxLen(h1, h2);
    var a, b := Parse(Zfill(h1, n)), Parse(Zfill(h2, n));
    if a.Some? && b.Some? then Differing(a.value, b.value) else 64
  }

  /** ImageCorrelationService.compute_hamming_distance */
  function StrictDistance(h1: string, h2: string): (d: nat) {
    if h1 == "" || h2 == "" || |h1| != |h2| then 64
    else
      var a, b := Parse(h1), Parse(h2);
      if a.Some? && b.Some? then Differing(a.value, b.value) else 64
  }

  /** The two implementations agree exactly on hashes of equal length and on pairs at distance 64 anyway. */
  lemma DistancesAgreeIff(h1: string, h2: string)
    ensures Distance(h1, h2) == StrictDistance(h1, h2) <==> |h1| == |h2| || Distance(h1, h2) == 64
  {
  }

  /** A hash with a character that is no hex digit is at the full distance from every hash. */
  lemma NonHexDistance(h1: string, h2: string, i: nat)
    requires i < |h1| && h1[i] !in "0123456789abcdefABCDEF"
    ensures Distance(h1, h2) == Distance(h2, h1) == StrictDistance(h1, h2) == 64
  {
    var n := MaxLen(h1, h2);
    var p := Zfill(h1, n);
    assert p[|p| - |h1| + i] == h1[i];
    assert HexValue(h1[i]).None? by {
      if HexValue(h1[i]).Some? { HexChars(h1[i]); }
    }
    assert !IsHex(h1) && !IsHex(p);
    hide Differing, Value;
  }

  lemma HexChars(c: char)
    requires HexValue(c).Some?
    ensures c in "0123456789abcdefABCDEF"
  {
    var all := "0123456789abcdefABCDEF";
    var v := HexValue(c).value;
    assert c == all[v] || c == all[v + 6];
  }

  lemma {:induction false} PaddingKeepsValue(k: nat, h: string)
    requires IsHex(h)
    ensures var p := seq(k, i => '0') + h; IsHex(p) && Value(p) == Value(h)
  {
    var p := seq(k, i => '0') + h;
    if h != [] {
      PaddingKeepsValue(k, h[..|h| - 1]);
      assert p[..|p| - 1] == seq(k, i => '0') + h[..|h| - 1];
    } else if k > 0 {
      PaddingKeepsValue(k - 1, h);
      assert p[..|p| - 1] == seq(k - 1, i => '0') + h;
    }
  }

  /** Zero padding does not matter: the distance of two hex strings is that of the numbers they denote. */
  lemma DistanceOfValues(h1: string, h2: string)
    requires IsHex(h1) && IsHex(h2) && (h1 != "" || h2 != "")
    ensures Distance(h1, h2) == Differing(Value(h1), Value(h2))
  {
    var n := MaxLen(h1, h2);
    ZfillKeepsValue(h1, n);
    ZfillKeepsValue(h2, n);
    hide Value, Zfill, Differing;
  }

  lemma ZfillKeepsValue(h: string, n: nat)
    requires IsHex(h)
    ensures IsHex(Zfill(h, n)) && Value(Zfill(h, n)) == Value(h)
  {
    if |h| < n {
      PaddingKeepsValue(n - |h|, h);
    }
  }

  /** On hex strings of any lengths the distance is a metric of the denoted numbers. */
  lemma DistanceIsMetric(h1: string, h2: string, h3: string)
    requires IsHex(h1) && IsHex(h2) && IsHex(h3) && h1 != "" && h2 != "" && h3 != ""
    ensures Distance(h1, h2) == Distance(h2, h1)
    ensures Distance(h1, h2) == 0 <==> Value(h1) == Value(h2)
    ensures Distance(h1, h3) <= Distance(h1, h2) + Distance(h2, h3)
  {
    DistanceOfValues(h1, h2);
    DistanceOfValues(h2, h1);
    DistanceOfValues(h2, h3);
    DistanceOfValues(h1, h3);
    DifferingSymmetric(Value(h1), Value(h2));
    DifferingZeroIff(Value(h1), Value(h2));
    DifferingTriangle(Value(h1), Value(h2), Value(h3));
  }

  // ---- The two encoders ----

  function Bit(b: bool): (v: nat)
    ensures v < 2
  {
    if b then 1 else 0
  }

  /** Four bits, least significant first. */
  function LowFirst(b: seq<bool>): (v: nat)
    requires |b| == 4
    ensures v < 16
  {
    Bit(b[0]) + 2 * Bit(b[1]) + 4 * Bit(b[2]) + 8 * Bit(b[3])
  }

  /** Up to four bits, most significant first, as the high bits of a nibble. */
  function HighFirst(b: seq<bool>): (v: nat)
    requires |b| <= 4
    ensures v < 16
  {
    (if |b| > 0 then 8 * Bit(b[0]) else 0) + (if |b| > 1 then 4 * Bit(b[1]) else 0) +
    (if |b| > 2 then 2 * Bit(b[2]) else 0) + (if |b| > 3 then Bit(b[3]) else 0)
  }

  /** The digits of the first j complete nibbles, least significant bit first. */
  function DHex(bits: seq<bool>, j: nat): (h: string)
    requires 4 * j <= |bits|
    ensures |h| == j && IsHex(h)
  {
    if j == 0 then "" else DHex(bits, j - 1) + [HexDigit(LowFirst(bits[4 * j - 4..4 * j]))]
  }

  function Chunk(bits: seq<bool>, i: nat): (c: seq<bool>)
    requires i <= |bits|
    ensures |c| <= 4
  {
    if i + 4 <= |bits| then bits[i..i + 4] else bits[i..]
  }

  /** The digits of the first j chunks of four, most significant bit first; the last may be short. */
  function PHex(bits: seq<bool>, j: nat): (h: string)
    requires j > 0 ==> 4 * j - 4 <= |bits|
    ensures |h| == j && IsHex(h)
  {
    if j == 0 then "" else PHex(bits, j - 1) + [HexDigit(HighFirst(Chunk(bits, 4 * j - 4)))]
  }

  /** The value accumulated from r bits at i, least significant first. */
  function Partial(b: seq<bool>, i: nat, r: nat): (v: nat)
    requires i + r <= |b| && r <= 4
  {
    (if r > 0 then Bit(b[i]) else 0) + (if r > 1 then 2 * Bit(b[i + 1]) else 0) +
    (if r > 2 then 4 * Bit(b[i + 2]) else 0) + (if r > 3 then 8 * Bit(b[i + 3]) else 0)
  }

  /** 2 ** r */
  function Power(r: nat): (v: nat)
    ensures v >= 1
  { if r == 0 then 1 else 2 * Power(r - 1) }

  lemma PartialStep(b: seq<bool>, i: nat, r: nat)
    requires i + r < |b| && r < 4
    ensures Partial(b, i, 0) == 0
    ensures Partial(b, i, r + 1) == Partial(b, i, r) + if b[i + r] then Power(r) else 0
  {
    assert Power(1) == 2 && Power(2) == 4 && Power(3) == 2 * Power(2);
  }

  lemma DHexStep(bits: seq<bool>, j: nat)
    requires 4 * j + 4 <= |bits|
    ensures Partial(bits, 4 * j, 4) == LowFirst(bits[4 * j..4 * j + 4])
    ensures DHex(bits, j + 1) == DHex(bits, j) + [HexDigit(LowFirst(bits[4 * j..4 * j + 4]))]
  {
  }

  /** The loop of compute_dhash over the difference bits: an unfinished last nibble is dropped. */
  method EncodeDHash(difference: seq<bool>) returns (hex: string)
    ensures hex == DHex(difference, |difference| / 4)
  {
    hide *;
    var decimal := 0;
    hex := "";
    ghost var j, r := 0, 0;
    NoDigits(difference);
    for idx := 0 to |difference|
      invariant idx == 4 * j + r && 0 <= r < 4 && 0 <= j
      invariant hex == DHex(difference, j)
      invariant decimal == Partial(difference, 4 * j, r)
    {
      PartialStep(difference, 4 * j, r);
      assert idx % 4 == r;
      if difference[idx] {
        decimal := decimal + Power(idx % 4);
      }
      if idx % 4 == 3 {
        DHexStep(difference, j);
        hex := hex + [HexDigit(decimal)];
        decimal := 0;
        j, r := j + 1, 0;
        NextGroup(difference, j);
      } else {
        r := r + 1;
      }
    }
  }

  lemma NextGroup(bits: seq<bool>, j: nat)
    requires 4 * j <= |bits|
    ensures Partial(bits, 4 * j, 0) == 0
  {
  }

  lemma PHexStep(bits: seq<bool>, j: nat)
    requires 4 * j <= |bits|
    ensures PHex(bits, j + 1) == PHex(bits, j) + [HexDigit(HighFirst(Chunk(bits, 4 * j)))]
  {
    hide HexDigit, HighFirst, Chunk, IsHex;
    assert 4 * (j + 1) - 4 == 4 * j;
  }

  lemma NoDigits(bits: seq<bool>)
    ensures DHex(bits, 0) == PHex(bits, 0) == ""
    ensures Partial(bits, 0, 0) == 0
  {
  }

  /** The loop of compute_phash over the threshold bits. */
  method EncodePHash(diff: seq<bool>) returns (hex: string)
    ensures hex == PHex(diff, (|diff| + 3) / 4)
  {
    hide *;
    hex := "";
    var i := 0;
    ghost var j := 0;
    NoDigits(diff);
    while i < |diff|
      invariant i == 4 * j && 0 <= j && i < |diff| + 4
      invariant hex == PHex(diff, j)
    {
      PHexStep(diff, j);
      hex := hex + [HexDigit(HighFirst(Chunk(diff, i)))];
      i, j := i + 4, j + 1;
    }
  }

  lemma LowFirstBits(m: nat, b: seq<bool>)
    requires |b| == 4
    ensures Bits(m, [b[3], b[2], b[1], b[0]]) == 16 * m + LowFirst(b)
  {
    BitsOfFour(m, b[3], b[2], b[1], b[0]);
  }

  lemma BitsOfFour(m: nat, a: bool, b: bool, c: bool, d: bool)
    ensures Bits(m, [a, b, c, d]) == 16 * m + 8 * Bit(a) + 4 * Bit(b) + 2 * Bit(c) + Bit(d)
  {
    assert [a, b, c, d][..3] == [a, b, c] && [a, b, c][..2] == [a, b] && [a, b][..1] == [a] && [a][..0] == [];
    assert Bits(m, [a]) == 2 * m + Bit(a);
    assert Bits(m, [a, b]) == 2 * Bits(m, [a]) + Bit(b);
    assert Bits(m, [a, b, c]) == 2 * Bits(m, [a, b]) + Bit(c);
  }

  lemma DiffOfFour(a: seq<bool>, b: seq<bool>)
    requires |a| == |b| == 4
    ensures DiffUpTo(a, b, 4) == (if a[0] == b[0] then 0 else 1) + (if a[1] == b[1] then 0 else 1) +
                                 (if a[2] == b[2] then 0 else 1) + (if a[3] == b[3] then 0 else 1)
  {
    assert DiffUpTo(a, b, 1) == if a[0] == b[0] then 0 else 1;
    assert DiffUpTo(a, b, 2) == DiffUpTo(a, b, 1) + if a[1] == b[1] then 0 else 1;
    assert DiffUpTo(a, b, 3) == DiffUpTo(a, b, 2) + if a[2] == b[2] then 0 else 1;
  }

  function Reversed4(p: seq<bool>): (r: seq<bool>)
    requires |p| == 4
    ensures |r| == 4
  {
    [p[3], p[2], p[1], p[0]]
  }

  lemma ValueSnoc(h: string, v: int)
    requires IsHex(h) && 0 <= v < 16
    ensures IsHex(h + [HexDigit(v)]) && Value(h + [HexDigit(v)]) == 16 * Value(h) + v
  {
    assert (h + [HexDigit(v)])[..|h|] == h;
  }

  lemma DHexValue(a: seq<bool>, j: nat)
    requires 1 <= j && 4 * j <= |a|
    ensures Value(DHex(a, j)) == Bits(Value(DHex(a, j - 1)), Reversed4(a[4 * j - 4..4 * j]))
  {
    var p := a[4 * j - 4..4 * j];
    ValueSnoc(DHex(a, j - 1), LowFirst(p));
    LowFirstBits(Value(DHex(a, j - 1)), p);
  }

  lemma DiffReversed(p: seq<bool>, q: seq<bool>)
    requires |p| == |q| == 4
    ensures DiffUpTo(Reversed4(p), Reversed4(q), 4) == DiffUpTo(p, q, 4)
  {
    DiffOfFour(p, q);
    DiffOfFour(Reversed4(p), Reversed4(q));
  }

  /** XOR and bit count of two dHash strings count exactly the difference bits, of the complete nibbles, that
      differ. */
  lemma {:induction false} DHashDistance(a: seq<bool>, b: seq<bool>, j: nat)
    requires 4 * j <= |a| && 4 * j <= |b|
    ensures Differing(Value(DHex(a, j)), Value(DHex(b, j))) == DiffUpTo(a, b, 4 * j)
  {
    hide DHex, Bits, Differing, Value, Reversed4;
    if j == 0 {
      EmptyHashes(a, b);
    } else {
      hide DiffUpTo;
      DHashDistance(a, b, j - 1);
      var p, q := a[4 * j - 4..4 * j], b[4 * j - 4..4 * j];
      DHexValue(a, j);
      DHexValue(b, j);
      DifferingBits(Value(DHex(a, j - 1)), Value(DHex(b, j - 1)), Reversed4(p), Reversed4(q));
      DiffReversed(p, q);
      DiffSplit(a, b, 4 * j - 4, 4 * j);
    }
  }

  lemma EmptyHashes(a: seq<bool>, b: seq<bool>)
    ensures |a| == |b| ==> DiffUpTo(a, b, Least(0, |a|)) == 0
    ensures Differing(Value(DHex(a, 0)), Value(DHex(b, 0))) == 0
    ensures Differing(Value(PHex(a, 0)), Value(PHex(b, 0))) == 0
  {
  }

  function Padded(c: seq<bool>): (p: seq<bool>)
    requires |c| <= 4
    ensures |p| == 4
  {
    [|c| > 0 && c[0], |c| > 1 && c[1], |c| > 2 && c[2], |c| > 3 && c[3]]
  }

  lemma DiffPadded(c: seq<bool>, d: seq<bool>)
    requires |c| == |d| <= 4
    ensures DiffUpTo(Padded(c), Padded(d), 4) == DiffUpTo(c, d, |c|)
  {
    DiffOfFour(Padded(c), Padded(d));
    assert |c| >= 1 ==> DiffUpTo(c, d, 1) == if c[0] == d[0] then 0 else 1;
    assert |c| >= 2 ==> DiffUpTo(c, d, 2) == DiffUpTo(c, d, 1) + if c[1] == d[1] then 0 else 1;
    assert |c| >= 3 ==> DiffUpTo(c, d, 3) == DiffUpTo(c, d, 2) + if c[2] == d[2] then 0 else 1;
  }

  function Least(a: nat, b: nat): (m: nat) { if a < b then a else b }

  lemma PHexValue(a: seq<bool>, j: nat)
    requires 1 <= j && 4 * j - 4 <= |a|
    ensures Value(PHex(a, j)) == Bits(Value(PHex(a, j - 1)), Padded(Chunk(a, 4 * j - 4)))
  {
    var p := Chunk(a, 4 * j - 4);
    ValueSnoc(PHex(a, j - 1), HighFirst(p));
    BitsOfFour(Value(PHex(a, j - 1)), Padded(p)[0], Padded(p)[1], Padded(p)[2], Padded(p)[3]);
  }

  lemma ChunkIs(a: seq<bool>, j: nat)
    requires 1 <= j && 4 * j - 4 <= |a|
    ensures var n := Least(4 * j, |a|);
            4 * j - 4 <= n <= |a| && a[4 * j - 4..n] == Chunk(a, 4 * j - 4) && |Chunk(a, 4 * j - 4)| == n - (4 * j - 4)
            && (j > 1 ==> Least(4 * j - 4, |a|) == 4 * j - 4)
  {
  }

  lemma PHashStep(a: seq<bool>, b: seq<bool>, j: nat)
    requires 1 <= j && |a| == |b| && 4 * j - 4 <= |a|
    ensures Differing(Value(PHex(a, j)), Value(PHex(b, j))) ==
            Differing(Value(PHex(a, j - 1)), Value(PHex(b, j - 1)))
            + DiffUpTo(Chunk(a, 4 * j - 4), Chunk(b, 4 * j - 4), |Chunk(a, 4 * j - 4)|)
  {
    hide *;
    var p, q := Chunk(a, 4 * j - 4), Chunk(b, 4 * j - 4);
    PHexValue(a, j);
    PHexValue(b, j);
    ChunkIs(a, j);
    ChunkIs(b, j);
    DifferingBits(Value(PHex(a, j - 1)), Value(PHex(b, j - 1)), Padded(p), Padded(q));
    DiffPadded(p, q);
  }

  lemma DiffChunk(a: seq<bool>, b: seq<bool>, j: nat)
    requires 1 <= j && |a| == |b| && 4 * j - 4 <= |a|
    ensures Least(4 * j, |a|) <= |a| && |Chunk(a, 4 * j - 4)| == |Chunk(b, 4 * j - 4)|
    ensures DiffUpTo(a, b, Least(4 * j, |a|)) ==
            DiffUpTo(a, b, 4 * j - 4) + DiffUpTo(Chunk(a, 4 * j - 4), Chunk(b, 4 * j - 4), |Chunk(a, 4 * j - 4)|)
    ensures 4 * j - 4 == Least(4 * (j - 1), |a|)
  {
    assert 4 * j - 4 == Least(4 * (j - 1), |a|);
    hide *;
    ChunkIs(a, j);
    ChunkIs(b, j);
    DiffSplit(a, b, 4 * j - 4, Least(4 * j, |a|));
  }

  /** XOR and bit count of two pHash strings count exactly the threshold bits that differ. */
  lemma {:induction false} PHashDistance(a: seq<bool>, b: seq<bool>, j: nat)
    requires |a| == |b| && (j > 0 ==> 4 * j - 4 <= |a|)
    ensures Differing(Value(PHex(a, j)), Value(PHex(b, j))) == DiffUpTo(a, b, Least(4 * j, |a|))
  {
    hide *;
    if j == 0 {
      EmptyHashes(a, b);
    } else {
      PHashDistance(a, b, j - 1);
      PHashStep(a, b, j);
      DiffChunk(a, b, j);
    }
  }

  lemma Powers()
    ensures Power(0) == 1 && Power(1) == 2 && Power(2) == 4 && Power(3) == 8
  {
    assert Power(2) == 2 * Power(1);
  }

  lemma DigitShape(b: seq<bool>)
    requires |b| == 4
    ensures LowFirst(b) == Bit(b[0]) + 2 * Bit(b[1]) + 4 * Bit(b[2]) + 8 * Bit(b[3])
    ensures HighFirst(b) == Bit(b[3]) + 2 * Bit(b[2]) + 4 * Bit(b[1]) + 8 * Bit(b[0])
  {
  }

  lemma DigitBits(v: nat, a: nat, b: nat, c: nat, d: nat)
    requires a < 2 && b < 2 && c < 2 && d < 2 && v == a + 2 * b + 4 * c + 8 * d
    ensures v % 2 == a && v / 2 % 2 == b && v / 4 % 2 == c && v / 8 % 2 == d
  {
  }

  lemma BitsOfDigit(b: seq<bool>, k: nat)
    requires |b| == 4 && k < 4
    ensures LowFirst(b) / Power(k) % 2 == Bit(b[k])
    ensures HighFirst(b) / Power(3 - k) % 2 == Bit(b[k])
  {
    hide *;
    Powers();
    DigitShape(b);
    var x, y, z, w := Bit(b[0]), Bit(b[1]), Bit(b[2]), Bit(b[3]);
    DigitBits(LowFirst(b), x, y, z, w);
    DigitBits(HighFirst(b), w, z, y, x);
    if k == 0 {
    } else if k == 1 {
    } else if k == 2 {
    } else {
    }
  }

  /** Bit k of digit i of a dHash is difference bit 4i + k. */
  lemma {:induction false} DHashDigit(bits: seq<bool>, j: nat, i: nat, k: nat)
    requires i < j && 4 * j <= |bits| && k < 4
    ensures HexValue(DHex(bits, j)[i]).Some? && HexValue(DHex(bits, j)[i]).value / Power(k) % 2 == Bit(bits[4 * i + k])
  {
    if i == j - 1 {
      var p := bits[4 * j - 4..4 * j];
      BitsOfDigit(p, k);
      assert p[k] == bits[4 * i + k];
      hide LowFirst, Power, Bit;
    } else {
      DHashDigit(bits, j - 1, i, k);
    }
  }

  /** Bit 3 - k of digit i of a pHash is threshold bit 4i + k; in a last digit that is short the low bits are 0. */
  lemma {:induction false} PHashDigit(bits: seq<bool>, j: nat, i: nat, k: nat)
    requires i < j && 4 * j - 4 <= |bits| && k < 4
    ensures HexValue(PHex(bits, j)[i]).Some?
    ensures HexValue(PHex(bits, j)[i]).value / Power(3 - k) % 2 ==
            if 4 * i + k < |bits| then Bit(bits[4 * i + k]) else 0
  {
    hide HighFirst, Power, Padded, Chunk, HexDigit, HexValue, Bit;
    if i == j - 1 {
      PHexStep(bits, j - 1);
      LastDigit(bits, i, k);
    } else {
      PHashDigit(bits, j - 1, i, k);
      PHexStep(bits, j - 1);
    }
  }

  lemma LastDigit(bits: seq<bool>, i: nat, k: nat)
    requires 4 * i <= |bits| && k < 4
    ensures HexValue(HexDigit(HighFirst(Chunk(bits, 4 * i)))) == Some(HighFirst(Chunk(bits, 4 * i)))
    ensures HighFirst(Chunk(bits, 4 * i)) / Power(3 - k) % 2 == if 4 * i + k < |bits| then Bit(bits[4 * i + k]) else 0
  {
    var c := Chunk(bits, 4 * i);
    BitsOfDigit(Padded(c), k);
    assert HighFirst(Padded(c)) == HighFirst(c);
    assert Padded(c)[k] == (4 * i + k < |bits| && bits[4 * i + k]);
    hide HighFirst, Power, Padded, HexValue;
  }

  lemma {:induction false} DiffBound(a: seq<bool>, b: seq<bool>, n: nat)
    requires n <= |a| && n <= |b|
    ensures DiffUpTo(a, b, n) <= n
  {
    if n > 0 {
      DiffBound(a, b, n - 1);
    }
  }

  /** At hash size 8 either hash is 16 digits, and distances count the differing bits and are at most 64. */
  lemma HashSizeEight(a: seq<bool>, b: seq<bool>)
    requires |a| == |b| == 64
    ensures Distance(DHex(a, 16), DHex(b, 16)) == DiffUpTo(a, b, 64) <= 64
    ensures Distance(PHex(a, 16), PHex(b, 16)) == DiffUpTo(a, b, 64)
    ensures StrictDistance(DHex(a, 16), DHex(b, 16)) == StrictDistance(PHex(a, 16), PHex(b, 16)) == DiffUpTo(a, b, 64)
  {
    DHashDistance(a, b, 16);
    PHashDistance(a, b, 16);
    DiffBound(a, b, 64);
    DistanceOfValues(DHex(a, 16), DHex(b, 16));
    DistanceOfValues(PHex(a, 16), PHex(b, 16));
    DistancesAgreeIff(DHex(a, 16), DHex(b, 16));
    DistancesAgreeIff(PHex(a, 16), PHex(b, 16));
  }
}
