/** Dot products, cosine similarity and L2 normalisation of embedding vectors, on exact numbers.  Square roots
    appear as arguments n that satisfy IsNorm(n, v). */
module Vectors {
  import opened Algebra
  import opened Rounding

  /** sum(a * b for a, b in zip(v, w)): the longer vector is cut. */
  function Dot(v: seq<real>, w: seq<real>): (d: real) {
    if v == [] || w == [] then 0.0 else Mul(v[0], w[0]) + Dot(v[1..], w[1..])
  }

  /** The squared norm. */
  function SumSq(v: seq<real>): (s: real)
    ensures s >= 0.0
  {
    if v == [] then 0.0 else Sqr(v[0]) + SumSq(v[1..])
  }

  /** n is the Euclidean norm of v. */
  predicate IsNorm(n: real, v: seq<real>) { n >= 0.0 && Sqr(n) == SumSq(v) }

  // ---- Cauchy-Schwarz ----

  /** a times the slack of CauchyStep is a sum of a square and a non-negative product. */
  lemma CauchyStepScaled(x: real, y: real, d: real, a: real, b: real)
    requires a >= 0.0 && Sqr(d) <= Mul(a, b)
    ensures Mul(a, Mul(Sqr(x), b) + Mul(Sqr(y), a) - 2.0 * Mul(Mul(x, y), d)) >= 0.0
  {
    MulNonNegative(Sqr(x), Mul(a, b) - Sqr(d));
    SlackIdentity(x, y, d, a, b);
  }

  lemma SlackIdentity(x: real, y: real, d: real, a: real, b: real)
    ensures Mul(a, Mul(Sqr(x), b) + Mul(Sqr(y), a) - 2.0 * Mul(Mul(x, y), d)) ==
            Mul(Sqr(x), Mul(a, b) - Sqr(d)) + Sqr(Mul(x, d) - Mul(y, a))
  {
    assert a * (x * x * b + y * y * a - 2.0 * (x * y * d)) ==
           x * x * (a * b - d * d) + (x * d - y * a) * (x * d - y * a);
  }

  /** One coordinate more: x*y + d against (x*x + a) * (y*y + b). */
  lemma CauchyStep(x: real, y: real, d: real, a: real, b: real)
    requires a >= 0.0 && b >= 0.0 && Sqr(d) <= Mul(a, b)
    ensures 2.0 * Mul(Mul(x, y), d) <= Mul(Sqr(x), b) + Mul(Sqr(y), a)
  {
    if a == 0.0 {
      assert Mul(a, b) == 0.0;
      assert d == 0.0 by { if d != 0.0 { SqrPositive(d); } }
      assert Mul(Mul(x, y), d) == 0.0 && Mul(Sqr(y), a) == 0.0;
      MulNonNegative(Sqr(x), b);
    } else {
      CauchyStepScaled(x, y, d, a, b);
      hide *;
      MulSign(a, Mul(Sqr(x), b) + Mul(Sqr(y), a) - 2.0 * Mul(Mul(x, y), d));
    }
  }

  lemma ExpandBoth(x: real, y: real, d: real, a: real, b: real)
    ensures Sqr(Mul(x, y) + d) == Mul(Sqr(x), Sqr(y)) + 2.0 * Mul(Mul(x, y), d) + Sqr(d)
    ensures Mul(Sqr(x) + a, Sqr(y) + b) == Mul(Sqr(x), Sqr(y)) + Mul(Sqr(x), b) + Mul(Sqr(y), a) + Mul(a, b)
  {
    SqrOfSum(Mul(x, y), d);
    SqrOfProduct(x, y);
    assert (x * x + a) * (y * y + b) == (x * x) * (y * y) + (x * x) * b + (y * y) * a + a * b;
  }

  /** For vectors of any two lengths the squared dot product is at most the product of the squared norms. */
  lemma {:induction false} CauchySchwarz(v: seq<real>, w: seq<real>)
    ensures Sqr(Dot(v, w)) <= Mul(SumSq(v), SumSq(w))
  {
    if v == [] || w == [] {
      MulNonNegative(SumSq(v), SumSq(w));
      assert Sqr(0.0) == 0.0;
    } else {
      hide Mul, Sqr;
      var d, a, b := Dot(v[1..], w[1..]), SumSq(v[1..]), SumSq(w[1..]);
      CauchySchwarz(v[1..], w[1..]);
      CauchyStep(v[0], w[0], d, a, b);
      ExpandBoth(v[0], w[0], d, a, b);
    }
  }

  // ---- Cosine similarity (qdrant_service) ----

  function Cosine(v: seq<real>, w: seq<real>, n: real, m: real): (c: real)
    requires IsNorm(n, v) && IsNorm(m, w)
  {
    if n == 0.0 || m == 0.0 then 0.0
    else
      MulPositive(n, m);
      Quot(Dot(v, w), Mul(n, m))
  }

  /** The cosine always lies in [-1, 1]. */
  lemma CosineInRange(v: seq<real>, w: seq<real>, n: real, m: real)
    requires IsNorm(n, v) && IsNorm(m, w)
    ensures -1.0 <= Cosine(v, w, n, m) <= 1.0
  {
    hide Mul, Sqr, Dot, SumSq, Quot;
    if n > 0.0 && m > 0.0 {
      CauchySchwarz(v, w);
      MulPositive(n, m);
      SqrOfProduct(n, m);
      SqrBound(Dot(v, w), Mul(n, m));
      QuotInRange(Dot(v, w), Mul(n, m));
    }
  }

  /** The cosine times both norms is the dot product; with a zero vector it is 0, and that of any other vector with
      itself is 1. */
  lemma CosineMeaning(v: seq<real>, w: seq<real>, n: real, m: real)
    requires IsNorm(n, v) && IsNorm(m, w)
    ensures n > 0.0 && m > 0.0 ==> Mul(Cosine(v, w, n, m), Mul(n, m)) == Dot(v, w)
    ensures n == 0.0 || m == 0.0 ==> Cosine(v, w, n, m) == 0.0
    ensures n > 0.0 ==> Cosine(v, v, n, n) == 1.0
  {
    DotSelf(v);
    assert Sqr(n) == Mul(n, n);
    hide Dot, SumSq, Sqr;
    if n > 0.0 && m > 0.0 {
      MulPositive(n, m);
      QuotTimes(Dot(v, w), Mul(n, m));
    }
    if n > 0.0 {
      MulPositive(n, n);
      QuotSelf(Mul(n, n));
    }
  }

  lemma QuotTimes(x: real, y: real)
    requires y != 0.0
    ensures Mul(Quot(x, y), y) == x
  {
  }

  lemma QuotSelf(y: real)
    requires y > 0.0
    ensures Quot(y, y) == 1.0
  {
  }

  lemma {:induction false} DotSelf(v: seq<real>)
    ensures Dot(v, v) == SumSq(v)
  {
    if v != [] {
      DotSelf(v[1..]);
    }
  }

  /** The dot product adds the product of one more pair of components. */
  lemma {:induction false} DotSnoc(v: seq<real>, w: seq<real>, x: real, y: real)
    requires |v| == |w|
    ensures Dot(v + [x], w + [y]) == Dot(v, w) + x * y
  {
    if v == [] {
      assert ([x])[1..] == [] && v + [x] == [x] && w + [y] == [y];
    } else {
      DotSnoc(v[1..], w[1..], x, y);
      assert (v + [x])[1..] == v[1..] + [x] && (w + [y])[1..] == w[1..] + [y];
    }
  }

  function Scaled(k: real, v: seq<real>): (r: seq<real>)
    ensures |r| == |v|
  {
    if v == [] then [] else [Mul(k, v[0])] + Scaled(k, v[1..])
  }

  lemma {:induction false} DotScaled(k: real, v: seq<real>, w: seq<real>)
    ensures Dot(Scaled(k, v), w) == Mul(k, Dot(v, w))
  {
    if v == [] || w == [] {
      assert Mul(k, 0.0) == 0.0;
    } else {
      hide Mul;
      DotScaled(k, v[1..], w[1..]);
      assert Scaled(k, v)[1..] == Scaled(k, v[1..]);
      MulAssoc(k, v[0], w[0]);
      MulSum(k, Mul(v[0], w[0]), Dot(v[1..], w[1..]));
    }
  }

  lemma {:induction false} SumSqScaled(k: real, v: seq<real>)
    ensures SumSq(Scaled(k, v)) == Mul(Sqr(k), SumSq(v))
  {
    if v == [] {
      assert Mul(Sqr(k), 0.0) == 0.0;
    } else {
      hide Mul, Sqr;
      SumSqScaled(k, v[1..]);
      assert Scaled(k, v)[1..] == Scaled(k, v[1..]);
      SqrOfProduct(k, v[0]);
      MulSum(Sqr(k), Sqr(v[0]), SumSq(v[1..]));
    }
  }

  /** Scaling a vector by a positive factor scales its norm and leaves every cosine as it is. */
  lemma CosineScaleInvariant(k: real, v: seq<real>, w: seq<real>, n: real, m: real)
    requires k > 0.0 && IsNorm(n, v) && IsNorm(m, w)
    ensures IsNorm(Mul(k, n), Scaled(k, v))
    ensures Cosine(Scaled(k, v), w, Mul(k, n), m) == Cosine(v, w, n, m)
  {
    assert n == 0.0 ==> Mul(k, n) == 0.0;
    hide Mul, Sqr, Dot, SumSq, Quot, Scaled;
    SumSqScaled(k, v);
    DotScaled(k, v, w);
    MulNonNegative(k, n);
    SqrOfProduct(k, n);
    if n > 0.0 && m > 0.0 {
      MulPositive(k, n);
      MulPositive(n, m);
      QuotCancel(k, Dot(v, w), Mul(n, m));
      MulAssoc(k, n, m);
    }
  }

  // ---- Clamped dot product (dinov2_service, image_correlation_service) ----

  function Clamp(x: real): (c: real)
    ensures -1.0 <= c <= 1.0
  {
    if x > 1.0 then 1.0 else if x < -1.0 then -1.0 else x
  }

  /** On exactly normalised vectors the clamp does nothing. */
  lemma ClampIdentity(v: seq<real>, w: seq<real>)
    requires SumSq(v) == 1.0 && SumSq(w) == 1.0
    ensures Clamp(Dot(v, w)) == Dot(v, w)
  {
    CauchySchwarz(v, w);
    assert Mul(1.0, 1.0) == 1.0 == Sqr(1.0);
    SqrBound(Dot(v, w), 1.0);
  }

  // ---- Normalisation and rounding ----

  function Divided(v: seq<real>, n: real): (r: seq<real>)
    requires n != 0.0
    ensures |r| == |v|
  {
    if v == [] then [] else [Quot(v[0], n)] + Divided(v[1..], n)
  }

  function Rounded(v: seq<real>): (r: seq<real>)
    ensures |r| == |v|
  {
    if v == [] then [] else [Round6(v[0])] + Rounded(v[1..])
  }

  /** Componentwise rounding error. */
  function Errors(v: seq<real>): (e: seq<real>)
    ensures |e| == |v|
  {
    if v == [] then [] else [Round6(v[0]) - v[0]] + Errors(v[1..])
  }

  lemma {:induction false} DividedSumSq(v: seq<real>, n: real)
    requires n != 0.0
    ensures Mul(SumSq(Divided(v, n)), Sqr(n)) == SumSq(v)
  {
    if v == [] {
      assert Mul(0.0, Sqr(n)) == 0.0;
    } else {
      hide Mul, Sqr, Quot;
      DividedSumSq(v[1..], n);
      assert Divided(v, n)[1..] == Divided(v[1..], n);
      QuotSquared(v[0], n);
      MulSum(Sqr(n), Sqr(Quot(v[0], n)), SumSq(Divided(v[1..], n)));
    }
  }

  /** Dividing a vector by its norm gives squared norm exactly 1. */
  lemma NormalisedIsUnit(v: seq<real>, n: real)
    requires IsNorm(n, v) && n > 0.0
    ensures SumSq(Divided(v, n)) == 1.0
  {
    hide Mul, Sqr, SumSq, Divided;
    DividedSumSq(v, n);
    SqrPositive(n);
    FactorOne(SumSq(Divided(v, n)), Sqr(n));
  }

  lemma {:induction false} SumSqRounded(v: seq<real>)
    ensures SumSq(Rounded(v)) == SumSq(v) + 2.0 * Dot(v, Errors(v)) + SumSq(Errors(v))
  {
    if v != [] {
      hide Mul, Sqr, Round6;
      SumSqRounded(v[1..]);
      assert Rounded(v)[1..] == Rounded(v[1..]) && Errors(v)[1..] == Errors(v[1..]);
      SqrOfSum(v[0], Round6(v[0]) - v[0]);
      assert v[0] + (Round6(v[0]) - v[0]) == Round6(v[0]);
    }
  }

  lemma {:induction false} ErrorsBound(v: seq<real>)
    ensures SumSq(Errors(v)) <= |v| as real * 0.00000000000025
  {
    if v != [] {
      ErrorsBound(v[1..]);
      hide Round6, Sqr;
      SmallSquare(Round6(v[0]) - v[0]);
      assert Errors(v)[1..] == Errors(v[1..]);
    }
  }

  lemma SmallSquare(e: real)
    requires -0.0000005 <= e <= 0.0000005
    ensures Sqr(e) <= 0.00000000000025
  {
    MulNonNegative(0.0000005 - e, 0.0000005 + e);
    assert (0.0000005 - e) * (0.0000005 + e) == 0.00000000000025 - e * e;
  }

  /** The norm of a rounded unit vector of at most 512 components stays within 1/1000 of 1. */
  lemma RoundedStaysUnit(v: seq<real>, r: real)
    requires SumSq(v) == 1.0 && |v| <= 512 && IsNorm(r, Rounded(v))
    ensures -0.001 <= r - 1.0 <= 0.001
  {
    var d, e := Dot(v, Errors(v)), SumSq(Errors(v));
    ErrorsBound(v);
    CauchySchwarz(v, Errors(v));
    SumSqRounded(v);
    assert Mul(1.0, e) == e;
    assert Sqr(0.00002) == 0.0000000004;
    hide Sqr, Mul, SumSq, Dot, Errors, Rounded;
    assert e <= 0.000000000128;
    SqrBound(d, 0.00002);
    NearOne(r);
  }

  lemma NearOne(r: real)
    requires r >= 0.0 && -0.001 <= Sqr(r) - 1.0 <= 0.001
    ensures -0.001 <= r - 1.0 <= 0.001
  {
    assert Sqr(1.001) > 1.001 && Sqr(0.999) < 0.999;
    hide Sqr;
    if r > 1.001 { SqrMonotone(1.001, r); }
    if r < 0.999 { SqrMonotone(r, 0.999); }
  }

  /** embed_aligned_face from the raw model output on. */
  function FaceEmbedding(raw: seq<real>, n: real): (v: seq<real>)
    requires IsNorm(n, raw)
    ensures |v| == |raw|
  {
    Rounded(if n > 0.00000001 then Divided(raw, n) else raw)
  }

  /** The vector check of the ingestion script: 512 components and a norm within 1/1000 of 1. */
  predicate GuardAccepts(v: seq<real>, r: real): (ok: bool)
    requires IsNorm(r, v)
    ensures ok <==> |v| == 512 && 0.999 <= r <= 1.001
  {
    |v| == 512 && -0.001 <= r - 1.0 <= 0.001
  }

  lemma {:induction false} TinyVectorVanishes(v: seq<real>)
    requires SumSq(v) <= Sqr(0.00000001)
    ensures SumSq(Rounded(v)) == 0.0
  {
    if v != [] {
      var x := v[0];
      assert Sqr(0.0) == 0.0;
      hide Sqr;
      TinyVectorVanishes(v[1..]);
      assert Rounded(v)[1..] == Rounded(v[1..]);
      SqrBound(x, 0.00000001);
      assert HalfEven(x * 1000000.0) == 0;
    }
  }

  /** For a 512-component model output the guard accepts the stored embedding exactly when the output was
      normalised at all, that is when its norm exceeds 1e-8; rounding alone never causes a rejection. */
  lemma GuardAcceptsIff(raw: seq<real>, n: real, r: real)
    requires |raw| == 512 && IsNorm(n, raw) && IsNorm(r, FaceEmbedding(raw, n))
    ensures GuardAccepts(FaceEmbedding(raw, n), r) <==> n > 0.00000001
  {
    hide Sqr, SumSq, Rounded, Divided;
    if n > 0.00000001 {
      NormalisedIsUnit(raw, n);
      RoundedStaysUnit(Divided(raw, n), r);
    } else {
      if n < 0.00000001 { SqrMonotone(n, 0.00000001); }
      TinyVectorVanishes(raw);
      if r != 0.0 { SqrPositive(r); }
    }
  }

  /** dinov2_service.l2_normalize; root is the square root of the length. */
  function L2Normalize(v: seq<real>, n: real, root: real): (r: seq<real>)
    requires v != [] && IsNorm(n, v) && root > 0.0 && Sqr(root) == |v| as real
    ensures |r| == |v|
  {
    if n == 0.0 then seq(|v|, i => Quot(1.0, root)) else Rounded(Divided(v, n))
  }

  lemma {:induction false} ComponentOf(v: seq<real>, n: real, i: nat)
    requires n != 0.0 && i < |v|
    ensures Divided(v, n)[i] == Quot(v[i], n) && Rounded(v)[i] == Round6(v[i])
  {
    if i > 0 {
      ComponentOf(v[1..], n, i - 1);
    }
  }

  /** r is x divided by n up to the rounding step. */
  predicate IsShare(r: real, n: real, x: real) {
    -Mul(n, 0.0000005) <= Mul(r, n) - x <= Mul(n, 0.0000005)
  }

  lemma RoundedShare(x: real, n: real)
    requires n > 0.0
    ensures IsShare(Round6(Quot(x, n)), n, x)
  {
    var q := Quot(x, n);
    var d := Round6(q) - q;
    assert -0.0000005 <= d <= 0.0000005;
    QuotTimes(x, n);
    MulNonNegative(n, 0.0000005 - d);
    MulNonNegative(n, 0.0000005 + d);
    assert n * (0.0000005 - d) == n * 0.0000005 - n * d;
    assert n * (0.0000005 + d) == n * 0.0000005 + n * d;
    assert (q + d) * n == q * n + n * d;
    assert q + d == Round6(q);
  }

  /** Normalisation keeps the direction: every component is that of the vector divided by the norm, up to the rounding
      step.  The zero vector becomes the uniform one. */
  lemma L2NormalizeDirection(v: seq<real>, n: real, root: real, i: nat)
    requires v != [] && IsNorm(n, v) && root > 0.0 && Sqr(root) == |v| as real && i < |v|
    ensures n > 0.0 ==> IsShare(L2Normalize(v, n, root)[i], n, v[i])
    ensures n == 0.0 ==> Mul(L2Normalize(v, n, root)[i], root) == 1.0
  {
    hide IsShare, Round6;
    if n > 0.0 {
      ComponentOf(v, n, i);
      ComponentOf(Divided(v, n), n, i);
      RoundedShare(v[i], n);
    } else {
      QuotTimes(1.0, root);
    }
  }

  /** So does the face embedding of a model output that is normalised; any other is only rounded. */
  lemma FaceEmbeddingDirection(raw: seq<real>, n: real, i: nat)
    requires IsNorm(n, raw) && i < |raw|
    ensures n > 0.00000001 ==> IsShare(FaceEmbedding(raw, n)[i], n, raw[i])
    ensures n <= 0.00000001 ==> -0.0000005 <= FaceEmbedding(raw, n)[i] - raw[i] <= 0.0000005
  {
    hide IsShare;
    if n > 0.00000001 {
      ComponentOf(raw, n, i);
      ComponentOf(Divided(raw, n), n, i);
      RoundedShare(raw[i], n);
    } else {
      ComponentOf(raw, 1.0, i);
    }
  }

  lemma {:induction false} ConstantSumSq(k: nat, x: real)
    ensures SumSq(seq(k, i => x)) == Mul(k as real, Sqr(x))
  {
    var s := seq(k, i => x);
    if k == 0 {
      assert Mul(0.0, Sqr(x)) == 0.0;
    } else {
      ConstantSumSq(k - 1, x);
      assert s[1..] == seq(k - 1, i => x);
      assert Mul(1.0, Sqr(x)) == Sqr(x);
      hide Mul, Sqr;
      MulSum(Sqr(x), (k - 1) as real, 1.0);
    }
  }

  /** Every image embedding of at most 512 components has norm within 1/1000 of 1, also that of the zero
      vector. */
  lemma L2NormalizeIsUnit(v: seq<real>, n: real, root: real, r: real)
    requires v != [] && |v| <= 512 && IsNorm(n, v) && root > 0.0 && Sqr(root) == |v| as real
    requires IsNorm(r, L2Normalize(v, n, root))
    ensures -0.001 <= r - 1.0 <= 0.001
  {
    if n == 0.0 {
      var x := Quot(1.0, root);
      ConstantSumSq(|v|, x);
      QuotSquared(1.0, root);
      MulSymmetric(Sqr(x), Sqr(root));
      assert Sqr(1.0) == 1.0;
      NearOne(r);
    } else {
      NormalisedIsUnit(v, n);
      RoundedStaysUnit(Divided(v, n), r);
    }
  }

  lemma SqrIsProduct(x: real)
    ensures Sqr(x) == Mul(x, x)
  {
  }

  lemma ThreeComponents(x: real, y: real, z: real)
    ensures Dot([x, y, z], [x, y, z]) == SumSq([x, y, z]) == Mul(x, x) + Mul(y, y) + Mul(z, z)
    ensures Rounded([x, y, z]) == [Round6(x), Round6(y), Round6(z)]
  {
    hide Mul, Round6;
    assert [x, y, z][1..] == [y, z] && [y, z][1..] == [z] && [z][1..] == [];
    SqrIsProduct(x);
    SqrIsProduct(y);
    SqrIsProduct(z);
    hide Sqr;
    assert Dot([y, z], [y, z]) == Mul(y, y) + Dot([z], [z]) && SumSq([y, z]) == Sqr(y) + SumSq([z]);
    assert Rounded([y, z]) == [Round6(y)] + Rounded([z]);
  }

  lemma RoundedThirds()
    ensures Round6(1.0 / 3.0) == 0.333333 && Round6(2.0 / 3.0) == 0.666667
  {
    assert HalfEven(1.0 / 3.0 * 1000000.0) == 333333 && HalfEven(2.0 / 3.0 * 1000000.0) == 666667;
  }

  /** Rounding can push the self-similarity of a unit vector above 1, where the clamp acts: (1, 2, 2) / 3. */
  lemma ClampActsAfterRounding()
    ensures var u := [1.0 / 3.0, 2.0 / 3.0, 2.0 / 3.0];
            SumSq(u) == 1.0 && Dot(Rounded(u), Rounded(u)) > 1.0 && Clamp(Dot(Rounded(u), Rounded(u))) == 1.0
  {
    hide Dot, SumSq, Rounded, Round6;
    ThreeComponents(1.0 / 3.0, 2.0 / 3.0, 2.0 / 3.0);
    RoundedThirds();
    ThreeComponents(0.333333, 0.666667, 0.666667);
  }
}
