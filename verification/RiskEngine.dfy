/** The risk engine: a weighted mean of signals, thresholds, and the alert decision taken from its result. */
module RiskEngine {
  import opened Algebra
  import opened Rounding
  import opened Sequences

  datatype Signal = Signal(source: string, raw: real, weight: real, confidence: real, reasons: seq<string>)

  datatype Policy = Policy(weights: map<string, real>, critical: real, high: real, medium: real, low: real,
                           alert: real)

  datatype Severity = Info | Low | Medium | High | Critical

  datatype Verdict = Benign | Suspicious | Malicious

  datatype Criticality = LowAsset | MediumAsset | HighAsset | CriticalAsset

  datatype Context = Context(criticality: Criticality, development: bool, exposed: bool, privileged: bool)

  datatype Assessment = Assessment(score: real, severity: Severity, verdict: Verdict, confidence: real,
                                   shouldAlert: bool, reasons: seq<string>)

  function DefaultPolicy(): (p: Policy) {
    Policy(map["rules" := 0.35, "ml_model" := 0.35, "threat_intel" := 0.20, "heuristic" := 0.10],
           80.0, 60.0, 35.0, 15.0, 40.0)
  }

  // ---- Thresholds ----

  function SeverityOf(p: Policy, score: real): (s: Severity) {
    if score >= p.critical then Critical
    else if score >= p.high then High
    else if score >= p.medium then Medium
    else if score >= p.low then Low
    else Info
  }

  function VerdictOf(p: Policy, score: real, confidence: real): (v: Verdict) {
    if score >= p.high then Malicious
    else if score >= p.medium then Suspicious
    else if score < p.low && confidence >= 0.5 then Benign
    else if score >= p.low then Suspicious else Benign
  }

  /** Over the scores the engine produces. */
  ghost predicate SeverityDecides(p: Policy) {
    forall x, y, c, d :: 0.0 <= x <= 100.0 && 0.0 <= y <= 100.0 && SeverityOf(p, x) == SeverityOf(p, y) ==>
      VerdictOf(p, x, c) == VerdictOf(p, y, d)
  }

  /** The least score that is critical. */
  function CriticalFrom(p: Policy): (x: real) { if p.critical < 0.0 then 0.0 else p.critical }

  /** The score from which a verdict is at least suspicious, if it is below the threshold for high. */
  function SuspiciousFrom(p: Policy): (x: real) { if p.medium < p.low then p.medium else p.low }

  /** The verdict depends on the severity alone, and on the confidence not at all, exactly when all critical scores
      have one verdict: if there are none, or all of them reach the threshold for high, or none does and they are all
      suspicious or all benign.  Ordered thresholds, as in the default policy, suffice. */
  lemma SeverityDecidesIff(p: Policy)
    ensures SeverityDecides(p) <==>
            || p.critical > 100.0
            || p.high <= CriticalFrom(p)
            || (p.high > 100.0 && (SuspiciousFrom(p) <= CriticalFrom(p) || SuspiciousFrom(p) > 100.0))
    ensures p.high <= p.critical ==> SeverityDecides(p)
    ensures SeverityDecides(DefaultPolicy())
  {
    var x := CriticalFrom(p);
    if p.critical <= 100.0 && p.high > x {
      var y := if p.high <= 100.0 then p.high else SuspiciousFrom(p);
      if p.high <= 100.0 || x < y <= 100.0 {
        assert SeverityOf(p, x) == SeverityOf(p, y) == Critical;
        assert VerdictOf(p, x, 1.0) != VerdictOf(p, y, 1.0);
      }
    }
  }

  // ---- The environment ----

  /** RiskContext.get_multiplier */
  method GetMultiplier(c: Context) returns (mult: real)
    ensures mult == Multiplier(c)
  {
    mult := 1.0;
    if c.criticality == CriticalAsset {
      mult := mult * 1.3;
    } else if c.criticality == HighAsset {
      mult := mult * 1.15;
    } else if c.criticality == LowAsset {
      mult := mult * 0.85;
    }
    if c.exposed {
      mult := mult * 1.15;
    }
    if c.privileged {
      mult := mult * 1.10;
    }
    if c.development {
      mult := mult * 0.90;
    }
  }

  function Multiplier(c: Context): (m: real)
    ensures 0.765 <= m <= 1.64450
  {
    (match c.criticality case LowAsset => 0.85 case MediumAsset => 1.0 case HighAsset => 1.15 case CriticalAsset => 1.3)
    * (if c.exposed then 1.15 else 1.0) * (if c.privileged then 1.10 else 1.0) * (if c.development then 0.90 else 1.0)
  }

  /** The factor of every feature of the environment, whatever the others are. */
  lemma MultiplierRatios(c: Context)
    ensures Multiplier(Context(MediumAsset, false, false, false)) == 1.0
    ensures Multiplier(c.(criticality := CriticalAsset)) == 1.3 * Multiplier(c.(criticality := MediumAsset))
    ensures Multiplier(c.(criticality := HighAsset)) == 1.15 * Multiplier(c.(criticality := MediumAsset))
    ensures Multiplier(c.(criticality := LowAsset)) == 0.85 * Multiplier(c.(criticality := MediumAsset))
    ensures Multiplier(c.(exposed := true)) == 1.15 * Multiplier(c.(exposed := false))
    ensures Multiplier(c.(privileged := true)) == 1.10 * Multiplier(c.(privileged := false))
    ensures Multiplier(c.(development := true)) == 0.90 * Multiplier(c.(development := false))
  {
  }

  // ---- Sums over signals ----

  function SourceWeight(p: Policy, x: Signal): (w: real) {
    Mul(if x.source in p.weights then p.weights[x.source] else 0.1, x.weight)
  }

  function ScoreTerm(p: Policy): Signal -> real {
    (x: Signal) => Mul(Mul(x.raw, SourceWeight(p, x)), x.confidence)
  }

  function ConfidenceTerm(p: Policy): Signal -> real { (x: Signal) => Mul(x.confidence, SourceWeight(p, x)) }

  function WeightTerm(p: Policy): Signal -> real { (x: Signal) => SourceWeight(p, x) }

  function Total(f: Signal -> real, s: seq<Signal>): (t: real) {
    if s == [] then 0.0 else Total(f, s[..|s| - 1]) + f(s[|s| - 1])
  }

  function ScoreSum(p: Policy, s: seq<Signal>): (t: real) { Total(ScoreTerm(p), s) }

  function ConfidenceSum(p: Policy, s: seq<Signal>): (t: real) { Total(ConfidenceTerm(p), s) }

  function WeightSum(p: Policy, s: seq<Signal>): (t: real) { Total(WeightTerm(p), s) }

  function Reasons(s: seq<Signal>): (r: seq<string>) {
    if s == [] then [] else Reasons(s[..|s| - 1]) + s[|s| - 1].reasons
  }

  function BaseScore(p: Policy, s: seq<Signal>): (b: real) {
    if WeightSum(p, s) > 0.0 then Quot(ScoreSum(p, s), WeightSum(p, s)) else 0.0
  }

  function MeanConfidence(p: Policy, s: seq<Signal>): (c: real) {
    if WeightSum(p, s) > 0.0 then Quot(ConfidenceSum(p, s), WeightSum(p, s)) else 0.5
  }

  function Clamp(x: real): (r: real) { if x < 0.0 then 0.0 else if x > 100.0 then 100.0 else x }

  function FinalScore(p: Policy, s: seq<Signal>, c: Context): (r: real) { Clamp(Mul(BaseScore(p, s), Multiplier(c))) }

  /** list(dict.fromkeys(s)) */
  function Firsts(s: seq<string>): (r: seq<string>) {
    if s == [] then []
    else
      var r := Firsts(s[..|s| - 1]);
      if s[|s| - 1] in r then r else r + [s[|s| - 1]]
  }

  /** Every string once, in the order of first occurrence: what more input adds comes behind. */
  lemma {:induction false} FirstsMeaning(s: seq<string>, n: nat, x: string)
    requires n <= |s|
    ensures Distinct(Firsts(s))
    ensures x in Firsts(s) <==> x in s
    ensures Firsts(s[..n]) <= Firsts(s)
  {
    if s == [] {
    } else {
      var init, last := s[..|s| - 1], s[|s| - 1];
      assert s == init + [last];
      FirstsMeaning(init, if n < |s| then n else |init|, x);
      DistinctConcat(Firsts(init), [last]);
      if n < |s| {
        assert s[..n] == init[..n];
      } else {
        assert s[..n] == s;
      }
    }
  }

  // ---- The engine ----

  function AssessmentOf(p: Policy, s: seq<Signal>, c: Context): (a: Assessment) {
    if s == [] then Assessment(0.0, Info, Benign, 1.0, false, ["No indicators or rule triggers identified."])
    else
      var score := FinalScore(p, s, c);
      Assessment(Round2(score), SeverityOf(p, score), VerdictOf(p, score, MeanConfidence(p, s)),
                 Round2(MeanConfidence(p, s)), score >= p.alert, Firsts(Reasons(s)))
  }

  lemma SumsStep(p: Policy, s: seq<Signal>, n: nat)
    requires n < |s|
    ensures ScoreSum(p, s[..n + 1]) == ScoreSum(p, s[..n]) + Mul(Mul(s[n].raw, SourceWeight(p, s[n])), s[n].confidence)
    ensures WeightSum(p, s[..n + 1]) == WeightSum(p, s[..n]) + SourceWeight(p, s[n])
    ensures ConfidenceSum(p, s[..n + 1]) == ConfidenceSum(p, s[..n]) + Mul(s[n].confidence, SourceWeight(p, s[n]))
    ensures Reasons(s[..n + 1]) == Reasons(s[..n]) + s[n].reasons
  {
    assert s[..n + 1][..n] == s[..n];
  }

  lemma SumsEmpty(p: Policy)
    ensures ScoreSum(p, []) == WeightSum(p, []) == ConfidenceSum(p, []) == 0.0 && Reasons([]) == []
  {
  }

  /** RiskEngine.assess */
  method Assess(p: Policy, signals: seq<Signal>, c: Context) returns (a: Assessment)
    ensures a == AssessmentOf(p, signals, c)
  {
    hide ScoreSum, WeightSum, ConfidenceSum, Reasons, Firsts, Round2, Multiplier, SourceWeight, Mul, Quot;
    if signals == [] {
      return Assessment(0.0, Info, Benign, 1.0, false, ["No indicators or rule triggers identified."]);
    }
    var totalWeight, weightedScoreSum, confidenceSum := 0.0, 0.0, 0.0;
    var allReasons: seq<string> := [];
    SumsEmpty(p);
    for n := 0 to |signals|
      invariant weightedScoreSum == ScoreSum(p, signals[..n])
      invariant totalWeight == WeightSum(p, signals[..n])
      invariant confidenceSum == ConfidenceSum(p, signals[..n])
      invariant allReasons == Reasons(signals[..n])
    {
      SumsStep(p, signals, n);
      var x := signals[n];
      var sourceWeight := SourceWeight(p, x);
      weightedScoreSum := weightedScoreSum + Mul(Mul(x.raw, sourceWeight), x.confidence);
      totalWeight := totalWeight + sourceWeight;
      confidenceSum := confidenceSum + Mul(x.confidence, sourceWeight);
      allReasons := allReasons + x.reasons;
    }
    assert signals[..|signals|] == signals;
    var baseScore := if totalWeight > 0.0 then Quot(weightedScoreSum, totalWeight) else 0.0;
    var confidence := if totalWeight > 0.0 then Quot(confidenceSum, totalWeight) else 0.5;
    var multiplier := GetMultiplier(c);
    var score := Clamp(Mul(baseScore, multiplier));
    a := Assessment(Round2(score), SeverityOf(p, score), VerdictOf(p, score, confidence), Round2(confidence),
                    score >= p.alert, Firsts(allReasons));
  }

  // ---- What an assessment says ----

  predicate OrderedThresholds(p: Policy) { p.low <= p.medium <= p.high <= p.critical }

  /** With ordered thresholds each severity has its band of final scores, and the verdict is malicious exactly for high
      and critical severity, suspicious exactly for low and medium, and benign exactly for info. */
  lemma AssessmentBands(p: Policy, s: seq<Signal>, c: Context)
    requires OrderedThresholds(p) && s != []
    ensures var a, x := AssessmentOf(p, s, c), FinalScore(p, s, c);
            && (a.severity == Critical <==> x >= p.critical)
            && (a.severity == High <==> p.high <= x < p.critical)
            && (a.severity == Medium <==> p.medium <= x < p.high)
            && (a.severity == Low <==> p.low <= x < p.medium)
            && (a.severity == Info <==> x < p.low)
    ensures var a := AssessmentOf(p, s, c);
            && (a.verdict == Malicious <==> a.severity == High || a.severity == Critical)
            && (a.verdict == Suspicious <==> a.severity == Low || a.severity == Medium)
            && (a.verdict == Benign <==> a.severity == Info)
  {
    hide FinalScore, MeanConfidence, Round2, Reasons, Firsts;
  }

  /** The default thresholds; the reported score and confidence are within half a hundredth of the computed ones. */
  lemma DefaultBands(s: seq<Signal>, c: Context)
    requires s != []
    ensures var a, x := AssessmentOf(DefaultPolicy(), s, c), FinalScore(DefaultPolicy(), s, c);
            && (a.severity == Critical <==> x >= 80.0) && (a.severity == High <==> 60.0 <= x < 80.0)
            && (a.severity == Medium <==> 35.0 <= x < 60.0) && (a.severity == Low <==> 15.0 <= x < 35.0)
            && (a.shouldAlert <==> x >= 40.0) && -0.005 <= a.score - x <= 0.005
            && -0.005 <= a.confidence - MeanConfidence(DefaultPolicy(), s) <= 0.005
  {
    AssessmentBands(DefaultPolicy(), s, c);
    hide FinalScore, MeanConfidence, Reasons, Firsts;
  }

  /** Without signals the item is benign, with full confidence. */
  lemma NoSignals(p: Policy, c: Context)
    ensures var a := AssessmentOf(p, [], c);
            a.score == 0.0 && a.severity == Info && a.verdict == Benign && a.confidence == 1.0 && !a.shouldAlert
  {
  }

  /** Of a signal from a known source and one from an unknown source, which weighs a tenth, with positive total weight,
      the base score is the mean of the confidence-weighted raw scores, weighted by source and signal. */
  lemma TwoSignals(p: Policy, x: Signal, y: Signal, w: real, u: real)
    requires x.source in p.weights && w == p.weights[x.source] * x.weight
    requires y.source !in p.weights && u == 0.1 * y.weight
    requires w + u > 0.0
    ensures BaseScore(p, [x, y]) * (w + u) == w * (x.raw * x.confidence) + u * (y.raw * y.confidence)
    ensures MeanConfidence(p, [x, y]) * (w + u) == w * x.confidence + u * y.confidence
  {
    assert SourceWeight(p, x) == w && SourceWeight(p, y) == u;
    TotalTwo(ScoreTerm(p), x, y);
    TotalTwo(WeightTerm(p), x, y);
    TotalTwo(ConfidenceTerm(p), x, y);
    hide Total, SourceWeight;
    assert WeightSum(p, [x, y]) == w + u;
    TermProduct(x.raw, w, x.confidence);
    TermProduct(y.raw, u, y.confidence);
    assert ScoreSum(p, [x, y]) == w * (x.raw * x.confidence) + u * (y.raw * y.confidence);
    assert ConfidenceSum(p, [x, y]) == w * x.confidence + u * y.confidence;
    hide ScoreSum, ConfidenceSum, WeightSum;
  }

  /** Under the default policy rules and model weigh 35 hundredths each, threat intelligence 20 and heuristics 10. */
  lemma DefaultMean(rules: real, model: real, intel: real, heuristic: real)
    ensures var s := [Plainly("rules", rules), Plainly("ml_model", model), Plainly("threat_intel", intel),
                      Plainly("heuristic", heuristic)];
            BaseScore(DefaultPolicy(), s) == 0.35 * rules + 0.35 * model + 0.20 * intel + 0.10 * heuristic
  {
    var p := DefaultPolicy();
    var a, b, c, d := Plainly("rules", rules), Plainly("ml_model", model), Plainly("threat_intel", intel),
                      Plainly("heuristic", heuristic);
    assert SourceWeight(p, a) == 0.35 && SourceWeight(p, b) == 0.35;
    assert SourceWeight(p, c) == 0.20 && SourceWeight(p, d) == 0.10;
    hide SourceWeight, DefaultPolicy;
    TotalFour(ScoreTerm(p), a, b, c, d);
    TotalFour(WeightTerm(p), a, b, c, d);
  }

  function Plainly(source: string, raw: real): (x: Signal) { Signal(source, raw, 1.0, 1.0, []) }

  lemma TotalFour(f: Signal -> real, a: Signal, b: Signal, c: Signal, d: Signal)
    ensures Total(f, [a, b, c, d]) == f(a) + f(b) + f(c) + f(d)
  {
    TotalTwo(f, a, b);
    assert [a, b, c] == [a, b] + [c] && [a, b, c][..2] == [a, b];
    assert [a, b, c, d][..3] == [a, b, c];
  }

  lemma TermProduct(x: real, w: real, c: real)
    ensures Mul(Mul(x, w), c) == w * (x * c) && Mul(c, w) == w * c
  {
    assert (x * w) * c == w * (x * c);
  }

  lemma TotalTwo(f: Signal -> real, x: Signal, y: Signal)
    ensures Total(f, [x, y]) == f(x) + f(y)
  {
    assert [x, y][..1] == [x] && [x][..0] == [];
    assert Total(f, [x]) == f(x);
  }

  /** The weighted deviations of the signals from the base score cancel, for any number of signals. */
  lemma DeviationsCancel(p: Policy, s: seq<Signal>)
    requires WeightSum(p, s) > 0.0
    ensures Total(Deviation(p, BaseScore(p, s)), s) == 0.0
  {
    var b := BaseScore(p, s);
    DeviationTotal(p, b, s);
    assert Mul(b, WeightSum(p, s)) == ScoreSum(p, s);
  }

  /** How far a signal's confidence-weighted raw score is from b, times its weight. */
  function Deviation(p: Policy, b: real): Signal -> real {
    (x: Signal) => Mul(Mul(x.raw, x.confidence) - b, SourceWeight(p, x))
  }

  lemma {:induction false} DeviationTotal(p: Policy, b: real, s: seq<Signal>)
    ensures Total(Deviation(p, b), s) == ScoreSum(p, s) - Mul(b, WeightSum(p, s))
  {
    if s == [] {
      assert Mul(b, 0.0) == 0.0;
    } else {
      var init, x := s[..|s| - 1], s[|s| - 1];
      DeviationTotal(p, b, init);
      DeviationTerm(x.raw, x.confidence, b, SourceWeight(p, x));
      hide Mul, SourceWeight;
      MulSum(b, WeightSum(p, init), SourceWeight(p, x));
    }
  }

  lemma DeviationTerm(r: real, c: real, b: real, w: real)
    ensures Mul(Mul(r, c) - b, w) == Mul(Mul(r, w), c) - Mul(b, w)
  {
    assert (r * c - b) * w == (r * w) * c - b * w;
  }

  /** The final score is the base score times the multiplier, cut to 0..100. */
  lemma FinalIsProduct(p: Policy, s: seq<Signal>, c: Context)
    ensures var x := Mul(BaseScore(p, s), Multiplier(c));
            FinalScore(p, s, c) == if x > 100.0 then 100.0 else if x < 0.0 then 0.0 else x
  {
    hide BaseScore, Multiplier;
  }

  // ---- The order of the signals ----

  lemma TotalSnoc(f: Signal -> real, s: seq<Signal>, x: Signal)
    ensures Total(f, s + [x]) == Total(f, s) + f(x)
  {
    assert (s + [x])[..|s|] == s;
  }

  lemma {:induction false} TotalWithout(f: Signal -> real, s: seq<Signal>, i: nat)
    requires i < |s|
    ensures Total(f, s) == Total(f, s[..i] + s[i + 1..]) + f(s[i])
  {
    var init, last := s[..|s| - 1], s[|s| - 1];
    if i == |s| - 1 {
      assert s[..i] + s[i + 1..] == init;
    } else {
      TotalWithout(f, init, i);
      assert s[..i] + s[i + 1..] == (init[..i] + init[i + 1..]) + [last];
      TotalSnoc(f, init[..i] + init[i + 1..], last);
    }
  }

  lemma MultisetWithout(t: seq<Signal>, i: nat)
    requires i < |t|
    ensures multiset(t[..i] + t[i + 1..]) == multiset(t) - multiset{t[i]}
  {
    assert t == t[..i] + [t[i]] + t[i + 1..];
  }

  lemma LastElsewhere(s: seq<Signal>, t: seq<Signal>) returns (i: nat)
    requires s != [] && multiset(s) == multiset(t)
    ensures i < |t| && t[i] == s[|s| - 1]
    ensures multiset(t[..i] + t[i + 1..]) == multiset(s[..|s| - 1])
  {
    var k := |s| - 1;
    assert s[k] in multiset(t);
    i :| 0 <= i < |t| && t[i] == s[k];
    MultisetWithout(t, i);
    MultisetWithout(s, k);
    assert s[..k] + s[k + 1..] == s[..k];
  }

  lemma {:induction false} TotalPermuted(f: Signal -> real, s: seq<Signal>, t: seq<Signal>)
    requires multiset(s) == multiset(t)
    ensures Total(f, s) == Total(f, t)
    decreases |s|
  {
    assert |multiset(s)| == |multiset(t)|;
    if s != [] {
      var i := LastElsewhere(s, t);
      TotalPermuted(f, s[..|s| - 1], t[..i] + t[i + 1..]);
      TotalWithout(f, t, i);
    }
  }

  /** The order of the signals matters for nothing but the order of the reasons. */
  lemma OrderIrrelevant(p: Policy, s: seq<Signal>, t: seq<Signal>, c: Context)
    requires multiset(s) == multiset(t)
    ensures AssessmentOf(p, t, c) == AssessmentOf(p, s, c).(reasons := AssessmentOf(p, t, c).reasons)
  {
    hide Total, SeverityOf, VerdictOf, Round2, Multiplier, Clamp, Reasons, Firsts, SourceWeight, Mul, Quot;
    assert |multiset(s)| == |multiset(t)|;
    TotalPermuted(ScoreTerm(p), s, t);
    TotalPermuted(WeightTerm(p), s, t);
    TotalPermuted(ConfidenceTerm(p), s, t);
    hide *;
    AssessmentFields(p, s, t, c);
  }

  lemma AssessmentFields(p: Policy, s: seq<Signal>, t: seq<Signal>, c: Context)
    requires (s == []) == (t == [])
    requires ScoreSum(p, s) == ScoreSum(p, t) && WeightSum(p, s) == WeightSum(p, t)
    requires ConfidenceSum(p, s) == ConfidenceSum(p, t)
    ensures AssessmentOf(p, t, c) == AssessmentOf(p, s, c).(reasons := AssessmentOf(p, t, c).reasons)
  {
    hide ScoreSum, WeightSum, ConfidenceSum, Reasons, Firsts, Mul;
  }

  // ---- A weighted mean ----

  ghost predicate WeightsNonNegative(p: Policy, s: seq<Signal>) { forall x :: x in s ==> SourceWeight(p, x) >= 0.0 }

  lemma {:induction false} TotalBetween(f: Signal -> real, g: Signal -> real, lo: real, hi: real, s: seq<Signal>)
    requires forall x :: x in s ==> Mul(lo, g(x)) <= f(x) <= Mul(hi, g(x))
    ensures Mul(lo, Total(g, s)) <= Total(f, s) <= Mul(hi, Total(g, s))
  {
    hide Mul;
    if s == [] {
      MulZero(lo);
      MulZero(hi);
    } else {
      var init, last := s[..|s| - 1], s[|s| - 1];
      TotalBetween(f, g, lo, hi, init);
      MulSum(lo, Total(g, init), g(last));
      MulSum(hi, Total(g, init), g(last));
    }
  }

  lemma MulZero(x: real)
    ensures Mul(x, 0.0) == 0.0
  {
  }

  lemma MulMonotone(x: real, y: real, w: real)
    requires x <= y && w >= 0.0
    ensures Mul(x, w) <= Mul(y, w)
  {
    MulNonNegative(y - x, w);
    assert (y - x) * w == y * w - x * w;
  }

  lemma MulCancel(x: real, y: real, w: real)
    requires w > 0.0 && Mul(x, w) <= Mul(y, w)
    ensures x <= y
  {
    assert w * (y - x) == y * w - x * w;
    MulSign(w, y - x);
  }

  lemma QuotBetween(x: real, w: real, lo: real, hi: real)
    requires w > 0.0 && Mul(lo, w) <= x <= Mul(hi, w)
    ensures lo <= Quot(x, w) <= hi
  {
    assert Mul(Quot(x, w), w) == x;
    hide *;
    MulCancel(lo, Quot(x, w), w);
    MulCancel(Quot(x, w), hi, w);
  }

  lemma TermReordered(x: real, w: real, c: real)
    ensures Mul(Mul(x, w), c) == Mul(Mul(x, c), w)
  {
    assert (x * w) * c == (x * c) * w;
  }

  /** The base score lies between the least and the greatest confidence-weighted raw score, for any bounds on
      those: it is a convex combination of them. The mean confidence likewise. */
  lemma BaseIsConvex(p: Policy, s: seq<Signal>, lo: real, hi: real, least: real, most: real)
    requires WeightsNonNegative(p, s) && WeightSum(p, s) > 0.0
    requires forall x :: x in s ==> lo <= Mul(x.raw, x.confidence) <= hi
    requires forall x :: x in s ==> least <= x.confidence <= most
    ensures lo <= BaseScore(p, s) <= hi
    ensures least <= MeanConfidence(p, s) <= most
  {
    hide Mul, Quot, SourceWeight, Total;
    forall x | x in s
      ensures Mul(lo, WeightTerm(p)(x)) <= ScoreTerm(p)(x) <= Mul(hi, WeightTerm(p)(x))
      ensures Mul(least, WeightTerm(p)(x)) <= ConfidenceTerm(p)(x) <= Mul(most, WeightTerm(p)(x))
    {
      var w := SourceWeight(p, x);
      TermReordered(x.raw, w, x.confidence);
      MulMonotone(lo, Mul(x.raw, x.confidence), w);
      MulMonotone(Mul(x.raw, x.confidence), hi, w);
      MulMonotone(least, x.confidence, w);
      MulMonotone(x.confidence, most, w);
    }
    TotalBetween(ScoreTerm(p), WeightTerm(p), lo, hi, s);
    TotalBetween(ConfidenceTerm(p), WeightTerm(p), least, most, s);
    QuotBetween(ScoreSum(p, s), WeightSum(p, s), lo, hi);
    QuotBetween(ConfidenceSum(p, s), WeightSum(p, s), least, most);
  }

  /** What signals and policies promise of themselves. */
  ghost predicate WellRanged(p: Policy, s: seq<Signal>) {
    && (forall k :: k in p.weights ==> p.weights[k] >= 0.0)
    && forall x :: x in s ==> 0.0 <= x.raw <= 100.0 && 0.0 <= x.confidence <= 1.0 && x.weight >= 0.0
  }

  lemma WellRangedWeights(p: Policy, s: seq<Signal>)
    requires WellRanged(p, s)
    ensures WeightsNonNegative(p, s)
    ensures forall x :: x in s ==> 0.0 <= Mul(x.raw, x.confidence) <= 100.0
  {
    hide Mul;
    forall x | x in s ensures SourceWeight(p, x) >= 0.0 && 0.0 <= Mul(x.raw, x.confidence) <= 100.0 {
      MulNonNegative(if x.source in p.weights then p.weights[x.source] else 0.1, x.weight);
      MulNonNegative(x.raw, x.confidence);
      MulMonotone(x.raw, 100.0, x.confidence);
      MulHundred(x.confidence);
    }
  }

  lemma MulHundred(c: real)
    requires 0.0 <= c <= 1.0
    ensures Mul(100.0, c) <= 100.0
  {
  }

  /** Signals in their declared ranges give a base score in 0..100 and a confidence in 0..1, so that the lower bound
      on the final score never acts, and the upper one only in an environment that raises the score. */
  lemma BaseInRange(p: Policy, s: seq<Signal>, c: Context)
    requires WellRanged(p, s)
    ensures 0.0 <= BaseScore(p, s) <= 100.0 && 0.0 <= MeanConfidence(p, s) <= 1.0
    ensures FinalScore(p, s, c) <= Mul(BaseScore(p, s), Multiplier(c))
    ensures Multiplier(c) <= 1.0 ==> FinalScore(p, s, c) == Mul(BaseScore(p, s), Multiplier(c))
  {
    hide Mul, Quot, Multiplier, WellRanged;
    if WeightSum(p, s) > 0.0 {
      WellRangedWeights(p, s);
      ConfidenceRange(p, s);
      BaseIsConvex(p, s, 0.0, 100.0, 0.0, 1.0);
    }
    MulNonNegative(BaseScore(p, s), Multiplier(c));
    if Multiplier(c) <= 1.0 {
      MulSymmetric(BaseScore(p, s), Multiplier(c));
      MulSymmetric(100.0, Multiplier(c));
      MulMonotone(BaseScore(p, s), 100.0, Multiplier(c));
      MulHundred(Multiplier(c));
    }
  }

  lemma ConfidenceRange(p: Policy, s: seq<Signal>)
    requires WellRanged(p, s)
    ensures forall x :: x in s ==> 0.0 <= x.confidence <= 1.0
  {
  }

  // ---- Monotonicity ----

  lemma {:induction false} TotalPointwise(f: Signal -> real, s: seq<Signal>, t: seq<Signal>)
    requires |s| == |t| && forall i :: 0 <= i < |s| ==> f(s[i]) <= f(t[i])
    ensures Total(f, s) <= Total(f, t)
  {
    if s != [] {
      var k := |s| - 1;
      assert f(s[k]) <= f(t[k]);
      TotalPointwise(f, s[..k], t[..k]);
    }
  }

  /** t is s with raw scores that are nowhere lower. */
  ghost predicate RawNotLower(s: seq<Signal>, t: seq<Signal>) {
    |s| == |t| && forall i :: 0 <= i < |s| ==> t[i].raw >= s[i].raw && s[i] == t[i].(raw := s[i].raw)
  }

  lemma QuotMonotone(x: real, y: real, w: real)
    requires w > 0.0 && x <= y
    ensures Quot(x, w) <= Quot(y, w)
  {
    assert Mul(Quot(x, w), w) == x && Mul(Quot(y, w), w) == y;
    hide *;
    MulCancel(Quot(x, w), Quot(y, w), w);
  }

  lemma RaisedTerms(p: Policy, x: Signal, y: Signal)
    requires y.raw >= x.raw && x == y.(raw := x.raw) && SourceWeight(p, x) >= 0.0 && x.confidence >= 0.0
    ensures ScoreTerm(p)(x) <= ScoreTerm(p)(y)
    ensures WeightTerm(p)(x) == WeightTerm(p)(y)
  {
    var w := SourceWeight(p, x);
    assert SourceWeight(p, y) == w;
    hide Mul, SourceWeight;
    MulMonotone(x.raw, y.raw, w);
    MulMonotone(Mul(x.raw, w), Mul(y.raw, w), x.confidence);
  }

  function SeverityRank(s: Severity): (r: nat) {
    match s case Info => 0 case Low => 1 case Medium => 2 case High => 3 case Critical => 4
  }

  /** Raising raw scores, with non-negative weights and confidences, never lowers the base score. */
  lemma BaseMonotone(p: Policy, s: seq<Signal>, t: seq<Signal>)
    requires RawNotLower(s, t) && WeightsNonNegative(p, s) && forall x :: x in s ==> x.confidence >= 0.0
    ensures BaseScore(p, s) <= BaseScore(p, t)
  {
    hide Mul, Quot, SourceWeight, Total;
    forall i | 0 <= i < |s|
      ensures ScoreTerm(p)(s[i]) <= ScoreTerm(p)(t[i]) && WeightTerm(p)(s[i]) == WeightTerm(p)(t[i])
    {
      assert s[i] in s;
      RaisedTerms(p, s[i], t[i]);
    }
    TotalPointwise(ScoreTerm(p), s, t);
    TotalPointwise(WeightTerm(p), s, t);
    TotalPointwise(WeightTerm(p), t, s);
    if WeightSum(p, s) > 0.0 {
      QuotMonotone(ScoreSum(p, s), ScoreSum(p, t), WeightSum(p, s));
    }
  }

  function VerdictRank(v: Verdict): (r: nat) {
    match v case Benign => 0 case Suspicious => 1 case Malicious => 2
  }

  /** Nor the reported score, the severity, the verdict or the alert flag, whatever the thresholds. */
  lemma AssessmentMonotone(p: Policy, s: seq<Signal>, t: seq<Signal>, c: Context)
    requires RawNotLower(s, t) && WeightsNonNegative(p, s) && forall x :: x in s ==> x.confidence >= 0.0
    ensures AssessmentOf(p, s, c).score <= AssessmentOf(p, t, c).score
    ensures SeverityRank(AssessmentOf(p, s, c).severity) <= SeverityRank(AssessmentOf(p, t, c).severity)
    ensures VerdictRank(AssessmentOf(p, s, c).verdict) <= VerdictRank(AssessmentOf(p, t, c).verdict)
    ensures AssessmentOf(p, s, c).shouldAlert ==> AssessmentOf(p, t, c).shouldAlert
  {
    BaseMonotone(p, s, t);
    hide Mul, BaseScore, MeanConfidence, Multiplier, Round2, Reasons, Firsts;
    MulMonotone(BaseScore(p, s), BaseScore(p, t), Multiplier(c));
    RoundMonotone(FinalScore(p, s, c), FinalScore(p, t, c));
  }

  // ---- The alert ----

  /** The orchestrator's decision, from the rounded score and the severity. */
  predicate RaisesAlert(a: Assessment) { a.score >= 40.0 || a.severity == High || a.severity == Critical }

  lemma RoundsToForty(x: real)
    ensures Round2(x) >= 40.0 <==> x >= 39.995
  {
    if x >= 39.995 {
      RoundMonotone(39.995, x);
      assert HalfEven(3999.5) == 4000;
    }
  }

  /** The final score from which the orchestrator raises an alert. */
  function AlertsFrom(p: Policy): (x: real) {
    var h := if p.high < p.critical then p.high else p.critical;
    if h < 39.995 then h else 39.995
  }

  /** The orchestrator's alert and the engine's flag, for every policy: an alert is raised from the lowest of 39.995
      and the thresholds for high and critical, the flag set from the policy's own threshold, and the two differ
      exactly in between. */
  lemma AlertDecision(p: Policy, s: seq<Signal>, c: Context)
    ensures RaisesAlert(AssessmentOf(p, s, c)) <==> s != [] && FinalScore(p, s, c) >= AlertsFrom(p)
    ensures AssessmentOf(p, s, c).shouldAlert <==> s != [] && FinalScore(p, s, c) >= p.alert
    ensures p.alert >= AlertsFrom(p) && AssessmentOf(p, s, c).shouldAlert ==> RaisesAlert(AssessmentOf(p, s, c))
  {
    RoundsToForty(FinalScore(p, s, c));
    hide FinalScore, MeanConfidence, Round2, Reasons, Firsts;
  }

  /** Under the default policy every flagged assessment raises an alert in spite of the rounding, and an alert is
      raised without the flag exactly when the score is rounded up to 40. */
  lemma DefaultAlertDecision(s: seq<Signal>, c: Context)
    ensures AssessmentOf(DefaultPolicy(), s, c).shouldAlert ==> RaisesAlert(AssessmentOf(DefaultPolicy(), s, c))
    ensures AssessmentOf(DefaultPolicy(), s, c).shouldAlert != RaisesAlert(AssessmentOf(DefaultPolicy(), s, c)) <==>
            s != [] && 39.995 <= FinalScore(DefaultPolicy(), s, c) < 40.0
  {
    AlertDecision(DefaultPolicy(), s, c);
    hide FinalScore, AssessmentOf, RaisesAlert;
  }

  /** A single signal of positive weight and full confidence scores what it says. */
  lemma SingleSignal(p: Policy, x: Signal)
    requires SourceWeight(p, x) > 0.0 && x.confidence == 1.0
    ensures BaseScore(p, [x]) == x.raw
  {
    var w := SourceWeight(p, x);
    TotalSnoc(ScoreTerm(p), [], x);
    TotalSnoc(WeightTerm(p), [], x);
    assert [] + [x] == [x];
    assert ScoreSum(p, [x]) == Mul(x.raw, w);
    assert Mul(Quot(Mul(x.raw, w), w), w) == Mul(x.raw, w);
    hide Mul, Quot;
    MulCancel(Quot(Mul(x.raw, w), w), x.raw, w);
    MulCancel(x.raw, Quot(Mul(x.raw, w), w), w);
  }

  /** One rule signal with a raw score of 39.996 raises an alert that the engine did not ask for. */
  lemma AlertNotAskedFor()
    ensures var a := AssessmentOf(DefaultPolicy(), [Signal("rules", 39.996, 1.0, 1.0, [])],
                                  Context(MediumAsset, false, false, false));
            RaisesAlert(a) && !a.shouldAlert
  {
    var p, x := DefaultPolicy(), Signal("rules", 39.996, 1.0, 1.0, []);
    var c := Context(MediumAsset, false, false, false);
    assert SourceWeight(p, x) == 0.35;
    SingleSignal(p, x);
    assert Multiplier(c) == 1.0;
    assert FinalScore(p, [x], c) == 39.996 by {
      hide BaseScore, Multiplier;
    }
    DefaultAlertDecision([x], c);
    hide RaisesAlert, FinalScore, Round2, SeverityOf, VerdictOf, MeanConfidence, Reasons, Firsts;
  }
}
