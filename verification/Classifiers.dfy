/** The two image classifiers: the tiered matching service and the multi-signal correlation service. */
module Classifiers {
  import opened Numbers
  import opened PerceptualHash
  import opened Rounding
  import opened Text
  import opened Wrappers

  const VARIANT_COSINE := 0.88
  const PROBABLE_COSINE := 0.72
  const SIMILAR_COSINE := 0.55
  const FACE_COSINE := 0.60
  const VARIANT_DISTANCE := 8
  const PROBABLE_DISTANCE := 18

  /** What is known of a pair of images. An absent hash is ""; an absent cosine or face similarity is None. */
  datatype Signals = Signals(refSha: string, candSha: string, refPhash: string, candPhash: string,
                             refDhash: string, candDhash: string, cosine: Option<real>,
                             face: Option<real>, usableFace: bool)

  function Max(a: nat, b: nat): (m: nat) { if a < b then b else a }

  /** The smaller of the distances that are there. */
  function Smaller(a: Option<nat>, b: Option<nat>): (m: Option<nat>) {
    if a.None? then b else if b.None? then a else if b.value < a.value then b else a
  }

  /** 1.0 - m / 64.0 */
  function HashScore(m: nat): (r: real) { 1.0 - m as real / 64.0 }

  // ---- The matching service ----

  datatype Class = Exact | SameTransformedImage | ProbableRelated | VisuallySimilar | Unrelated

  datatype Match = Match(kind: Class, score: real, tier: nat, phash: Option<nat>, dhash: Option<nat>,
                         cosine: Option<real>)

  predicate SameFile(s: Signals) { s.candSha != "" && Lower(s.refSha) == Lower(s.candSha) }

  function PairDistance(h1: string, h2: string): (d: Option<nat>) {
    if h1 != "" && h2 != "" then Some(Distance(h1, h2)) else None
  }

  function PhashOf(s: Signals): (d: Option<nat>) { PairDistance(s.refPhash, s.candPhash) }

  function DhashOf(s: Signals): (d: Option<nat>) { PairDistance(s.refDhash, s.candDhash) }

  function Nearest(s: Signals): (d: Option<nat>) { Smaller(PhashOf(s), DhashOf(s)) }

  /** ImageMatchingService.evaluate_match; the face signals are not looked at. */
  function EvaluateMatch(s: Signals): (r: Match) {
    var m := Nearest(s);
    if SameFile(s) then Match(Exact, 1.0, 1, Some(0), Some(0), Some(1.0))
    else if s.cosine.Some? then
      var c := s.cosine.value;
      if c >= VARIANT_COSINE || (m.Some? && m.value <= VARIANT_DISTANCE) then
        Match(SameTransformedImage, Round4(Larger(c, if m.Some? then HashScore(m.value) else c)),
              if c >= VARIANT_COSINE then 3 else 2, PhashOf(s), DhashOf(s), s.cosine)
      else if c >= PROBABLE_COSINE || (m.Some? && m.value <= PROBABLE_DISTANCE) then
        Match(ProbableRelated, Round4(c), 3, PhashOf(s), DhashOf(s), s.cosine)
      else if c >= SIMILAR_COSINE then
        Match(VisuallySimilar, Round4(c), 3, PhashOf(s), DhashOf(s), s.cosine)
      else
        Match(Unrelated, Round4(c), 3, PhashOf(s), DhashOf(s), s.cosine)
    else if m.Some? && m.value <= VARIANT_DISTANCE then
      Match(SameTransformedImage, Round4(HashScore(m.value)), 2, PhashOf(s), DhashOf(s), None)
    else if m.Some? && m.value <= PROBABLE_DISTANCE then
      Match(ProbableRelated, Round4(HashScore(m.value)), 2, PhashOf(s), DhashOf(s), None)
    else
      Match(Unrelated, 0.0, 0, PhashOf(s), DhashOf(s), None)
  }

  // ---- What the evidence is worth ----

  function CosineRank(c: Option<real>): (r: nat) {
    if c.None? then 0
    else if c.value >= VARIANT_COSINE then 3
    else if c.value >= PROBABLE_COSINE then 2
    else if c.value >= SIMILAR_COSINE then 1 else 0
  }

  function DistanceRank(m: Option<nat>): (r: nat) {
    if m.None? then 0 else if m.value <= VARIANT_DISTANCE then 3 else if m.value <= PROBABLE_DISTANCE then 2 else 0
  }

  function Rank(c: Class): (r: nat) {
    match c
    case Unrelated => 0
    case VisuallySimilar => 1
    case ProbableRelated => 2
    case SameTransformedImage => 3
    case Exact => 4
  }

  /** Apart from identical files, the class is the better of what the cosine and the nearer hash are worth alone. */
  lemma MatchRank(s: Signals)
    ensures Rank(EvaluateMatch(s).kind) ==
            if SameFile(s) then 4 else Max(CosineRank(s.cosine), DistanceRank(Nearest(s)))
  {
    hide Distance, Round4, Lower;
  }

  /** The reported tier: 1 for identical files, 2 where a hash alone decides, 0 without any signal that matters, and
      otherwise 3, also for a probable relation that only the hash supports beside a weak cosine. */
  lemma MatchTier(s: Signals)
    ensures EvaluateMatch(s).tier == 1 <==> SameFile(s)
    ensures EvaluateMatch(s).tier == 0 <==> !SameFile(s) && s.cosine.None? && DistanceRank(Nearest(s)) == 0
    ensures EvaluateMatch(s).tier == 2 <==>
            && !SameFile(s) && DistanceRank(Nearest(s)) > 0
            && (s.cosine.None? || (DistanceRank(Nearest(s)) == 3 && CosineRank(s.cosine) < 3))
    ensures EvaluateMatch(s).tier <= 3
  {
    hide Distance, Round4, Lower;
  }

  // ---- The correlation service ----

  datatype Label = ExactImage | TransformedCopy | SameFaceDifferentImage | Probable | Similar | NoRelation

  datatype Correlation = Correlation(verdict: Label, score: real, cosine: Option<real>, face: Option<real>,
                                     phash: Option<nat>, dhash: Option<nat>)

  function StrictPair(h1: string, h2: string): (d: Option<nat>) {
    if h1 != "" && h2 != "" then Some(StrictDistance(h1, h2)) else None
  }

  function StrictPhashOf(s: Signals): (d: Option<nat>) { StrictPair(s.refPhash, s.candPhash) }

  function StrictDhashOf(s: Signals): (d: Option<nat>) { StrictPair(s.refDhash, s.candDhash) }

  /** The nearer of the hash distances, 64 being taken as a third. */
  function StrictNearest(s: Signals): (d: nat) {
    Smaller(Some(64), Smaller(StrictPhashOf(s), StrictDhashOf(s))).value
  }

  function EvidenceRank(s: Signals): (r: nat) { Max(CosineRank(s.cosine), DistanceRank(Some(StrictNearest(s)))) }

  predicate FaceMatches(s: Signals) { s.face.Some? && s.face.value >= FACE_COSINE }

  /** A face match outweighs everything but an exact or transformed copy. */
  function CorrelatedAs(s: Signals): (l: Label) {
    if s.refSha == s.candSha then ExactImage
    else if EvidenceRank(s) == 3 then TransformedCopy
    else if FaceMatches(s) then SameFaceDifferentImage
    else if EvidenceRank(s) == 2 then Probable
    else if EvidenceRank(s) == 1 then Similar
    else NoRelation
  }

  /** Python's `c or d`: a similarity of 0.0 counts as missing. */
  function Or(c: Option<real>, d: real): (r: real) { if c.Some? && c.value != 0.0 then c.value else d }

  function CorrelationScore(s: Signals): (r: real) {
    var h := HashScore(StrictNearest(s));
    Round4(match CorrelatedAs(s)
           case ExactImage => 1.0
           case TransformedCopy => Larger(Or(s.cosine, 0.88), h)
           case SameFaceDifferentImage => Or(s.face, 0.0)
           case Probable => Or(s.cosine, h)
           case Similar => Or(s.cosine, 0.0)
           case NoRelation => Or(s.cosine, 0.10))
  }

  function RoundedOption(x: Option<real>): (r: Option<real>) { if x.Some? then Some(Round4(x.value)) else None }

  /** The classification part of ImageCorrelationService.evaluate. */
  method Evaluate(s: Signals) returns (r: Correlation)
    ensures r.verdict == CorrelatedAs(s) && r.score == CorrelationScore(s)
    ensures r.verdict != ExactImage ==>
              r == Correlation(r.verdict, r.score, RoundedOption(s.cosine), RoundedOption(s.face),
                               StrictPhashOf(s), StrictDhashOf(s))
    ensures r.verdict == ExactImage ==>
              r == Correlation(r.verdict, 1.0, Some(1.0), if s.usableFace then Some(1.0) else None, Some(0), Some(0))
  {
    hide StrictDistance, Round4;
    if s.refSha == s.candSha {
      RoundOne();
      return Correlation(ExactImage, 1.0, Some(1.0), if s.usableFace then Some(1.0) else None, Some(0), Some(0));
    }
    var phash: Option<nat>, dhash: Option<nat>, nearest := None, None, 64;
    if s.refPhash != "" && s.candPhash != "" {
      phash := Some(StrictDistance(s.refPhash, s.candPhash));
      nearest := Least(nearest, phash.value);
    }
    if s.refDhash != "" && s.candDhash != "" {
      dhash := Some(StrictDistance(s.refDhash, s.candDhash));
      nearest := Least(nearest, dhash.value);
    }
    assert nearest == StrictNearest(s);
    var verdict, score;
    if nearest <= VARIANT_DISTANCE || (s.cosine.Some? && s.cosine.value >= VARIANT_COSINE) {
      verdict := TransformedCopy;
      score := Larger(Or(s.cosine, 0.88), HashScore(nearest));
    } else if s.face.Some? && s.face.value >= FACE_COSINE {
      verdict := SameFaceDifferentImage;
      score := s.face.value;
    } else if nearest <= PROBABLE_DISTANCE || (s.cosine.Some? && s.cosine.value >= PROBABLE_COSINE) {
      verdict := Probable;
      score := Or(s.cosine, HashScore(nearest));
    } else if s.cosine.Some? && s.cosine.value >= SIMILAR_COSINE {
      verdict := Similar;
      score := s.cosine.value;
    } else {
      verdict := NoRelation;
      score := Or(s.cosine, 0.10);
    }
    r := Correlation(verdict, Round4(score), RoundedOption(s.cosine), RoundedOption(s.face), phash, dhash);
  }

  lemma RoundOne()
    ensures Round4(1.0) == 1.0
  {
    HalfEvenOfInt(10000);
  }

  // ---- Agreement ----

  function LabelOf(c: Class): (l: Label) {
    match c
    case Exact => ExactImage
    case SameTransformedImage => TransformedCopy
    case ProbableRelated => Probable
    case VisuallySimilar => Similar
    case Unrelated => NoRelation
  }

  predicate ClassesAgree(s: Signals) { LabelOf(EvaluateMatch(s).kind) == CorrelatedAs(s) }

  /** The two services agree exactly on identical files for both, and otherwise on pairs that are identical for
      neither, whose face does not decide, and whose two readings of the hashes are worth the same beside the
      cosine. */
  lemma ClassesAgreeIff(s: Signals)
    ensures ClassesAgree(s) <==>
            || (SameFile(s) && s.refSha == s.candSha)
            || (!SameFile(s) && s.refSha != s.candSha
                && Max(CosineRank(s.cosine), DistanceRank(Nearest(s))) == EvidenceRank(s)
                && (FaceMatches(s) ==> EvidenceRank(s) == 3))
  {
    MatchRank(s);
    hide EvaluateMatch, Nearest, StrictNearest, SameFile, CosineRank, DistanceRank;
    RankBound(s);
  }

  lemma RankBound(s: Signals)
    ensures EvidenceRank(s) <= 3 && Max(CosineRank(s.cosine), DistanceRank(Nearest(s))) <= 3
  {
    hide Nearest, StrictNearest;
  }

  predicate SameLength(h1: string, h2: string) { h1 != "" && h2 != "" ==> |h1| == |h2| }

  /** Where both images have a hash, the two are of equal length; either may be missing. */
  predicate EqualLengths(s: Signals) { SameLength(s.refPhash, s.candPhash) && SameLength(s.refDhash, s.candDhash) }

  /** Hashes of equal length are worth the same to both services. */
  lemma EqualLengthsRank(s: Signals)
    requires EqualLengths(s)
    ensures PhashOf(s) == StrictPhashOf(s) && DhashOf(s) == StrictDhashOf(s)
    ensures DistanceRank(Nearest(s)) == DistanceRank(Some(StrictNearest(s)))
  {
    DistancesAgreeIff(s.refPhash, s.candPhash);
    DistancesAgreeIff(s.refDhash, s.candDhash);
    hide Distance, StrictDistance;
  }

  predicate LowerCase(t: string) { Lower(t) == t }

  /** With digests in lower case and hashes of equal length, whichever signals are missing, the services agree
      exactly unless a face match decides; without a face signal they always agree. */
  lemma AgreeUnlessFaceDecides(s: Signals)
    requires s.refSha != "" && LowerCase(s.refSha) && LowerCase(s.candSha) && EqualLengths(s)
    ensures ClassesAgree(s) <==> (FaceMatches(s) ==> Rank(EvaluateMatch(s).kind) >= 3)
    ensures s.face.None? ==> ClassesAgree(s)
  {
    ClassesAgreeIff(s);
    EqualLengthsRank(s);
    RankBound(s);
    MatchRank(s);
    hide EvaluateMatch, Nearest, StrictNearest, CosineRank, DistanceRank, ClassesAgree;
  }

  /** A digest in capitals is the same file to one service only. */
  lemma CapitalsDisagree()
    ensures !ClassesAgree(Signals("ab", "AB", "", "", "", "", None, None, false))
  {
    var s := Signals("ab", "AB", "", "", "", "", None, None, false);
    assert Lower("AB") == Lower("ab");
    assert SameFile(s);
    MatchRank(s);
    hide EvaluateMatch;
  }

  /** A leading zero digit is no difference to one service and a full one to the other. */
  lemma LengthsDisagree()
    ensures !ClassesAgree(Signals("a", "b", "0", "00", "", "", None, None, false))
  {
    var s := Signals("a", "b", "0", "00", "", "", None, None, false);
    assert Zfill("0", 2) == "00" == Zfill("00", 2);
    ZeroHex();
    DifferingZeroIff(Value("00"), Value("00"));
    hide Differing, Value, Parse, Zfill, IsHex;
    assert Distance("0", "00") == 0;
    hide Distance;
    assert Nearest(s) == Some(0);
    assert StrictNearest(s) == 64;
    assert Lower("a")[0] == 'a' && Lower("b")[0] == 'b';
    ClassesAgreeIff(s);
    hide ClassesAgree, Nearest, StrictNearest;
  }

  lemma ZeroHex()
    ensures Parse("00").Some? && Parse("00").value == Value("00")
  {
  }

  // ---- Scores ----

  /** With a cosine other than 0.0 and no face match two agreeing services report the same score. */
  lemma ScoresWithCosine(s: Signals)
    requires !SameFile(s) && s.refSha != s.candSha && EqualLengths(s) && !FaceMatches(s)
    requires s.cosine.Some? && s.cosine.value != 0.0
    ensures EvaluateMatch(s).score == CorrelationScore(s)
  {
    EqualLengthsRank(s);
    hide Distance, StrictDistance, Round4, SameFile;
  }

  /** There is no cosine, or one of 0.0, and the pair is unrelated, or a transformed copy at hash distance 8, or
      probable by its hashes beside a cosine of 0.0. */
  predicate ScoredApart(s: Signals) {
    && (s.cosine == None || s.cosine == Some(0.0))
    && (|| EvaluateMatch(s).kind == Unrelated
        || (EvaluateMatch(s).kind == SameTransformedImage && Nearest(s) == Some(8))
        || (EvaluateMatch(s).kind == ProbableRelated && s.cosine == Some(0.0)))
  }

  /** Below 64 the two readings of the hashes are one. */
  lemma SameNearest(s: Signals)
    requires EqualLengths(s)
    ensures StrictNearest(s) < 64 ==> Nearest(s) == Some(StrictNearest(s))
    ensures StrictNearest(s) >= 64 ==> Nearest(s).None? || Nearest(s).value >= 64
  {
    EqualLengthsRank(s);
    hide PhashOf, DhashOf, StrictPhashOf, StrictDhashOf, DistanceRank;
  }

  lemma ScoresWithoutCosine(s: Signals)
    requires !SameFile(s) && s.refSha != s.candSha && EqualLengths(s) && !FaceMatches(s)
    requires s.cosine == None || s.cosine == Some(0.0)
    ensures EvaluateMatch(s).score == CorrelationScore(s) <==> !ScoredApart(s)
  {
    hide EvaluateMatch, CorrelationScore, CorrelatedAs, EvidenceRank, Nearest, StrictNearest, SameFile, EqualLengths,
         Round4;
    var m := StrictNearest(s);
    SameNearest(s);
    MatchThresholds(s);
    MatchScores(s);
    ExactIff(s);
    CorrelationThresholds(s);
    CorrelationScores(s);
    RoundZero();
    RoundDistinct(0.0, 0.1);
    if m <= 18 {
      RoundDistinct(0.0, 1.0 - m as real / 64.0);
      RoundDistinct(1.0 - 8.0 / 64.0, 0.88);
    }
  }

  /** A face match that does not decide changes nothing. */
  lemma FaceImmaterial(s: Signals)
    requires FaceMatches(s) ==> EvidenceRank(s) == 3
    ensures EvaluateMatch(s.(face := None)) == EvaluateMatch(s)
    ensures CorrelationScore(s.(face := None)) == CorrelationScore(s)
    ensures ScoredApart(s.(face := None)) <==> ScoredApart(s)
  {
    hide Distance, StrictDistance, Round4, Lower;
  }

  lemma SameFileScores(s: Signals)
    requires SameFile(s) && s.refSha == s.candSha
    ensures EvaluateMatch(s).score == CorrelationScore(s) && !ScoredApart(s)
  {
    RoundOne();
    hide Round4;
  }

  /** Where the services agree on the class and compare the same hash distances, their scores differ exactly for the
      pairs that are scored apart. */
  lemma ScoresAgreeIff(s: Signals)
    requires ClassesAgree(s) && EqualLengths(s)
    ensures EvaluateMatch(s).score == CorrelationScore(s) <==> !ScoredApart(s)
  {
    ClassesAgreeIff(s);
    hide *;
    if SameFile(s) && s.refSha == s.candSha {
      SameFileScores(s);
    } else {
      var t := s.(face := None);
      FaceImmaterial(s);
      WithoutFace(s);
      if t.cosine.Some? && t.cosine.value != 0.0 {
        ScoresWithCosine(t);
        NotApart(t);
      } else {
        ScoresWithoutCosine(t);
      }
    }
  }

  lemma WithoutFace(s: Signals)
    ensures var t := s.(face := None);
            !FaceMatches(t) && (SameFile(t) <==> SameFile(s)) && (EqualLengths(t) <==> EqualLengths(s))
  {
  }

  lemma NotApart(s: Signals)
    requires s.cosine.Some? && s.cosine.value != 0.0
    ensures !ScoredApart(s)
  {
    hide EvaluateMatch, Nearest;
  }

  lemma RoundZero()
    ensures Round4(0.0) == 0.0
  {
    HalfEvenOfInt(0);
  }

  lemma RoundDistinct(x: real, y: real)
    requires x + 0.0002 <= y
    ensures Round4(x) < Round4(y)
  {
  }

  // ---- Monotonicity ----

  predicate NotLess(a: Option<real>, b: Option<real>) { (a.Some? <==> b.Some?) && (a.Some? ==> a.value >= b.value) }

  predicate NotFarther(a: Option<nat>, b: Option<nat>) { (a.Some? <==> b.Some?) && (a.Some? ==> a.value <= b.value) }

  /** With the same signals available, a higher cosine or a shorter hash distance never lowers the class. */
  lemma MatchMonotone(s: Signals, t: Signals)
    requires NotLess(t.cosine, s.cosine) && NotFarther(PhashOf(t), PhashOf(s)) && NotFarther(DhashOf(t), DhashOf(s))
    requires SameFile(s) ==> SameFile(t)
    ensures Rank(EvaluateMatch(s).kind) <= Rank(EvaluateMatch(t).kind)
  {
    MatchRank(s);
    MatchRank(t);
    RankBound(s);
    hide EvaluateMatch, SameFile, PhashOf, DhashOf;
  }

  /** A face match stands between a transformed copy and a probable relation. */
  function LabelRank(l: Label): (r: nat) {
    match l
    case NoRelation => 0
    case Similar => 1
    case Probable => 2
    case SameFaceDifferentImage => 3
    case TransformedCopy => 4
    case ExactImage => 5
  }

  lemma CorrelationRank(s: Signals)
    ensures LabelRank(CorrelatedAs(s)) ==
            if s.refSha == s.candSha then 5
            else if EvidenceRank(s) == 3 then 4
            else if FaceMatches(s) then 3 else EvidenceRank(s)
  {
    RankBound(s);
    hide EvidenceRank, FaceMatches, PhashOf, StrictPhashOf, Lower;
  }

  lemma EvidenceMonotone(s: Signals, t: Signals)
    requires NotLess(t.cosine, s.cosine)
    requires NotFarther(StrictPhashOf(t), StrictPhashOf(s)) && NotFarther(StrictDhashOf(t), StrictDhashOf(s))
    ensures EvidenceRank(s) <= EvidenceRank(t) <= 3
  {
    hide StrictPhashOf, StrictDhashOf;
  }

  /** With the same signals available, a higher cosine or face similarity or a shorter hash distance never lowers
      the label. */
  lemma CorrelationMonotone(s: Signals, t: Signals)
    requires NotLess(t.cosine, s.cosine) && NotLess(t.face, s.face)
    requires NotFarther(StrictPhashOf(t), StrictPhashOf(s)) && NotFarther(StrictDhashOf(t), StrictDhashOf(s))
    requires s.refSha == s.candSha ==> t.refSha == t.candSha
    ensures LabelRank(CorrelatedAs(s)) <= LabelRank(CorrelatedAs(t))
  {
    CorrelationRank(s);
    CorrelationRank(t);
    EvidenceMonotone(s, t);
    hide LabelRank, CorrelatedAs, EvidenceRank, StrictPhashOf, StrictDhashOf, NotFarther;
  }

  // ---- Thresholds and scores in numbers ----

  /** The hash distance used is the least of those of the complete pairs. */
  lemma NearestMeaning(s: Signals)
    ensures Nearest(s).None? <==> PhashOf(s).None? && DhashOf(s).None?
    ensures PhashOf(s).Some? ==> Nearest(s).value <= PhashOf(s).value
    ensures DhashOf(s).Some? ==> Nearest(s).value <= DhashOf(s).value
    ensures Nearest(s) == PhashOf(s) || Nearest(s) == DhashOf(s)
    ensures PhashOf(s).Some? <==> s.refPhash != "" && s.candPhash != ""
    ensures DhashOf(s).Some? <==> s.refDhash != "" && s.candDhash != ""
  {
    hide Distance;
  }

  predicate CosineFrom(s: Signals, least: real) { s.cosine.Some? && s.cosine.value >= least }

  predicate HashWithin(m: Option<nat>, most: nat) { m.Some? && m.value <= most }

  /** To the matching service two images are one file if the candidate has a digest and the digests differ in letter case
      only, to the correlation service if the digests are equal. */
  lemma ExactIff(s: Signals)
    ensures EvaluateMatch(s).kind == Exact <==> s.candSha != "" && AnyCase(s.refSha, s.candSha)
    ensures CorrelatedAs(s) == ExactImage <==> s.refSha == s.candSha
  {
    LowerIff(s.refSha, s.candSha);
    hide Lower, AnyCase, Nearest, EvidenceRank, Round4;
  }

  /** The classes of the matching service by their thresholds. */
  lemma MatchThresholds(s: Signals)
    requires !SameFile(s)
    ensures var k, m := EvaluateMatch(s).kind, Nearest(s);
            && (k == SameTransformedImage <==> CosineFrom(s, 0.88) || HashWithin(m, 8))
            && (k == SameTransformedImage || k == ProbableRelated <==> CosineFrom(s, 0.72) || HashWithin(m, 18))
            && (k != Unrelated <==> CosineFrom(s, 0.55) || HashWithin(m, 18))
            && k != Exact
  {
    hide Distance, Round4, Lower, Nearest;
  }

  /** The labels of the correlation service by theirs. */
  lemma CorrelationThresholds(s: Signals)
    requires s.refSha != s.candSha
    ensures var l, m := CorrelatedAs(s), StrictNearest(s);
            && (l == TransformedCopy <==> CosineFrom(s, 0.88) || m <= 8)
            && (l == SameFaceDifferentImage <==> l != TransformedCopy && s.face.Some? && s.face.value >= 0.60)
            && (l == Probable <==>
                  l != TransformedCopy && l != SameFaceDifferentImage && (CosineFrom(s, 0.72) || m <= 18))
            && (l == Similar <==> l !in {TransformedCopy, SameFaceDifferentImage, Probable} && CosineFrom(s, 0.55))
            && l != ExactImage
  {
    hide StrictNearest;
  }

  /** The scores of the matching service, each rounded to four decimals. */
  lemma MatchScores(s: Signals)
    ensures var r, m := EvaluateMatch(s), Nearest(s);
            && (r.kind == Exact ==> r.score == 1.0)
            && (s.cosine.None? && r.kind in {SameTransformedImage, ProbableRelated} ==>
                  m.Some? && r.score == Round4(1.0 - m.value as real / 64.0))
            && (s.cosine.None? && r.kind == Unrelated ==> r.score == 0.0)
            && (s.cosine.Some? && r.kind in {ProbableRelated, VisuallySimilar, Unrelated} ==>
                  r.score == Round4(s.cosine.value))
            && (s.cosine.Some? && r.kind == SameTransformedImage ==>
                  r.score == Round4(if m.Some? && 1.0 - m.value as real / 64.0 > s.cosine.value
                                    then 1.0 - m.value as real / 64.0 else s.cosine.value))
  {
    hide Distance, Round4, Lower, Nearest;
  }

  /** The score of a face match is the face similarity; a transformed copy scores the better of hash and cosine, 0.88
      standing in for a missing one. */
  lemma CorrelationScores(s: Signals)
    ensures CorrelatedAs(s) == ExactImage ==> CorrelationScore(s) == 1.0
    ensures CorrelatedAs(s) == SameFaceDifferentImage ==> s.face.Some? && CorrelationScore(s) == Round4(s.face.value)
    ensures var h := 1.0 - StrictNearest(s) as real / 64.0;
            var c := if s.cosine in {None, Some(0.0)} then 0.88 else s.cosine.value;
            CorrelatedAs(s) == TransformedCopy ==> CorrelationScore(s) == Round4(if h > c then h else c)
    ensures CorrelatedAs(s) == Similar ==> s.cosine.Some? && CorrelationScore(s) == Round4(s.cosine.value)
    ensures CorrelatedAs(s) == NoRelation ==>
              CorrelationScore(s) == Round4(if s.cosine in {None, Some(0.0)} then 0.10 else s.cosine.value)
    ensures CorrelatedAs(s) == Probable ==>
              CorrelationScore(s) ==
              Round4(if s.cosine in {None, Some(0.0)} then 1.0 - StrictNearest(s) as real / 64.0 else s.cosine.value)
  {
    RoundOne();
    hide Round4, StrictNearest;
  }
}
