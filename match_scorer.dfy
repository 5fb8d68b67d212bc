/**
 * `MatchScorer` (src/scoring/match_scorer.py): the score tables of the matcher and the
 * weights it keeps as its one piece of state. Scores are exact reals; Python's
 * `round(x, 1)` is not modelled.
 */
module MatchScorer {
  import opened TextUtil

  type Weights = seq<(string, real)>

  /** The weights set in `__init__`. */
  const DefaultWeights: Weights :=
    [("skills", 0.4), ("semantic", 0.3), ("experience", 0.2), ("qualifications", 0.1)]

  /** `sum(weights.values())`. */
  function SumValues(w: Weights): real {
    if w == [] then 0.0 else SumValues(w[..|w| - 1]) + w[|w| - 1].1
  }

  function Abs(x: real): (r: real)
    ensures r >= 0.0 && (r == x || r == -x)
  {
    if x < 0.0 then -x else x
  }

  /** The check of `set_weights`: the weights sum to 1 within 0.01. */
  predicate WeightsAccepted(w: Weights) {
    Abs(SumValues(w) - 1.0) <= 0.01
  }

  /** The default weights pass the check of `set_weights`. */
  lemma DefaultWeightsAccepted()
    ensures SumValues(DefaultWeights) == 1.0
    ensures WeightsAccepted(DefaultWeights)
  {
    assert DefaultWeights[..3] == [("skills", 0.4), ("semantic", 0.3), ("experience", 0.2)];
    assert DefaultWeights[..3][..2] == [("skills", 0.4), ("semantic", 0.3)];
    assert DefaultWeights[..3][..2][..1] == [("skills", 0.4)];
    assert SumValues(DefaultWeights[..3][..2][..1]) == 0.4;
    assert SumValues(DefaultWeights[..3][..2]) == 0.7;
    assert SumValues(DefaultWeights[..3]) == 0.9;
  }

  /** The outcome of `set_weights`: it returns, or raises ValueError. */
  datatype Outcome = Ok | ValueError

  function Min(a: real, b: real): (r: real)
    ensures r <= a && r <= b && (r == a || r == b)
  {
    if a <= b then a else b
  }

  function Max(a: real, b: real): (r: real)
    ensures r >= a && r >= b && (r == a || r == b)
  {
    if a >= b then a else b
  }

  /** `max(0, min(x, 100))`. */
  function Clamp(x: real): (r: real)
    ensures 0.0 <= r <= 100.0
    ensures 0.0 <= x <= 100.0 ==> r == x
  {
    Max(0.0, Min(x, 100.0))
  }

  lemma ClampMonotone(x: real, y: real)
    requires x <= y
    ensures Clamp(x) <= Clamp(y)
  {
  }

  /**
   * `calculate_skill_match_score`: 100 when nothing is required; otherwise the share of
   * required skills matched, a fuzzy match counting 0.8, capped at 100%.
   */
  function SkillMatchScore(matched: int, required: int, fuzzy: int): (s: real)
    ensures required == 0 ==> s == 100.0
    ensures s <= 100.0
  {
    if required == 0 then 100.0
    else Min((matched as real + fuzzy as real * 0.8) / required as real, 1.0) * 100.0
  }

  /** For counts that are not negative the skill score lies in [0, 100], reaching 100 once enough is matched. */
  lemma SkillMatchScoreBounds(matched: nat, required: nat, fuzzy: nat)
    ensures 0.0 <= SkillMatchScore(matched, required, fuzzy) <= 100.0
    ensures matched as real + fuzzy as real * 0.8 >= required as real ==> SkillMatchScore(matched, required, fuzzy) == 100.0
    ensures fuzzy == 0 && matched <= required && required > 0 ==>
      SkillMatchScore(matched, required, fuzzy) == matched as real / required as real * 100.0
  {
    if required > 0 {
      var n, r := matched as real + fuzzy as real * 0.8, required as real;
      DivMonotone(0.0, n, r);
      assert r / r == 1.0;
      if n >= r {
        DivMonotone(r, n, r);
      } else {
        DivMonotone(n, r, r);
      }
    }
  }

  /** More matches never lower the skill score. */
  lemma SkillMatchScoreMonotone(m1: nat, m2: nat, required: nat, f1: nat, f2: nat)
    requires m1 <= m2 && f1 <= f2
    ensures SkillMatchScore(m1, required, f1) <= SkillMatchScore(m2, required, f2)
  {
    if required > 0 {
      var r := required as real;
      var a, b := m1 as real + f1 as real * 0.8, m2 as real + f2 as real * 0.8;
      DivMonotone(a, b, r);
    }
  }

  /**
   * `calculate_semantic_score`: `similarity * 100` clamped to [0, 100]; a value that is not a
   * number (`None` here) scores 0.
   */
  function SemanticScore(similarity: Option<real>): (s: real)
    ensures 0.0 <= s <= 100.0
    ensures similarity.None? ==> s == 0.0
    ensures similarity.Some? && 0.0 <= similarity.value <= 1.0 ==> s == similarity.value * 100.0
  {
    match similarity
    case None => 0.0
    case Some(x) => Clamp(x * 100.0)
  }

  /** The experience score of `MatchScorer` as a function of `candidate / required`. */
  function ExperienceByRatio(ratio: real): real {
    if ratio >= 1.0 then
      if ratio <= 1.5 then 100.0 else if ratio <= 2.0 then 95.0 else 90.0
    else if ratio >= 0.8 then 85.0 + (ratio - 0.8) * 75.0
    else if ratio >= 0.6 then 70.0 + (ratio - 0.6) * 75.0
    else if ratio >= 0.4 then 50.0 + (ratio - 0.4) * 100.0
    else ratio * 125.0
  }

  /**
   * `calculate_experience_score` of `MatchScorer`: 50 when either value is unknown, 100 when
   * nothing is required, else the band of the ratio.
   */
  function ExperienceScore(candidate: Option<real>, required: Option<real>): (s: real)
    ensures candidate.None? || required.None? ==> s == 50.0
    ensures candidate.Some? && required == Some(0.0) ==> s == 100.0
  {
    if candidate.None? || required.None? then 50.0
    else if required.value == 0.0 then 100.0
    else ExperienceByRatio(candidate.value / required.value)
  }

  /**
   * The bands meet at ratios 0.4, 0.6, 0.8 and 1.0 (values 50, 70, 85, 100), so the score
   * never falls as the ratio rises up to 1.5, and stays in [0, 100] for a ratio that is not negative.
   */
  lemma ExperienceByRatioMonotone(a: real, b: real)
    requires 0.0 <= a <= b <= 1.5
    ensures ExperienceByRatio(a) <= ExperienceByRatio(b)
    ensures 0.0 <= ExperienceByRatio(a) <= 100.0
  {
  }

  lemma ExperienceByRatioBands(ratio: real)
    requires ratio >= 0.0
    ensures 0.0 <= ExperienceByRatio(ratio) <= 100.0
    ensures ratio >= 1.0 ==> ExperienceByRatio(ratio) >= 90.0
    ensures ratio < 1.0 ==> ExperienceByRatio(ratio) < 100.0
  {
  }

  /** The experience points of `calculate_qualification_score`. */
  function YearsPoints(years: real): real {
    if years >= 5.0 then 30.0 else if years >= 3.0 then 20.0 else if years >= 1.0 then 10.0 else 0.0
  }

  /** `calculate_qualification_score`: 40 for a degree, 30 for certifications, up to 30 for years. */
  function QualificationScore(hasDegree: bool, hasCertifications: bool, years: real): (s: real)
    ensures 0.0 <= s <= 100.0
  {
    Min((if hasDegree then 40.0 else 0.0) + (if hasCertifications then 30.0 else 0.0) + YearsPoints(years), 100.0)
  }

  /** The cap at 100 never bites, and each qualification only adds points. */
  lemma QualificationScoreSpec(hasDegree: bool, hasCertifications: bool, years: real, moreYears: real)
    requires years <= moreYears
    ensures QualificationScore(hasDegree, hasCertifications, years)
      == (if hasDegree then 40.0 else 0.0) + (if hasCertifications then 30.0 else 0.0) + YearsPoints(years)
    ensures QualificationScore(hasDegree, hasCertifications, years) <= QualificationScore(hasDegree, hasCertifications, moreYears)
    ensures QualificationScore(false, hasCertifications, years) <= QualificationScore(true, hasCertifications, years)
    ensures QualificationScore(hasDegree, false, years) <= QualificationScore(hasDegree, true, years)
    ensures QualificationScore(true, true, years) == 100.0 <==> years >= 5.0
  {
  }

  /** `float(x) if x is not None else 0.0`. */
  function OrZero(x: Option<real>): real {
    if x.Some? then x.value else 0.0
  }

  /** The weighted sum of `calculate_final_score`, before clamping; missing weights take their defaults. */
  function WeightedSum(w: Weights, skill: real, semantic: real, experience: real, qualification: real): real {
    skill * Get(w, "skills", 0.4) + semantic * Get(w, "semantic", 0.3)
      + experience * Get(w, "experience", 0.2) + qualification * Get(w, "qualifications", 0.1)
  }

  predicate NonNegativeWeights(w: Weights) {
    Get(w, "skills", 0.4) >= 0.0 && Get(w, "semantic", 0.3) >= 0.0
      && Get(w, "experience", 0.2) >= 0.0 && Get(w, "qualifications", 0.1) >= 0.0
  }

  /** `calculate_final_score` with the weights `w` in force: unknown sub-scores count as 0, the result is clamped. */
  function FinalScoreWith(w: Weights, skill: Option<real>, semantic: Option<real>, experience: Option<real>, qualification: Option<real>): (s: real)
    ensures 0.0 <= s <= 100.0
  {
    Clamp(WeightedSum(w, OrZero(skill), OrZero(semantic), OrZero(experience), OrZero(qualification)))
  }

  /** With weights that are not negative, raising any sub-score never lowers the final score. */
  lemma FinalScoreMonotone(w: Weights, a1: real, a2: real, a3: real, a4: real, b1: real, b2: real, b3: real, b4: real)
    requires NonNegativeWeights(w)
    requires a1 <= b1 && a2 <= b2 && a3 <= b3 && a4 <= b4
    ensures FinalScoreWith(w, Some(a1), Some(a2), Some(a3), Some(a4)) <= FinalScoreWith(w, Some(b1), Some(b2), Some(b3), Some(b4))
  {
    var ws, wm, we, wq := Get(w, "skills", 0.4), Get(w, "semantic", 0.3), Get(w, "experience", 0.2), Get(w, "qualifications", 0.1);
    ScaledSumMonotone(ws, wm, we, wq, a1, a2, a3, a4, b1, b2, b3, b4,
      WeightedSum(w, a1, a2, a3, a4), WeightedSum(w, b1, b2, b3, b4));
  }

  /** A sum of four terms, each scaled by a weight that is not negative, keeps a termwise order, and so does its clamp. */
  lemma ScaledSumMonotone(ws: real, wm: real, we: real, wq: real, a1: real, a2: real, a3: real, a4: real,
                          b1: real, b2: real, b3: real, b4: real, x: real, y: real)
    requires 0.0 <= ws && 0.0 <= wm && 0.0 <= we && 0.0 <= wq
    requires a1 <= b1 && a2 <= b2 && a3 <= b3 && a4 <= b4
    requires x == a1 * ws + a2 * wm + a3 * we + a4 * wq && y == b1 * ws + b2 * wm + b3 * we + b4 * wq
    ensures Clamp(x) <= Clamp(y)
  {
    MulMonotone(a1, b1, ws);
    MulMonotone(a2, b2, wm);
    MulMonotone(a3, b3, we);
    MulMonotone(a4, b4, wq);
    AddMonotone(a1 * ws, a2 * wm, a3 * we, a4 * wq, b1 * ws, b2 * wm, b3 * we, b4 * wq);
    ClampMonotone(x, y);
  }

  /** Sums of four terms keep a termwise order. */
  lemma AddMonotone(p1: real, p2: real, p3: real, p4: real, q1: real, q2: real, q3: real, q4: real)
    requires p1 <= q1 && p2 <= q2 && p3 <= q3 && p4 <= q4
    ensures p1 + p2 + p3 + p4 <= q1 + q2 + q3 + q4
  {
  }

  /** Scaling by a weight that is not negative keeps order. */
  lemma MulMonotone(a: real, b: real, c: real)
    requires a <= b && 0.0 <= c
    ensures a * c <= b * c
  {
    assert b * c - a * c == (b - a) * c;
  }

  /** A missing sub-score is scored exactly as 0, and with the default weights and sub-scores in [0, 100] no clamping happens. */
  lemma FinalScoreDefaults(skill: real, semantic: real, experience: real, qualification: real)
    requires 0.0 <= skill <= 100.0 && 0.0 <= semantic <= 100.0 && 0.0 <= experience <= 100.0 && 0.0 <= qualification <= 100.0
    ensures FinalScoreWith(DefaultWeights, None, Some(semantic), Some(experience), Some(qualification))
      == FinalScoreWith(DefaultWeights, Some(0.0), Some(semantic), Some(experience), Some(qualification))
    ensures FinalScoreWith(DefaultWeights, Some(skill), Some(semantic), Some(experience), Some(qualification))
      == 0.4 * skill + 0.3 * semantic + 0.2 * experience + 0.1 * qualification
  {
    assert Get(DefaultWeights, "skills", 0.4) == 0.4;
    assert Get(DefaultWeights, "semantic", 0.3) == 0.3;
    assert Get(DefaultWeights, "experience", 0.2) == 0.2;
    assert Get(DefaultWeights, "qualifications", 0.1) == 0.1;
  }

  /** `get_rating`. */
  function Rating(score: real): string {
    if score >= 90.0 then "Excellent Match"
    else if score >= 80.0 then "Very Good Match"
    else if score >= 70.0 then "Good Match"
    else if score >= 60.0 then "Fair Match"
    else if score >= 50.0 then "Moderate Match"
    else "Weak Match"
  }

  function RatingRank(band: string): nat {
    if band == "Excellent Match" then 5
    else if band == "Very Good Match" then 4
    else if band == "Good Match" then 3
    else if band == "Fair Match" then 2
    else if band == "Moderate Match" then 1
    else 0
  }

  /** The rating band is determined by the thresholds 90/80/70/60/50 and never drops as the score rises. */
  lemma RatingBands(p: real, q: real)
    requires p <= q
    ensures RatingRank(Rating(p)) <= RatingRank(Rating(q))
    ensures RatingRank(Rating(p)) == (if p >= 90.0 then 5 else if p >= 80.0 then 4 else if p >= 70.0 then 3
      else if p >= 60.0 then 2 else if p >= 50.0 then 1 else 0)
  {
  }

  datatype Breakdown = Breakdown(skillScore: real, semanticScore: real, experienceScore: real, qualificationScore: real)

  datatype ScoreResult = ScoreResult(
    finalScore: real, rating: string, breakdown: Breakdown, weights: Weights,
    skillsMatched: nat, skillsRequired: nat, matchRate: real)

  datatype Comparison = Comparison(
    scoreDifference: real, betterScore: string,
    skillDifference: real, semanticDifference: real, experienceDifference: real)

  /** `compare_scores`: 'score1' only when it is strictly higher, so a tie reports 'score2'. */
  function CompareScores(s1: ScoreResult, s2: ScoreResult): (c: Comparison)
    ensures c.betterScore == "score1" <==> s1.finalScore > s2.finalScore
    ensures c.betterScore == "score1" || c.betterScore == "score2"
    ensures c.scoreDifference + s2.finalScore == s1.finalScore
  {
    Comparison(s1.finalScore - s2.finalScore,
      if s1.finalScore > s2.finalScore then "score1" else "score2",
      s1.breakdown.skillScore - s2.breakdown.skillScore,
      s1.breakdown.semanticScore - s2.breakdown.semanticScore,
      s1.breakdown.experienceScore - s2.breakdown.experienceScore)
  }

  /** Comparing in the other order flips the difference; only a tie reports 'score2' both ways. */
  lemma CompareScoresAntisymmetric(s1: ScoreResult, s2: ScoreResult)
    ensures CompareScores(s1, s2).scoreDifference == -CompareScores(s2, s1).scoreDifference
    ensures CompareScores(s1, s2).betterScore == "score2" && CompareScores(s2, s1).betterScore == "score2"
      <==> s1.finalScore == s2.finalScore
  {
  }

  /** The scorer and its weights, which `set_weights` replaces. */
  class Scorer {
    var weights: Weights

    /** Weights that passed the check of `set_weights`. */
    predicate Valid()
      reads this
    {
      WeightsAccepted(weights)
    }

    constructor()
      ensures weights == DefaultWeights
      ensures Valid()
    {
      weights := DefaultWeights;
      DefaultWeightsAccepted();
    }

    /** `set_weights`: raises ValueError (and keeps the old weights) unless they sum to 1 within 0.01. */
    method SetWeights(w: Weights) returns (outcome: Outcome)
      modifies this
      ensures outcome == Ok <==> WeightsAccepted(w)
      ensures outcome == Ok ==> weights == w
      ensures outcome == ValueError ==> weights == old(weights)
      ensures old(Valid()) ==> Valid()
    {
      var total := SumValues(w);
      if Abs(total - 1.0) > 0.01 {
        return ValueError;
      }
      weights := w;
      return Ok;
    }

    /** `calculate_final_score`: explicit weights win unless absent or empty (`weights or self.weights`). */
    function FinalScore(skill: Option<real>, semantic: Option<real>, experience: Option<real>, qualification: Option<real>,
                        custom: Option<Weights>): (s: real)
      reads this
      ensures 0.0 <= s <= 100.0
      ensures custom.None? ==> s == FinalScoreWith(weights, skill, semantic, experience, qualification)
    {
      var w := if custom.Some? && custom.value != [] then custom.value else weights;
      FinalScoreWith(w, skill, semantic, experience, qualification)
    }

    /** `calculate_comprehensive_score`: every sub-score, the weighted final score and its rating. */
    function ComprehensiveScore(requiredCount: nat, exactCount: nat, fuzzyCount: nat, similarity: Option<real>,
                                candidateYears: real, requiredYears: real, hasDegree: bool, hasCertifications: bool): (r: ScoreResult)
      reads this
      ensures 0.0 <= r.finalScore <= 100.0
      ensures r.rating == Rating(r.finalScore)
      ensures r.skillsMatched == exactCount + fuzzyCount && r.skillsRequired == requiredCount
      ensures requiredCount == 0 ==> r.matchRate == 0.0 && r.breakdown.skillScore == 100.0
    {
      var skill := SkillMatchScore(exactCount, requiredCount, fuzzyCount);
      var semantic := SemanticScore(similarity);
      var experience := ExperienceScore(Some(candidateYears), Some(requiredYears));
      var qualification := QualificationScore(hasDegree, hasCertifications, candidateYears);
      var final := FinalScore(Some(skill), Some(semantic), Some(experience), Some(qualification), None);
      ScoreResult(final, Rating(final), Breakdown(skill, semantic, experience, qualification), weights,
        exactCount + fuzzyCount, requiredCount,
        if requiredCount > 0 then (exactCount + fuzzyCount) as real / requiredCount as real * 100.0 else 0.0)
    }
  }
}
