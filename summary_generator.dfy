/**
 * `SummaryGenerator` (src/scoring/summary_generator.py): the rating label, the match rate, the
 * interpretation of the overall semantic similarity, the recommendation and strength lists, the
 * one-line executive summary, and the skills part of the report.
 *
 * Recommendation and strength entries are kept as small datatypes; `AdviceText` and
 * `StrengthText` render each one to the sentence the source appends. Number formatting
 * (`:.1f`) is a parameter.
 */
module SummaryGenerator {
  import opened TextUtil
  import MatchScorer
  import ExperienceScorer

  // ---------------------------------------------------------------------------------------
  // _calculate_rating, _calculate_match_rate, _interpret_semantic_score

  /** `_calculate_rating`: the same six-label table as the scorer's `get_rating`. */
  function CalculateRating(score: real): (r: string)
    ensures r == MatchScorer.Rating(score)
  {
    if score >= 90.0 then "Excellent Match"
    else if score >= 80.0 then "Very Good Match"
    else if score >= 70.0 then "Good Match"
    else if score >= 60.0 then "Fair Match"
    else if score >= 50.0 then "Moderate Match"
    else "Weak Match"
  }

  /** `_calculate_match_rate`: 0.0 for no required skills, else the matched share in percent. */
  function MatchRate(matched: nat, total: nat): (p: real)
    ensures total == 0 ==> p == 0.0
    ensures matched <= total ==> 0.0 <= p <= 100.0
    ensures 0 < total == matched ==> p == 100.0
  {
    Percentage(matched, total)
  }

  /** The five levels of `_interpret_semantic_score`, from the highest down. */
  datatype Alignment = VeryHigh | High | Moderate | Fair | Low

  function AlignmentOf(score: real): Alignment {
    if score >= 0.8 then VeryHigh
    else if score >= 0.7 then High
    else if score >= 0.6 then Moderate
    else if score >= 0.5 then Fair
    else Low
  }

  function AlignmentRank(a: Alignment): nat {
    match a
    case VeryHigh => 4
    case High => 3
    case Moderate => 2
    case Fair => 1
    case Low => 0
  }

  function AlignmentText(a: Alignment): string {
    match a
    case VeryHigh => "Very high semantic alignment with job requirements"
    case High => "High semantic alignment with job requirements"
    case Moderate => "Moderate semantic alignment with job requirements"
    case Fair => "Fair semantic alignment with job requirements"
    case Low => "Low semantic alignment with job requirements"
  }

  /** `_interpret_semantic_score`. */
  function InterpretSemanticScore(score: real): string {
    AlignmentText(AlignmentOf(score))
  }

  /**
   * The interpretation has five bands with lower bounds 0.8, 0.7, 0.6 and 0.5, and a higher
   * similarity never gets a lower band.
   */
  lemma AlignmentBands(p: real, q: real)
    requires p <= q
    ensures AlignmentRank(AlignmentOf(p)) <= AlignmentRank(AlignmentOf(q))
    ensures AlignmentOf(p) == VeryHigh <==> p >= 0.8
    ensures AlignmentOf(p) == High <==> 0.7 <= p < 0.8
    ensures AlignmentOf(p) == Moderate <==> 0.6 <= p < 0.7
    ensures AlignmentOf(p) == Fair <==> 0.5 <= p < 0.6
    ensures AlignmentOf(p) == Low <==> p < 0.5
  {
  }

  // ---------------------------------------------------------------------------------------
  // Score bands shared by the recommendation list and the summary

  /** The four final-score bands: at least 80, at least 70, at least 60, below 60. */
  datatype Band = From80 | From70 | From60 | Below60

  function BandOf(finalScore: real): (b: Band)
    ensures b == From80 <==> finalScore >= 80.0
    ensures b == From70 <==> 70.0 <= finalScore < 80.0
    ensures b == From60 <==> 60.0 <= finalScore < 70.0
    ensures b == Below60 <==> finalScore < 60.0
  {
    if finalScore >= 80.0 then From80
    else if finalScore >= 70.0 then From70
    else if finalScore >= 60.0 then From60
    else Below60
  }

  // ---------------------------------------------------------------------------------------
  // _generate_recommendations

  /** The statuses the source lists as needing experience advice, as written. */
  predicate AdvisedStatusAsWritten(status: string) {
    status == "moderate_gap" || status == "significant_gap" || status == "critical_gap"
  }

  /** The gap statuses `ExperienceScorer` actually produces below 80% of the requirement. */
  predicate AdvisedStatus(status: string) {
    status == "moderate_gap" || status == "significant_gap" || status == "large_gap"
  }

  /**
   * As written, a candidate with less than 40% of the required years gets the status
   * "large_gap" from the experience scorer, which the list above does not name, so no
   * experience advice is given for the largest gap; "critical_gap" is never produced.
   */
  lemma LargeGapUnadvisedAsWritten(c: nat, r: nat)
    requires 0 < r && (c as real) < 0.4 * (r as real)
    ensures ExperienceScorer.GapStatus(c, r) == "large_gap"
    ensures !AdvisedStatusAsWritten(ExperienceScorer.GapStatus(c, r))
  {
    var q := c as real / r as real;
    assert q * r as real == c as real;
    assert q < 0.4 by {
      if q >= 0.4 {
        DivMonotone(0.4 * r as real, c as real, r as real);
      }
    }
  }

  /**
   * With the corrected status list, experience advice is given exactly when the experience
   * score of `calculate_experience_score` falls below 80.
   */
  lemma AdvisedIffScoreBelow80(c: nat, r: nat)
    requires r > 0
    ensures AdvisedStatus(ExperienceScorer.GapStatus(c, r)) <==>
            ExperienceScorer.ExperienceScore(Some(c), Some(r)) < 80.0
  {
    ExperienceScorer.GapStatusMatchesScore(c, r);
  }

  // ---------------------------------------------------------------------------------------
  // Lists built by conditional appends


  /** Each entry's rank is above the previous one: every kind at most once, in a fixed order. */
  predicate Ordered<T>(s: seq<T>, rank: T -> nat) {
    forall i, j :: 0 <= i < j < |s| ==> rank(s[i]) < rank(s[j])
  }

  lemma OrderedAppend<T>(s: seq<T>, t: seq<T>, rank: T -> nat, k: nat)
    requires Ordered(s, rank) && forall i :: 0 <= i < |s| ==> rank(s[i]) < k
    requires |t| <= 1 && forall i :: 0 <= i < |t| ==> rank(t[i]) == k
    ensures Ordered(s + t, rank) && forall i :: 0 <= i < |s + t| ==> rank((s + t)[i]) < k + 1
  {
  }

  /** Rank of the single entry a conditional append may contribute. */
  predicate RankedPiece<T>(t: seq<T>, rank: T -> nat, k: nat) {
    |t| <= 1 && forall i :: 0 <= i < |t| ==> rank(t[i]) == k
  }

  /** Five conditional appends of ranks 0 to 4, in that order, give an ordered list. */
  lemma OrderedPieces<T>(t0: seq<T>, t1: seq<T>, t2: seq<T>, t3: seq<T>, t4: seq<T>, rank: T -> nat)
    requires RankedPiece(t0, rank, 0) && RankedPiece(t1, rank, 1) && RankedPiece(t2, rank, 2)
    requires RankedPiece(t3, rank, 3) && RankedPiece(t4, rank, 4)
    ensures Ordered(t0 + t1 + t2 + t3 + t4, rank)
  {
    OrderedAppend([], t0, rank, 0);
    assert [] + t0 == t0;
    OrderedAppend(t0, t1, rank, 1);
    OrderedAppend(t0 + t1, t2, rank, 2);
    OrderedAppend(t0 + t1 + t2, t3, rank, 3);
    OrderedAppend(t0 + t1 + t2 + t3, t4, rank, 4);
  }

  /** A bound that holds for the entries of each piece holds for the whole list. */
  lemma BoundedPieces<T>(t0: seq<T>, t1: seq<T>, t2: seq<T>, t3: seq<T>, t4: seq<T>, size: T -> nat, n: nat)
    requires forall x :: x in t0 || x in t1 || x in t2 || x in t3 || x in t4 ==> size(x) <= n
    ensures forall i :: 0 <= i < |t0 + t1 + t2 + t3 + t4| ==> size((t0 + t1 + t2 + t3 + t4)[i]) <= n
  {
    var s := t0 + t1 + t2 + t3 + t4;
    forall i | 0 <= i < |s|
      ensures size(s[i]) <= n
    {
      InPieces(t0, t1, t2, t3, t4, s[i]);
    }
  }

  /** `s[:5]` cut again to three is `s[:3]`; it has at most three entries exactly when `s` has. */
  lemma TakeFiveThenThree<T>(s: seq<T>)
    ensures Take(Take(s, 5), 3) == Take(s, 3)
    ensures Take(s, 5) == [] <==> s == []
    ensures |Take(s, 5)| <= 3 <==> |s| <= 3
    ensures |s| <= 3 ==> Take(s, 5) == Take(s, 3) == s
  {
  }

  /** An entry of five concatenated pieces comes from one of them. */
  lemma InPieces<T>(t0: seq<T>, t1: seq<T>, t2: seq<T>, t3: seq<T>, t4: seq<T>, x: T)
    ensures x in t0 + t1 + t2 + t3 + t4 <==> x in t0 || x in t1 || x in t2 || x in t3 || x in t4
  {
  }

  // ---------------------------------------------------------------------------------------
  // _generate_recommendations

  /** One entry of the recommendation list. */
  datatype Advice =
    | AcquireSkills
    | MissingSkills(focus: bool, names: seq<string>)
    | ExperienceAdvice(text: string)
    | HighlightSkills
    | BandAdvice(band: Band)

  /** The position each kind of entry takes in the list. */
  function AdviceRank(a: Advice): nat {
    match a
    case AcquireSkills => 0
    case MissingSkills(_, _) => 1
    case ExperienceAdvice(_) => 2
    case HighlightSkills => 3
    case BandAdvice(_) => 4
  }

  function AdviceText(a: Advice): string {
    match a
    case AcquireSkills => "Consider acquiring key missing skills through courses or projects"
    case MissingSkills(focus, names) =>
      (if focus then "Focus on top missing skills: " else "Priority skills to acquire: ") + Join(names, ", ")
    case ExperienceAdvice(text) => text
    case HighlightSkills => "Highlight your relevant skills and projects more prominently in your resume"
    case BandAdvice(From80) => "Excellent match! Tailor your resume to emphasize relevant experience and projects"
    case BandAdvice(From70) => "Good match overall. Consider adding specific examples of projects using required skills"
    case BandAdvice(From60) => "Strengthen your profile by gaining hands-on experience with missing skills"
    case BandAdvice(Below60) =>
      "Significant skill gaps identified. Consider targeted learning or look for roles that better match your current skill set"
  }

  /** Whether the gap analysis passed in asks for experience advice, by the status list as written. */
  predicate WantsExperienceAdvice(experience: Option<ExperienceScorer.GapAnalysis>) {
    experience.Some? && AdvisedStatusAsWritten(experience.value.status)
  }

  /** The recommendation of the gap analysis, or "" when there is none. */
  function ExperienceRecommendation(experience: Option<ExperienceScorer.GapAnalysis>): string {
    if experience.Some? then experience.value.recommendation else ""
  }

  /**
   * The recommendation list, rule by rule: advice to acquire skills below 70, the first three
   * missing skills, the gap analysis' advice, a highlight reminder when anything matched, and
   * the advice of the score band.
   */
  function Recommendations(finalScore: real, missing: seq<string>, experience: Option<ExperienceScorer.GapAnalysis>,
                           matchedExact: seq<string>, matchedFuzzy: seq<string>): seq<Advice> {
    When(finalScore < 70.0, AcquireSkills)
    + When(missing != [], MissingSkills(|missing| > 3, Take(missing, 3)))
    + When(WantsExperienceAdvice(experience), ExperienceAdvice(ExperienceRecommendation(experience)))
    + When(matchedExact != [] || matchedFuzzy != [], HighlightSkills)
    + [BandAdvice(BandOf(finalScore))]
  }

  /**
   * `_generate_recommendations`. `experience` is None for a missing or empty analysis; the
   * missing-skills entry names `missing[:5]` when that has at most three names, else its first three.
   */
  method GenerateRecommendations(finalScore: real, missing: seq<string>,
                                 experience: Option<ExperienceScorer.GapAnalysis>,
                                 matchedExact: seq<string>, matchedFuzzy: seq<string>)
    returns (recs: seq<Advice>)
    ensures recs == Recommendations(finalScore, missing, experience, matchedExact, matchedFuzzy)
  {
    ghost var t0 := When(finalScore < 70.0, AcquireSkills);
    ghost var t1 := When(missing != [], MissingSkills(|missing| > 3, Take(missing, 3)));
    ghost var t2 := When(WantsExperienceAdvice(experience), ExperienceAdvice(ExperienceRecommendation(experience)));
    ghost var t3 := When(matchedExact != [] || matchedFuzzy != [], HighlightSkills);
    recs := [];
    if finalScore < 70.0 {
      recs := recs + [AcquireSkills];
    }
    assert recs == t0;
    if missing != [] {
      var critical := Take(missing, 5);
      TakeFiveThenThree(missing);
      if |critical| <= 3 {
        recs := recs + [MissingSkills(false, critical)];
      } else {
        recs := recs + [MissingSkills(true, Take(critical, 3))];
      }
    }
    assert recs == t0 + t1;
    if experience.Some? && AdvisedStatusAsWritten(experience.value.status) {
      recs := recs + [ExperienceAdvice(experience.value.recommendation)];
    }
    assert recs == t0 + t1 + t2;
    if matchedExact != [] || matchedFuzzy != [] {
      recs := recs + [HighlightSkills];
    }
    assert recs == t0 + t1 + t2 + t3;
    recs := recs + [BandAdvice(BandOf(finalScore))];
  }

  /**
   * The list has one to five entries, each kind at most once in rule order; it always ends with
   * the band's advice, and starts with the advice to acquire skills exactly when the score is below 70.
   */
  lemma RecommendationsShape(finalScore: real, missing: seq<string>, experience: Option<ExperienceScorer.GapAnalysis>,
                             matchedExact: seq<string>, matchedFuzzy: seq<string>)
    ensures var r := Recommendations(finalScore, missing, experience, matchedExact, matchedFuzzy);
      && 1 <= |r| <= 5
      && Ordered(r, AdviceRank)
      && r[|r| - 1] == BandAdvice(BandOf(finalScore))
      && (r[0] == AcquireSkills <==> finalScore < 70.0)
  {
    var r := Recommendations(finalScore, missing, experience, matchedExact, matchedFuzzy);
    var t0, t1 := When(finalScore < 70.0, AcquireSkills), When(missing != [], MissingSkills(|missing| > 3, Take(missing, 3)));
    var t2 := When(WantsExperienceAdvice(experience), ExperienceAdvice(ExperienceRecommendation(experience)));
    var t3, t4 := When(matchedExact != [] || matchedFuzzy != [], HighlightSkills), [BandAdvice(BandOf(finalScore))];
    assert r == t0 + t1 + t2 + t3 + t4;
    OrderedPieces(t0, t1, t2, t3, t4, AdviceRank);
    InPieces(t0, t1, t2, t3, t4, r[0]);
  }

  /**
   * The missing-skills entry appears iff skills are missing and names the first three; the
   * experience entry appears iff the analysis' status is one the source lists (moderate_gap,
   * significant_gap or critical_gap), with its recommendation; the
   * highlight entry appears iff some skill matched exactly or fuzzily.
   */
  lemma RecommendationsEntries(finalScore: real, missing: seq<string>, experience: Option<ExperienceScorer.GapAnalysis>,
                               matchedExact: seq<string>, matchedFuzzy: seq<string>)
    ensures var r := Recommendations(finalScore, missing, experience, matchedExact, matchedFuzzy);
      && (MissingSkills(|missing| > 3, Take(missing, 3)) in r <==> missing != [])
      && (forall a :: a in r && a.MissingSkills? ==> a == MissingSkills(|missing| > 3, Take(missing, 3)))
      && (ExperienceAdvice(ExperienceRecommendation(experience)) in r <==> WantsExperienceAdvice(experience))
      && (forall a :: a in r && a.ExperienceAdvice? ==> a.text == ExperienceRecommendation(experience))
      && (HighlightSkills in r <==> matchedExact != [] || matchedFuzzy != [])
  {
    var r := Recommendations(finalScore, missing, experience, matchedExact, matchedFuzzy);
    var m := MissingSkills(|missing| > 3, Take(missing, 3));
    var e := ExperienceAdvice(ExperienceRecommendation(experience));
    var t0, t1 := When(finalScore < 70.0, AcquireSkills), When(missing != [], m);
    var t2, t3 := When(WantsExperienceAdvice(experience), e), When(matchedExact != [] || matchedFuzzy != [], HighlightSkills);
    var t4 := [BandAdvice(BandOf(finalScore))];
    assert r == t0 + t1 + t2 + t3 + t4;
    forall a | a in r
      ensures (a.MissingSkills? ==> a == m) && (a.ExperienceAdvice? ==> a == e)
    {
      InPieces(t0, t1, t2, t3, t4, a);
    }
    InPieces(t0, t1, t2, t3, t4, m);
    InPieces(t0, t1, t2, t3, t4, e);
    InPieces(t0, t1, t2, t3, t4, HighlightSkills);
  }

  /**
   * The recommendation list with the corrected status list: the experience advice follows
   * the statuses `ExperienceScorer` produces below 80% of the requirement.
   */
  function RecommendationsIntended(finalScore: real, missing: seq<string>,
                                   experience: Option<ExperienceScorer.GapAnalysis>,
                                   matchedExact: seq<string>, matchedFuzzy: seq<string>): seq<Advice> {
    When(finalScore < 70.0, AcquireSkills)
    + When(missing != [], MissingSkills(|missing| > 3, Take(missing, 3)))
    + When(experience.Some? && AdvisedStatus(experience.value.status),
           ExperienceAdvice(ExperienceRecommendation(experience)))
    + When(matchedExact != [] || matchedFuzzy != [], HighlightSkills)
    + [BandAdvice(BandOf(finalScore))]
  }

  /**
   * The two lists differ only for the statuses "large_gap" and "critical_gap": for a
   * "large_gap" analysis, the largest gap the experience scorer reports, only the corrected
   * list carries the experience advice.
   */
  lemma IntendedAdvisesLargeGap(finalScore: real, missing: seq<string>,
                                experience: Option<ExperienceScorer.GapAnalysis>,
                                matchedExact: seq<string>, matchedFuzzy: seq<string>)
    ensures experience.None? || (experience.value.status != "large_gap" && experience.value.status != "critical_gap") ==>
      RecommendationsIntended(finalScore, missing, experience, matchedExact, matchedFuzzy)
      == Recommendations(finalScore, missing, experience, matchedExact, matchedFuzzy)
    ensures experience.Some? && experience.value.status == "large_gap" ==>
      && ExperienceAdvice(ExperienceRecommendation(experience))
         in RecommendationsIntended(finalScore, missing, experience, matchedExact, matchedFuzzy)
      && ExperienceAdvice(ExperienceRecommendation(experience))
         !in Recommendations(finalScore, missing, experience, matchedExact, matchedFuzzy)
  {
    RecommendationsEntries(finalScore, missing, experience, matchedExact, matchedFuzzy);
    var e := ExperienceAdvice(ExperienceRecommendation(experience));
    var t0, t1 := When(finalScore < 70.0, AcquireSkills), When(missing != [], MissingSkills(|missing| > 3, Take(missing, 3)));
    var t3, t4 := When(matchedExact != [] || matchedFuzzy != [], HighlightSkills), [BandAdvice(BandOf(finalScore))];
    if experience.Some? && experience.value.status == "large_gap" {
      assert RecommendationsIntended(finalScore, missing, experience, matchedExact, matchedFuzzy)
        == t0 + t1 + [e] + t3 + t4;
    }
  }

  // ---------------------------------------------------------------------------------------
  // _identify_strengths

  /** `[s for s in skills if len(s) > 3]`. */
  function LongNames(skills: seq<string>): (r: seq<string>)
    ensures |r| <= |skills|
  {
    if skills == [] then []
    else
      var rest := LongNames(skills[..|skills| - 1]);
      var last := skills[|skills| - 1];
      if |last| > 3 then rest + [last] else rest
  }

  /** The long names are exactly the names of more than three characters. */
  lemma {:induction false} LongNamesMember(skills: seq<string>, x: string)
    ensures x in LongNames(skills) <==> x in skills && |x| > 3
  {
    if skills != [] {
      var init, last := skills[..|skills| - 1], skills[|skills| - 1];
      assert skills == init + [last];
      LongNamesMember(init, x);
    }
  }

  /** One entry of the strength list. */
  datatype Strength =
    | StrongSkillMatch(exact: nat, similar: nat)
    | HighSemanticAlignment
    | ExperienceMeets
    | AdditionalSkills(extra: seq<string>)
    | ProficientIn(skills: seq<string>)

  function StrengthRank(s: Strength): nat {
    match s
    case StrongSkillMatch(_, _) => 0
    case HighSemanticAlignment => 1
    case ExperienceMeets => 2
    case AdditionalSkills(_) => 3
    case ProficientIn(_) => 4
  }

  /** The skill names an entry quotes. */
  function Quoted(s: Strength): seq<string> {
    match s
    case AdditionalSkills(extra) => extra
    case ProficientIn(skills) => skills
    case _ => []
  }

  function StrengthText(s: Strength): string {
    match s
    case StrongSkillMatch(exact, similar) =>
      "Strong skill match with " + NatToString(exact) + " exact and " + NatToString(similar) + " similar skill matches"
    case HighSemanticAlignment => "High semantic alignment with job requirements"
    case ExperienceMeets => "Experience level matches or exceeds requirements"
    case AdditionalSkills(extra) => "Additional relevant skills: " + Join(extra, ", ")
    case ProficientIn(skills) => "Proficient in key required skills: " + Join(skills, ", ")
  }

  /**
   * The strength list, one entry per rule that fires, in rule order: skill score at least 80,
   * semantic score at least 80, experience score at least 90, extra skills longer than three
   * characters (the first three quoted), exact matches (the first three quoted).
   */
  function Strengths(skillScore: real, semanticScore: real, experienceScore: real,
                     matchedExact: seq<string>, matchedFuzzy: seq<string>, extraSkills: seq<string>): seq<Strength> {
    StrengthsOf(skillScore >= 80.0, semanticScore >= 80.0, experienceScore >= 90.0,
      |matchedExact|, |matchedFuzzy|, LongNames(extraSkills), matchedExact)
  }

  /** The five rules once their conditions are decided; `notable` and `key` are the lists quoted from. */
  function StrengthsOf(skillOk: bool, semanticOk: bool, experienceOk: bool, exact: nat, similar: nat,
                       notable: seq<string>, key: seq<string>): seq<Strength> {
    When(skillOk, StrongSkillMatch(exact, similar))
    + When(semanticOk, HighSemanticAlignment)
    + When(experienceOk, ExperienceMeets)
    + When(notable != [], AdditionalSkills(Take(notable, 3)))
    + When(key != [], ProficientIn(Take(key, 3)))
  }

  /** `_identify_strengths`: the notable extras and key matches are cut to five, then quoted up to three. */
  method IdentifyStrengths(skillScore: real, semanticScore: real, experienceScore: real,
                           matchedExact: seq<string>, matchedFuzzy: seq<string>, extraSkills: seq<string>)
    returns (strengths: seq<Strength>)
    ensures strengths == Strengths(skillScore, semanticScore, experienceScore, matchedExact, matchedFuzzy, extraSkills)
  {
    ghost var long := LongNames(extraSkills);
    ghost var t0 := When(skillScore >= 80.0, StrongSkillMatch(|matchedExact|, |matchedFuzzy|));
    ghost var t1 := When(semanticScore >= 80.0, HighSemanticAlignment);
    ghost var t2 := When(experienceScore >= 90.0, ExperienceMeets);
    ghost var t3 := When(long != [], AdditionalSkills(Take(long, 3)));
    ghost var t4 := When(matchedExact != [], ProficientIn(Take(matchedExact, 3)));
    strengths := [];
    if skillScore >= 80.0 {
      strengths := strengths + [StrongSkillMatch(|matchedExact|, |matchedFuzzy|)];
    }
    assert strengths == t0;
    if semanticScore >= 80.0 {
      strengths := strengths + [HighSemanticAlignment];
    }
    assert strengths == t0 + t1;
    if experienceScore >= 90.0 {
      strengths := strengths + [ExperienceMeets];
    }
    assert strengths == t0 + t1 + t2;
    if extraSkills != [] {
      var notable := Take(LongNames(extraSkills), 5);
      TakeFiveThenThree(long);
      if notable != [] {
        strengths := strengths + [AdditionalSkills(Take(notable, 3))];
      }
    }
    assert strengths == t0 + t1 + t2 + t3;
    if matchedExact != [] {
      var keyMatches := Take(matchedExact, 5);
      TakeFiveThenThree(matchedExact);
      strengths := strengths + [ProficientIn(Take(keyMatches, 3))];
    }
    assert strengths == t0 + t1 + t2 + t3 + t4;
  }

  /** At most five strengths, each kind at most once in rule order, each quoting at most three skills. */
  lemma StrengthsShape(skillScore: real, semanticScore: real, experienceScore: real,
                       matchedExact: seq<string>, matchedFuzzy: seq<string>, extraSkills: seq<string>)
    ensures var s := Strengths(skillScore, semanticScore, experienceScore, matchedExact, matchedFuzzy, extraSkills);
      && |s| <= 5
      && Ordered(s, StrengthRank)
      && forall i :: 0 <= i < |s| ==> |Quoted(s[i])| <= 3
  {
    StrengthsOfShape(skillScore >= 80.0, semanticScore >= 80.0, experienceScore >= 90.0,
      |matchedExact|, |matchedFuzzy|, LongNames(extraSkills), matchedExact);
  }

  lemma StrengthsOfShape(skillOk: bool, semanticOk: bool, experienceOk: bool, exact: nat, similar: nat,
                         notable: seq<string>, key: seq<string>)
    ensures var s := StrengthsOf(skillOk, semanticOk, experienceOk, exact, similar, notable, key);
      && |s| <= 5
      && Ordered(s, StrengthRank)
      && forall i :: 0 <= i < |s| ==> |Quoted(s[i])| <= 3
  {
    var t0, t1, t2 := When(skillOk, StrongSkillMatch(exact, similar)), When(semanticOk, HighSemanticAlignment),
      When(experienceOk, ExperienceMeets);
    var t3 := When(notable != [], AdditionalSkills(Take(notable, 3)));
    var t4 := When(key != [], ProficientIn(Take(key, 3)));
    OrderedPieces(t0, t1, t2, t3, t4, StrengthRank);
    BoundedPieces(t0, t1, t2, t3, t4, (x: Strength) => |Quoted(x)|, 3);
  }

  /** Each rule contributes its entry exactly when its condition holds. */
  lemma StrengthsRules(skillScore: real, semanticScore: real, experienceScore: real,
                       matchedExact: seq<string>, matchedFuzzy: seq<string>, extraSkills: seq<string>)
    ensures var s := Strengths(skillScore, semanticScore, experienceScore, matchedExact, matchedFuzzy, extraSkills);
      && (StrongSkillMatch(|matchedExact|, |matchedFuzzy|) in s <==> skillScore >= 80.0)
      && (HighSemanticAlignment in s <==> semanticScore >= 80.0)
      && (ExperienceMeets in s <==> experienceScore >= 90.0)
      && (AdditionalSkills(Take(LongNames(extraSkills), 3)) in s <==> exists x :: x in extraSkills && |x| > 3)
      && (ProficientIn(Take(matchedExact, 3)) in s <==> matchedExact != [])
  {
    var long := LongNames(extraSkills);
    StrengthsOfRules(skillScore >= 80.0, semanticScore >= 80.0, experienceScore >= 90.0,
      |matchedExact|, |matchedFuzzy|, long, matchedExact);
    if long != [] {
      LongNamesMember(extraSkills, long[0]);
    }
    if exists y :: y in extraSkills && |y| > 3 {
      var y :| y in extraSkills && |y| > 3;
      LongNamesMember(extraSkills, y);
    }
  }

  lemma StrengthsOfRules(skillOk: bool, semanticOk: bool, experienceOk: bool, exact: nat, similar: nat,
                         notable: seq<string>, key: seq<string>)
    ensures var s := StrengthsOf(skillOk, semanticOk, experienceOk, exact, similar, notable, key);
      && (StrongSkillMatch(exact, similar) in s <==> skillOk)
      && (HighSemanticAlignment in s <==> semanticOk)
      && (ExperienceMeets in s <==> experienceOk)
      && (AdditionalSkills(Take(notable, 3)) in s <==> notable != [])
      && (ProficientIn(Take(key, 3)) in s <==> key != [])
  {
    var m, x, k := StrongSkillMatch(exact, similar), AdditionalSkills(Take(notable, 3)), ProficientIn(Take(key, 3));
    var t0, t1, t2 := When(skillOk, m), When(semanticOk, HighSemanticAlignment), When(experienceOk, ExperienceMeets);
    var t3, t4 := When(notable != [], x), When(key != [], k);
    InPieces(t0, t1, t2, t3, t4, m);
    InPieces(t0, t1, t2, t3, t4, HighSemanticAlignment);
    InPieces(t0, t1, t2, t3, t4, ExperienceMeets);
    InPieces(t0, t1, t2, t3, t4, x);
    InPieces(t0, t1, t2, t3, t4, k);
  }

  // ---------------------------------------------------------------------------------------
  // _generate_summary

  /** One part of the executive summary. */
  datatype SummaryPart =
    | Assessment(rating: string, scoreText: string)
    | SkillCounts(exact: nat, similar: nat, missing: nat)
    | ExperienceNote(message: string)
    | Verdict(band: Band)

  function PartText(p: SummaryPart): string {
    match p
    case Assessment(rating, scoreText) => "Overall Assessment: " + rating + " (" + scoreText + "/100)"
    case SkillCounts(exact, similar, missing) =>
      "Skills: " + NatToString(exact + similar) + " matched (" + NatToString(exact) + " exact, "
        + NatToString(similar) + " similar), " + NatToString(missing) + " missing"
    case ExperienceNote(message) => "Experience: " + message
    case Verdict(From80) => "Recommendation: Strong candidate. Proceed with application."
    case Verdict(From70) => "Recommendation: Good candidate. Consider applying with tailored resume."
    case Verdict(From60) => "Recommendation: Fair match. Consider skill development before applying."
    case Verdict(Below60) => "Recommendation: Address significant skill gaps or consider alternative positions."
  }

  function PartTexts(ps: seq<SummaryPart>): (ts: seq<string>)
    ensures |ts| == |ps|
    ensures forall i :: 0 <= i < |ps| ==> ts[i] == PartText(ps[i])
  {
    if ps == [] then [] else PartTexts(ps[..|ps| - 1]) + [PartText(ps[|ps| - 1])]
  }

  /** The message of the gap analysis, or "" when there is none. */
  function ExperienceMessage(experience: Option<ExperienceScorer.GapAnalysis>): string {
    if experience.Some? then experience.value.message else ""
  }

  /**
   * The summary parts: the assessment, the skill counts (exact plus fuzzy matches only), the
   * experience message when there is one, and the band's recommendation.
   */
  function SummaryParts(finalScore: real, scoreText: string, rating: string,
                        matchedExact: seq<string>, matchedFuzzy: seq<string>, missing: seq<string>,
                        experience: Option<ExperienceScorer.GapAnalysis>): seq<SummaryPart> {
    [Assessment(rating, scoreText), SkillCounts(|matchedExact|, |matchedFuzzy|, |missing|)]
    + When(ExperienceMessage(experience) != [], ExperienceNote(ExperienceMessage(experience)))
    + [Verdict(BandOf(finalScore))]
  }

  /** `_generate_summary`; `scoreText` is the final score formatted with one decimal. */
  method GenerateSummary(finalScore: real, scoreText: string, rating: string,
                         matchedExact: seq<string>, matchedFuzzy: seq<string>, missing: seq<string>,
                         experience: Option<ExperienceScorer.GapAnalysis>)
    returns (summary: string)
    ensures summary == Join(PartTexts(SummaryParts(finalScore, scoreText, rating, matchedExact, matchedFuzzy,
      missing, experience)), " | ")
  {
    var parts := [Assessment(rating, scoreText)];
    parts := parts + [SkillCounts(|matchedExact|, |matchedFuzzy|, |missing|)];
    if experience.Some? {
      var message := experience.value.message;
      if message != [] {
        parts := parts + [ExperienceNote(message)];
      }
    }
    parts := parts + [Verdict(BandOf(finalScore))];
    assert parts == SummaryParts(finalScore, scoreText, rating, matchedExact, matchedFuzzy, missing, experience);
    summary := Join(PartTexts(parts), " | ");
  }

  /**
   * Three or four parts, the fourth exactly when the analysis carries a message; the assessment
   * comes first and the band's verdict last, the same band as the last recommendation.
   */
  lemma SummaryShape(finalScore: real, scoreText: string, rating: string,
                     matchedExact: seq<string>, matchedFuzzy: seq<string>, missing: seq<string>,
                     experience: Option<ExperienceScorer.GapAnalysis>)
    ensures var p := SummaryParts(finalScore, scoreText, rating, matchedExact, matchedFuzzy, missing, experience);
      var r := Recommendations(finalScore, missing, experience, matchedExact, matchedFuzzy);
      && 3 <= |p| <= 4
      && (|p| == 4 <==> ExperienceMessage(experience) != [])
      && p[0] == Assessment(rating, scoreText)
      && p[1].exact + p[1].similar == |matchedExact| + |matchedFuzzy|
      && p[|p| - 1] == Verdict(BandOf(finalScore))
      && r != [] && r[|r| - 1] == BandAdvice(p[|p| - 1].band)
  {
    RecommendationsShape(finalScore, missing, experience, matchedExact, matchedFuzzy);
  }

  // ---------------------------------------------------------------------------------------
  // generate_report

  datatype SkillsAnalysis = SkillsAnalysis(
    matchedExact: seq<string>, matchedFuzzy: seq<string>, matchedSemantic: seq<string>,
    missing: seq<string>, extra: seq<string>,
    totalMatched: nat, totalRequired: nat, matchRate: real)

  datatype Report = Report(
    jobTitle: string, finalScore: real, rating: string,
    skills: SkillsAnalysis, interpretation: string,
    experience: Option<ExperienceScorer.GapAnalysis>,
    strengths: seq<Strength>, recommendations: seq<Advice>, summary: string)

  /** `job_title or 'Not specified'`. */
  function JobTitle(title: Option<string>): (t: string)
    ensures t != []
    ensures title.Some? && title.value != [] ==> t == title.value
  {
    if title.Some? && title.value != [] then title.value else "Not specified"
  }

  /**
   * `generate_report` without its timestamp, version, contact details and rounding. The
   * required total is the matched total (exact, fuzzy and semantic) plus the missing skills, so
   * the match rate lies in [0, 100]. `format` renders the final score with one decimal.
   */
  method GenerateReport(finalScore: real, skillScore: real, semanticScore: real, experienceScore: real,
                        matchedExact: seq<string>, matchedFuzzy: seq<string>, matchedSemantic: seq<string>,
                        missing: seq<string>, extra: seq<string>, semanticSimilarity: real,
                        experience: Option<ExperienceScorer.GapAnalysis>, jobTitle: Option<string>,
                        format: real -> string)
    returns (report: Report)
    ensures report.skills.totalMatched == |matchedExact| + |matchedFuzzy| + |matchedSemantic|
    ensures report.skills.totalRequired == report.skills.totalMatched + |missing|
    ensures 0.0 <= report.skills.matchRate <= 100.0
    ensures missing == [] && report.skills.totalMatched > 0 ==> report.skills.matchRate == 100.0
    ensures report.skills.totalRequired == 0 ==> report.skills.matchRate == 0.0
    ensures report.rating == MatchScorer.Rating(finalScore)
    ensures report.interpretation == InterpretSemanticScore(semanticSimilarity)
    ensures report.jobTitle == JobTitle(jobTitle)
    ensures report.recommendations == Recommendations(finalScore, missing, experience, matchedExact, matchedFuzzy)
    ensures report.strengths == Strengths(skillScore, semanticScore, experienceScore, matchedExact, matchedFuzzy, extra)
    ensures report.summary == Join(PartTexts(SummaryParts(finalScore, format(finalScore), report.rating,
      matchedExact, matchedFuzzy, missing, experience)), " | ")
  {
    var rating := CalculateRating(finalScore);
    var recs := GenerateRecommendations(finalScore, missing, experience, matchedExact, matchedFuzzy);
    var strengths := IdentifyStrengths(skillScore, semanticScore, experienceScore, matchedExact, matchedFuzzy, extra);
    var totalMatched := |matchedExact| + |matchedFuzzy| + |matchedSemantic|;
    var totalRequired := totalMatched + |missing|;
    var skills := SkillsAnalysis(matchedExact, matchedFuzzy, matchedSemantic, missing, extra,
      totalMatched, totalRequired, MatchRate(totalMatched, totalRequired));
    var summary := GenerateSummary(finalScore, format(finalScore), rating,
      matchedExact, matchedFuzzy, missing, experience);
    report := Report(JobTitle(jobTitle), finalScore, rating, skills, InterpretSemanticScore(semanticSimilarity),
      experience, strengths, recs, summary);
  }
}
