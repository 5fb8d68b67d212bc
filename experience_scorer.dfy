/**
 * `ExperienceScorer` (src/scoring/experience_scorer.py): the experience score table used by
 * the pipeline, the gap analysis, year extraction, total experience, career progression and
 * title relevance. The regular expressions that capture year counts are not modelled: the
 * numbers each pattern captures are given as input.
 */
module ExperienceScorer {
  import opened TextUtil
  import Sorting

  // ---------------------------------------------------------------------------------------
  // calculate_experience_score

  /** The score for a candidate below the requirement, as a function of `candidate / required`. */
  function BelowByRatio(ratio: real): real {
    if ratio >= 0.8 then 80.0 + (ratio - 0.8) * 50.0
    else if ratio >= 0.6 then 60.0 + (ratio - 0.6) * 100.0
    else if ratio >= 0.4 then 40.0 + (ratio - 0.4) * 100.0
    else ratio * 100.0
  }

  /**
   * `calculate_experience_score`: 70 when no requirement is given (None or 0), 50 when the
   * candidate's years are unknown, 100/95/85 at or above the requirement, else the band of the ratio.
   */
  function ExperienceScore(candidate: Option<int>, required: Option<int>): (s: real)
    ensures required.None? || required == Some(0) ==> s == 70.0
    ensures required.Some? && required.value != 0 && candidate.None? ==> s == 50.0
  {
    if required.None? || required.value == 0 then 70.0
    else if candidate.None? then 50.0
    else
      var c, r := candidate.value, required.value;
      if c >= r then
        if c as real <= r as real * 1.5 then 100.0
        else if c as real <= r as real * 2.0 then 95.0
        else 85.0
      else BelowByRatio(c as real / r as real)
  }

  /**
   * Below the requirement the bands meet at ratios 0.4, 0.6 and 0.8 (scores 40, 60, 80), so
   * the score rises with the ratio and stays in [0, 90).
   */
  lemma BelowByRatioMonotone(a: real, b: real)
    requires 0.0 <= a <= b < 1.0
    ensures 0.0 <= BelowByRatio(a) <= BelowByRatio(b) < 90.0
  {
  }

  /** Scores for a candidate who meets the requirement, and the [0, 90) range for one who does not. */
  lemma ExperienceScoreBands(c: nat, r: nat)
    requires r > 0
    ensures c >= r && c as real <= 1.5 * r as real ==> ExperienceScore(Some(c), Some(r)) == 100.0
    ensures c as real > 1.5 * r as real && c <= 2 * r ==> ExperienceScore(Some(c), Some(r)) == 95.0
    ensures c > 2 * r ==> ExperienceScore(Some(c), Some(r)) == 85.0
    ensures c < r ==> 0.0 <= ExperienceScore(Some(c), Some(r)) < 90.0
  {
    if c < r {
      var q := c as real / r as real;
      DivBelowOne(c as real, r as real);
      BelowByRatioMonotone(q, q);
    }
  }

  /** More years never lower the score until the candidate has more than one and a half times the requirement. */
  lemma ExperienceScoreMonotone(c1: nat, c2: nat, r: nat)
    requires r > 0 && c1 <= c2 && c2 as real <= 1.5 * r as real
    ensures ExperienceScore(Some(c1), Some(r)) <= ExperienceScore(Some(c2), Some(r))
  {
    ExperienceScoreBands(c1, r);
    ExperienceScoreBands(c2, r);
    if c2 < r {
      var rr := r as real;
      DivMonotone(c1 as real, c2 as real, rr);
      DivBelowOne(c1 as real, rr);
      DivBelowOne(c2 as real, rr);
      BelowByRatioMonotone(c1 as real / rr, c2 as real / rr);
    }
  }

  // ---------------------------------------------------------------------------------------
  // analyze_experience_gap

  datatype GapAnalysis = GapAnalysis(
    candidateExperience: int, requiredExperience: int, gap: int, gapPercentage: real,
    status: string, message: string, recommendation: string)

  function AbsInt(x: int): nat {
    if x < 0 then -x else x
  }

  function GapPart(c: int, r: int): string {
    " (" + IntToString(c) + " vs " + IntToString(r) + " years, " + IntToString(AbsInt(r - c)) + " year gap)"
  }

  /** The status once both values are known and the requirement is not 0. */
  function GapStatus(c: int, r: int): string {
    if c >= r then
      if c as real <= r as real * 1.5 then "meets_requirement"
      else if c as real <= r as real * 2.0 then "exceeds_requirement"
      else "highly_experienced"
    else
      var ratio := if r > 0 then c as real / r as real else 0.0;
      if ratio >= 0.8 then "close_match"
      else if ratio >= 0.6 then "moderate_gap"
      else if ratio >= 0.4 then "significant_gap"
      else "large_gap"
  }

  /** The message and recommendation that go with each status. */
  function GapMessage(status: string, c: int, r: int): (string, string) {
    if status == "meets_requirement" then
      ("Candidate meets experience requirement (" + IntToString(c) + " years)",
       "Strong match - emphasize relevant achievements")
    else if status == "exceeds_requirement" then
      ("Candidate exceeds requirement (" + IntToString(c) + " vs " + IntToString(r) + " years)",
       "Highlight leadership and mentoring capabilities")
    else if status == "highly_experienced" then
      ("Candidate is significantly more experienced (" + IntToString(c) + " vs " + IntToString(r) + " years)",
       "May be overqualified - emphasize continued growth motivation")
    else if status == "close_match" then
      ("Candidate is close to requirement" + GapPart(c, r), "Emphasize rapid learning and relevant project impact")
    else if status == "moderate_gap" then
      ("Moderate experience gap" + GapPart(c, r), "Highlight transferable skills and intensive learning experiences")
    else if status == "significant_gap" then
      ("Significant experience gap" + GapPart(c, r), "Focus on relevant certifications, bootcamps, and project portfolio")
    else
      ("Large experience gap" + GapPart(c, r), "Consider entry-level positions or intensive training programs")
  }

  /** `analyze_experience_gap`. */
  function AnalyzeExperienceGap(candidate: Option<int>, required: Option<int>): GapAnalysis {
    var ce := if candidate.Some? then candidate.value else 0;
    var re := if required.Some? then required.value else 0;
    if required.None? || required.value == 0 then
      GapAnalysis(ce, re, 0, 0.0, "no_requirement", "No specific experience requirement mentioned",
        "Highlight relevant skills and projects")
    else if candidate.None? then
      GapAnalysis(ce, re, 0, 0.0, "not_found", "Experience not clearly mentioned in resume",
        "Add clear experience timeline to resume")
    else
      var c, r := candidate.value, required.value;
      var gap := r - c;
      var status := GapStatus(c, r);
      var m := GapMessage(status, c, r);
      GapAnalysis(ce, re, gap, if c > 0 then gap as real / r as real * 100.0 else 0.0, status, m.0, m.1)
  }

  /**
   * No requirement and unknown candidate years return early; otherwise the gap is
   * `required - candidate`, and its percentage stays 0.0 unless the candidate has years.
   */
  lemma AnalyzeExperienceGapSpec(candidate: Option<int>, required: Option<int>)
    ensures var a := AnalyzeExperienceGap(candidate, required);
      && a.candidateExperience == (if candidate.Some? then candidate.value else 0)
      && a.requiredExperience == (if required.Some? then required.value else 0)
      && (required.None? || required == Some(0) ==> a.status == "no_requirement" && a.gap == 0 && a.gapPercentage == 0.0)
      && (required.Some? && required.value != 0 && candidate.None? ==> a.status == "not_found" && a.gap == 0)
      && (required.Some? && required.value != 0 && candidate.Some? ==>
            a.status == GapStatus(candidate.value, required.value) && a.gap == required.value - candidate.value)
      && (a.gapPercentage != 0.0 ==> candidate.Some? && candidate.value > 0)
  {
  }

  /**
   * The gap status uses the same thresholds as the score: with a positive requirement each of
   * the six statuses corresponds to one band of `calculate_experience_score`.
   */
  lemma GapStatusMatchesScore(c: nat, r: nat)
    requires r > 0
    ensures var status, s := GapStatus(c, r), ExperienceScore(Some(c), Some(r));
      && (status == "meets_requirement" <==> s == 100.0)
      && (status == "exceeds_requirement" <==> s == 95.0)
      && (status == "highly_experienced" <==> c >= r && s == 85.0)
      && (status == "close_match" <==> c < r && 80.0 <= s)
      && (status == "moderate_gap" <==> c < r && 60.0 <= s < 80.0)
      && (status == "significant_gap" <==> c < r && 40.0 <= s < 60.0)
      && (status == "large_gap" <==> c < r && s < 40.0)
  {
    if c < r {
      var q := c as real / r as real;
      DivBelowOne(c as real, r as real);
      BelowByRatioMonotone(q, q);
      assert ExperienceScore(Some(c), Some(r)) == BelowByRatio(q);
    }
  }

  // ---------------------------------------------------------------------------------------
  // extract_years_from_text

  /** `self.seniority_levels`, in dict order. */
  const SeniorityLevels: seq<(string, (nat, nat))> := [
    ("entry-level", (0, 2)), ("junior", (0, 2)), ("mid-level", (2, 5)), ("intermediate", (2, 5)),
    ("senior", (5, 10)), ("lead", (7, 15)), ("principal", (10, 20)), ("staff", (8, 15)),
    ("architect", (10, 20)), ("director", (10, 20)), ("manager", (5, 15))]

  /** The index of the first year pattern that matched, or `|found|` if none did. */
  function FirstNonEmpty(found: seq<seq<nat>>): (k: nat)
    ensures k <= |found|
    ensures forall j :: 0 <= j < k ==> found[j] == []
    ensures k < |found| ==> found[k] != []
  {
    if found == [] then 0 else if found[0] != [] then 0 else 1 + FirstNonEmpty(found[1..])
  }

  /** The index of the first seniority level named in the lowercased text, or the table's length. */
  function FirstLevel(lowered: string, levels: seq<(string, (nat, nat))>): (k: nat)
    ensures k <= |levels|
    ensures forall j :: 0 <= j < k ==> !Contains(lowered, levels[j].0)
    ensures k < |levels| ==> Contains(lowered, levels[k].0)
  {
    if levels == [] then 0 else if Contains(lowered, levels[0].0) then 0 else 1 + FirstLevel(lowered, levels[1..])
  }

  /**
   * `extract_years_from_text`. `found[k]` holds the numbers captured by the `k`-th year pattern
   * on the lowercased text (`re.findall`). None for empty text; otherwise the largest number of
   * the first pattern that matched; otherwise the middle of the first seniority level named in
   * the text; otherwise None.
   */
  function YearsFromText(text: string, found: seq<seq<nat>>): (y: Option<nat>)
    ensures text == [] ==> y.None?
    ensures text != [] && FirstNonEmpty(found) < |found| ==>
      && y.Some? && y.value in found[FirstNonEmpty(found)]
      && forall v :: v in found[FirstNonEmpty(found)] ==> v <= y.value
    ensures text != [] && FirstNonEmpty(found) == |found| ==>
      (y.Some? <==> exists j :: 0 <= j < |SeniorityLevels| && Contains(LowerStr(text), SeniorityLevels[j].0))
    ensures text != [] && FirstNonEmpty(found) == |found| && y.Some? ==>
      exists l :: 0 <= l < |SeniorityLevels|
        && Contains(LowerStr(text), SeniorityLevels[l].0)
        && (forall j :: 0 <= j < l ==> !Contains(LowerStr(text), SeniorityLevels[j].0))
        && y.value == (SeniorityLevels[l].1.0 + SeniorityLevels[l].1.1) / 2
  {
    if text == [] then None
    else
      var k := FirstNonEmpty(found);
      if k < |found| then Some(MaxOf(found[k])) else SeniorityYears(LowerStr(text))
  }

  /** The middle of the range of the first seniority level named in the lowercased text, if any. */
  function SeniorityYears(lowered: string): Option<nat> {
    var l := FirstLevel(lowered, SeniorityLevels);
    if l < |SeniorityLevels| then Some((SeniorityLevels[l].1.0 + SeniorityLevels[l].1.1) / 2) else None
  }

  /** `extract_years_from_text`: tries the patterns in order, then the seniority levels in dict order. */
  method ExtractYearsFromText(text: string, found: seq<seq<nat>>) returns (y: Option<nat>)
    ensures y == YearsFromText(text, found)
  {
    if text == [] {
      return None;
    }
    var lowered := LowerStr(text);
    var k := 0;
    while k < |found|
      invariant k <= |found|
      invariant forall j :: 0 <= j < k ==> found[j] == []
    {
      if found[k] != [] {
        return Some(MaxOf(found[k]));
      }
      k := k + 1;
    }
    y := FindSeniority(lowered);
  }

  /** The seniority loop of `extract_years_from_text`, in dict order. */
  method FindSeniority(lowered: string) returns (y: Option<nat>)
    ensures y == SeniorityYears(lowered)
  {
    var l := 0;
    while l < |SeniorityLevels|
      invariant l <= |SeniorityLevels|
      invariant forall j :: 0 <= j < l ==> !Contains(lowered, SeniorityLevels[j].0)
    {
      var (level, range) := SeniorityLevels[l];
      if Contains(lowered, level) {
        return Some((range.0 + range.1) / 2);
      }
      l := l + 1;
    }
    return None;
  }

  // ---------------------------------------------------------------------------------------
  // Work history: total experience, career progression, relevance

  /** One entry of the work history: the fields the scorer reads. */
  datatype WorkEntry = WorkEntry(jobTitle: string, startDate: string, durationYears: real)

  /** `calculate_total_experience`: the sum of the durations, 0.0 for no history. */
  function TotalExperience(history: seq<WorkEntry>): real {
    if history == [] then 0.0 else TotalExperience(history[..|history| - 1]) + history[|history| - 1].durationYears
  }

  /** The total grows by exactly each added entry, and no entry outweighs a total of non-negative durations. */
  lemma {:induction false} TotalExperienceSpec(history: seq<WorkEntry>, more: seq<WorkEntry>)
    ensures TotalExperience(history + more) == TotalExperience(history) + TotalExperience(more)
    decreases |more|
  {
    if more == [] {
      assert history + more == history;
    } else {
      var init := more[..|more| - 1];
      assert (history + more)[..|history + more| - 1] == history + init;
      TotalExperienceSpec(history, init);
    }
  }

  lemma {:induction false} TotalExperienceNonNegative(history: seq<WorkEntry>, i: nat)
    requires forall k :: 0 <= k < |history| ==> history[k].durationYears >= 0.0
    requires i < |history|
    ensures history[i].durationYears <= TotalExperience(history)
    decreases |history|
  {
    if i < |history| - 1 {
      TotalExperienceNonNegative(history[..|history| - 1], i);
      TotalExperienceAtLeastZero(history[..|history| - 1]);
    } else {
      TotalExperienceAtLeastZero(history[..|history| - 1]);
    }
  }

  lemma {:induction false} TotalExperienceAtLeastZero(history: seq<WorkEntry>)
    requires forall k :: 0 <= k < |history| ==> history[k].durationYears >= 0.0
    ensures TotalExperience(history) >= 0.0
    decreases |history|
  {
    if history != [] {
      TotalExperienceAtLeastZero(history[..|history| - 1]);
    }
  }

  const JuniorTerms: seq<string> := ["junior", "entry", "intern", "associate", "assistant"]
  const SeniorTerms: seq<string> := ["senior", "sr.", "lead", "principal", "staff"]
  const LeadershipTerms: seq<string> := ["manager", "director", "vp", "head", "chief"]
  const ExpertTerms: seq<string> := ["architect", "expert", "specialist"]

  /** The seniority level 1 (junior) to 4 (leadership) read off a job title; the first matching rule wins. */
  function SeniorityLevel(title: string): (level: int)
    ensures 1 <= level <= 4
  {
    var t := LowerStr(title);
    if ContainsAny(t, JuniorTerms) then 1
    else if ContainsAny(t, SeniorTerms) then 3
    else if ContainsAny(t, LeadershipTerms) then 4
    else if ContainsAny(t, ExpertTerms) then 3
    else 2
  }

  /** `sorted(work_history, key=start_date)`: ascending start date, ties in input order. */
  function SortedHistory(history: seq<WorkEntry>): (r: seq<WorkEntry>)
    ensures |r| == |history|
  {
    Sorting.SortBy(history, (a: WorkEntry, b: WorkEntry) => StrLess(a.startDate, b.startDate))
  }

  /** The history is only reordered, and into non-decreasing start-date order. */
  lemma SortedHistorySpec(history: seq<WorkEntry>)
    ensures multiset(SortedHistory(history)) == multiset(history)
    ensures forall i :: 0 < i < |history| ==> !StrLess(SortedHistory(history)[i].startDate, SortedHistory(history)[i - 1].startDate)
  {
    var before := (a: WorkEntry, b: WorkEntry) => StrLess(a.startDate, b.startDate);
    forall a: WorkEntry, b: WorkEntry ensures before(a, b) ==> !before(b, a) {
      StrLessAsymmetric(a.startDate, b.startDate);
    }
    Sorting.SortByPermutes(history, before);
    Sorting.SortByInOrder(history, before);
  }

  /** Each level is at least the one before it. */
  predicate NonDecreasing(levels: seq<int>) {
    forall i :: 0 < i < |levels| ==> levels[i - 1] <= levels[i]
  }

  /** The progression types of `identify_career_progression`. */
  datatype Trend = SingleRole | Upward | GenerallyUpward | Lateral | Mixed

  /** The `progression` string and `message` of each type. */
  function TrendText(t: Trend): (string, string) {
    match t
    case SingleRole => ("single_role", "Limited career history available")
    case Upward => ("upward", "Consistent upward career progression")
    case GenerallyUpward => ("generally_upward", "Overall positive career trajectory with some lateral moves")
    case Lateral => ("lateral", "Lateral career moves at similar seniority levels")
    case Mixed => ("mixed", "Mixed career progression pattern")
  }

  /** The progression type of a trajectory of levels; the first rule that applies wins. */
  function Classify(levels: seq<int>): Trend {
    if |levels| < 2 then SingleRole
    else if NonDecreasing(levels) then Upward
    else if levels[|levels| - 1] > levels[0] then GenerallyUpward
    else if levels[|levels| - 1] == levels[0] then Lateral
    else Mixed
  }

  lemma {:induction false} NonDecreasingEnds(levels: seq<int>, j: nat)
    requires NonDecreasing(levels) && j < |levels|
    ensures levels[0] <= levels[j]
    decreases j
  {
    if j > 0 {
      NonDecreasingEnds(levels, j - 1);
    }
  }

  /** A single entry is a single role, and an upward trajectory is exactly a non-decreasing one, never ending below its start. */
  lemma ClassifySpec(levels: seq<int>)
    ensures Classify(levels) == SingleRole <==> |levels| < 2
    ensures Classify(levels) == Upward <==> |levels| >= 2 && NonDecreasing(levels)
    ensures Classify(levels) == Upward ==> levels[0] <= levels[|levels| - 1]
  {
    if |levels| >= 2 && NonDecreasing(levels) {
      NonDecreasingEnds(levels, |levels| - 1);
    }
  }

  /**
   * A trajectory of two or more entries that is not upward has a step down; it is 'mixed'
   * exactly when it ends below its start.
   */
  lemma ClassifyNotUpward(levels: seq<int>)
    requires |levels| >= 2 && Classify(levels) != Upward
    ensures exists i :: 0 < i < |levels| && levels[i] < levels[i - 1]
    ensures Classify(levels) == Mixed <==> levels[|levels| - 1] < levels[0]
  {
  }

  datatype CareerProgression = CareerProgression(
    progression: string, message: string, trajectory: seq<int>, positionsCount: nat, averageTenure: real)

  /** The level of every entry of `sorted`, in order. */
  function Trajectory(sorted: seq<WorkEntry>): (t: seq<int>)
    ensures |t| == |sorted|
    ensures forall i :: 0 <= i < |t| ==> t[i] == SeniorityLevel(sorted[i].jobTitle)
  {
    seq(|sorted|, i requires 0 <= i < |sorted| => SeniorityLevel(sorted[i].jobTitle))
  }

  /** `identify_career_progression`. */
  function CareerProgressionOf(history: seq<WorkEntry>): (p: CareerProgression)
    ensures history == [] ==> p.progression == "unknown" && p.trajectory == []
    ensures |p.trajectory| == |history| && p.positionsCount == |history|
    ensures forall i :: 0 <= i < |p.trajectory| ==> 1 <= p.trajectory[i] <= 4
    ensures history != [] ==> p.progression == TrendText(Classify(p.trajectory)).0
  {
    if history == [] then CareerProgression("unknown", "No work history found", [], 0, 0.0)
    else
      var sorted := SortedHistory(history);
      var levels := Trajectory(sorted);
      var c := TrendText(Classify(levels));
      CareerProgression(c.0, c.1, levels, |sorted|, TotalExperience(sorted) / |sorted| as real)
  }

  /** `identify_career_progression`: sorts the history, then appends one level per entry. */
  method IdentifyCareerProgression(history: seq<WorkEntry>) returns (p: CareerProgression)
    ensures p == CareerProgressionOf(history)
  {
    if history == [] {
      return CareerProgression("unknown", "No work history found", [], 0, 0.0);
    }
    var sorted := SortedHistory(history);
    var levels: seq<int> := [];
    var i := 0;
    while i < |sorted|
      invariant i <= |sorted|
      invariant levels == Trajectory(sorted[..i])
    {
      levels := levels + [SeniorityLevel(sorted[i].jobTitle)];
      i := i + 1;
    }
    assert sorted[..i] == sorted;
    var c := TrendText(Classify(levels));
    p := CareerProgression(c.0, c.1, levels, |sorted|, TotalExperience(sorted) / |sorted| as real);
  }

  /** The words of the lowercased target title longer than three characters. */
  function SignificantWords(ws: seq<string>): (r: seq<string>)
    ensures forall i :: 0 <= i < |r| ==> |r[i]| > 3 && r[i] in ws
  {
    if ws == [] then []
    else
      var init := SignificantWords(ws[..|ws| - 1]);
      if |ws[|ws| - 1]| > 3 then init + [ws[|ws| - 1]] else init
  }

  lemma {:induction false} SignificantWordsMember(ws: seq<string>, w: string)
    ensures w in SignificantWords(ws) <==> w in ws && |w| > 3
    decreases |ws|
  {
    if ws != [] {
      SignificantWordsMember(ws[..|ws| - 1], w);
      assert ws == ws[..|ws| - 1] + [ws[|ws| - 1]];
    }
  }

  /** A position is relevant when its title contains a word of the target title longer than three characters. */
  predicate TitleMatch(title: string, jobTitle: string) {
    ContainsAny(LowerStr(title), SignificantWords(Words(LowerStr(jobTitle))))
  }

  /** Short words such as "the" or "and" never make a position relevant. */
  lemma TitleMatchSpec(title: string, jobTitle: string)
    ensures TitleMatch(title, jobTitle) <==>
      exists w :: w in Words(LowerStr(jobTitle)) && |w| > 3 && Contains(LowerStr(title), w)
  {
    var ws := Words(LowerStr(jobTitle));
    var sig := SignificantWords(ws);
    if TitleMatch(title, jobTitle) {
      var k :| 0 <= k < |sig| && Contains(LowerStr(title), sig[k]);
      SignificantWordsMember(ws, sig[k]);
    }
    if exists w :: w in ws && |w| > 3 && Contains(LowerStr(title), w) {
      var w :| w in ws && |w| > 3 && Contains(LowerStr(title), w);
      SignificantWordsMember(ws, w);
      var k :| 0 <= k < |sig| && sig[k] == w;
    }
  }

  function RelevantCount(history: seq<WorkEntry>, jobTitle: string): (n: nat)
    ensures n <= |history|
  {
    if history == [] then 0
    else RelevantCount(history[..|history| - 1], jobTitle) + (if TitleMatch(history[|history| - 1].jobTitle, jobTitle) then 1 else 0)
  }

  datatype Relevance = Relevance(relevanceScore: real, relevantPositions: nat, totalPositions: nat, message: string)

  /** `score_experience_relevance`: the percentage of positions whose title is relevant. */
  function RelevanceOf(history: seq<WorkEntry>, jobTitle: string): (r: Relevance)
    ensures 0.0 <= r.relevanceScore <= 100.0
    ensures r.relevantPositions <= r.totalPositions == |history|
    ensures r.relevanceScore == Percentage(r.relevantPositions, |history|)
  {
    if history == [] then Relevance(0.0, 0, 0, "No work history found")
    else
      var n := RelevantCount(history, jobTitle);
      Relevance(Percentage(n, |history|), n, |history|,
        NatToString(n) + " out of " + NatToString(|history|) + " positions appear relevant")
  }

  /** `score_experience_relevance`: counts relevant positions in a loop. */
  method ScoreExperienceRelevance(history: seq<WorkEntry>, jobTitle: string) returns (r: Relevance)
    ensures r == RelevanceOf(history, jobTitle)
  {
    if history == [] {
      return Relevance(0.0, 0, 0, "No work history found");
    }
    var count := 0;
    var i := 0;
    while i < |history|
      invariant i <= |history|
      invariant count == RelevantCount(history[..i], jobTitle)
    {
      if TitleMatch(history[i].jobTitle, jobTitle) {
        count := count + 1;
      }
      assert history[..i + 1][..i] == history[..i];
      i := i + 1;
    }
    assert history[..i] == history;
    r := Relevance(Percentage(count, |history|), count, |history|,
      NatToString(count) + " out of " + NatToString(|history|) + " positions appear relevant");
  }
}
