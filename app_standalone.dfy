/**
 * `SimpleResumeAnalyzer` (app_standalone.py): the dependency-free analyzer of
 * the standalone app. It finds skills from a fixed list of eighteen names by
 * case-insensitive substring tests, scores ATS compatibility from four text
 * checks, scores the overlap of resume and job-description words, and turns
 * three checks into strengths, weaknesses and recommendations.
 *
 * Reading the file is left out: `Analyze` takes the extracted text. The e-mail
 * and phone regular expressions are left abstract: their `findall` results
 * are parameters.
 */
module AppStandalone {
  import opened TextUtil

  /** `self.common_skills`. */
  const CommonSkills: seq<string> := [
    "Python", "Java", "JavaScript", "SQL", "HTML", "CSS",
    "React", "Node.js", "Git", "Docker", "AWS", "Azure",
    "Machine Learning", "Data Analysis", "Project Management",
    "Communication", "Leadership", "Problem Solving"
  ]

  // ------------------------------------------------------------ extract_skills

  /** `skill.lower() in text.lower()`, as a test on skill names. */
  function Mentioned(text: string): string -> bool {
    s => Contains(LowerStr(text), LowerStr(s))
  }

  /** `extract_skills`: the common skills whose lowercase form occurs in the lowercased text. */
  method ExtractSkills(text: string) returns (found: seq<string>)
    ensures found == Filter(CommonSkills, Mentioned(text))
  {
    var lowered := LowerStr(text);
    found := [];
    for i := 0 to |CommonSkills|
      invariant found == Filter(CommonSkills[..i], Mentioned(text))
    {
      FilterStep(CommonSkills, Mentioned(text), i);
      if Contains(lowered, LowerStr(CommonSkills[i])) {
        found := found + [CommonSkills[i]];
      }
    }
    assert CommonSkills[..|CommonSkills|] == CommonSkills;
  }

  /**
   * The skills found are exactly the common skills mentioned case-insensitively
   * in the text, listed in the order of the common-skill list.
   */
  lemma ExtractedSkillsSpec(text: string, x: string)
    ensures x in Filter(CommonSkills, Mentioned(text)) <==> x in CommonSkills && Contains(LowerStr(text), LowerStr(x))
    ensures IsSubsequence(Filter(CommonSkills, Mentioned(text)), CommonSkills)
  {
    FilterMember(CommonSkills, Mentioned(text), x);
    FilterSubsequence(CommonSkills, Mentioned(text));
  }

  // ------------------------------------------------------- calculate_ats_score

  const SectionWords: seq<string> := ["experience", "education", "skills"]

  /** `text.count('\n')`. */
  function NewlineCount(text: string): nat {
    multiset(text)['\n']
  }

  /** The four format checks of `calculate_ats_score`, in source order. */
  predicate LongText(text: string) { |text| > 500 }

  predicate HasAt(text: string) { '@' in text }

  predicate HasSectionWord(text: string) { ContainsAny(LowerStr(text), SectionWords) }

  predicate WellStructured(text: string) { NewlineCount(text) > 10 }

  /** The ATS score: 70, plus 5, 5, 10 and 10 for the four checks, capped at 100. */
  function AtsScore(text: string): int {
    var score := 70 + (if LongText(text) then 5 else 0) + (if HasAt(text) then 5 else 0)
      + (if HasSectionWord(text) then 10 else 0) + (if WellStructured(text) then 10 else 0);
    if score < 100 then score else 100
  }

  /** `calculate_ats_score`: the base score raised by each check that passes. */
  method CalculateAtsScore(text: string) returns (score: int)
    ensures score == AtsScore(text)
  {
    score := 70;
    if |text| > 500 {
      score := score + 5;
    }
    if '@' in text {
      score := score + 5;
    }
    if ContainsAny(LowerStr(text), SectionWords) {
      score := score + 10;
    }
    if NewlineCount(text) > 10 {
      score := score + 10;
    }
    if score > 100 {
      score := 100;
    }
  }

  /**
   * The score lies in [70, 100], the cap never applies, and the extremes are
   * reached exactly when every check passes or none does.
   */
  lemma AtsScoreSpec(text: string)
    ensures 70 <= AtsScore(text) <= 100
    ensures AtsScore(text) == 100 <==> LongText(text) && HasAt(text) && HasSectionWord(text) && WellStructured(text)
    ensures AtsScore(text) == 70 <==> !LongText(text) && !HasAt(text) && !HasSectionWord(text) && !WellStructured(text)
  {
  }

  // ----------------------------------------------------- calculate_match_score

  const FillerWords: seq<string> := ["the", "a", "an", "and", "or", "but", "in", "on", "at", "to", "for"]

  /** `set(t.lower().split()) - common_words`, listed in order of first occurrence. */
  function ContentWords(t: string): (r: seq<string>) {
    Filter(Dedup(Words(LowerStr(t))), w => w !in FillerWords)
  }

  /** The job words that are also resume words: the set intersection. */
  function CommonWords(resumeText: string, jd: string): seq<string> {
    Filter(ContentWords(jd), InWords(ContentWords(resumeText)))
  }

  /**
   * `calculate_match_score`: 75 for an empty job description or one with no
   * content words, otherwise the percentage of job words found in the resume.
   */
  function MatchScore(resumeText: string, jd: string): (score: real)
    ensures 0.0 <= score <= 100.0
    ensures jd == [] ==> score == 75.0
  {
    if jd == [] then 75.0
    else
      var job := ContentWords(jd);
      if job == [] then 75.0
      else Percentage(|CommonWords(resumeText, jd)|, |job|)
  }

  /**
   * With content words in the job description, the score is 100 exactly when
   * every one of them is a resume word, and 0 exactly when none is.
   */
  lemma MatchScoreSpec(resumeText: string, jd: string)
    requires jd != [] && ContentWords(jd) != []
    ensures var job := ContentWords(jd);
      MatchScore(resumeText, jd) == 100.0 <==> forall i :: 0 <= i < |job| ==> job[i] in ContentWords(resumeText)
    ensures MatchScore(resumeText, jd) == 0.0 <==> CommonWords(resumeText, jd) == []
  {
    var job := ContentWords(jd);
    var inResume := InWords(ContentWords(resumeText));
    assert MatchScore(resumeText, jd) == Percentage(|Filter(job, inResume)|, |job|);
    FilterPercentage(job, inResume);
  }

  // ------------------------------------------------------------------ analyze

  /** The three checks of `analyze`; each yields one strength or one weakness. */
  datatype Check = SkillCount | Detail | Contact

  predicate Passes(c: Check, text: string, nSkills: nat) {
    match c
    case SkillCount => nSkills >= 5
    case Detail => |text| > 1000
    case Contact => '@' in text
  }

  function StrengthText(c: Check, nSkills: nat): string {
    match c
    case SkillCount => "Strong skill set with " + NatToString(nSkills) + " identified skills"
    case Detail => "Comprehensive resume with detailed information"
    case Contact => "Contact information included"
  }

  function WeaknessText(c: Check): string {
    match c
    case SkillCount => "Limited technical skills mentioned"
    case Detail => "Resume might be too brief"
    case Contact => "Missing contact information"
  }

  function AdviceText(c: Check): string {
    match c
    case SkillCount => "Add more technical skills to your resume"
    case Detail => "Add more details about your experience and achievements"
    case Contact => "Add email address to your resume"
  }

  /** The checks that pass, in source order. */
  function Passed(text: string, nSkills: nat): seq<Check> {
    When(Passes(SkillCount, text, nSkills), SkillCount)
    + When(Passes(Detail, text, nSkills), Detail)
    + When(Passes(Contact, text, nSkills), Contact)
  }

  /** The checks that fail, in source order. */
  function Failed(text: string, nSkills: nat): seq<Check> {
    When(!Passes(SkillCount, text, nSkills), SkillCount)
    + When(!Passes(Detail, text, nSkills), Detail)
    + When(!Passes(Contact, text, nSkills), Contact)
  }

  /** The strength of each check in `cs`, in order. */
  function StrengthTexts(cs: seq<Check>, nSkills: nat): (r: seq<string>) {
    seq(|cs|, i requires 0 <= i < |cs| => StrengthText(cs[i], nSkills))
  }

  /** The weakness of each check in `cs`, in order. */
  function WeaknessTexts(cs: seq<Check>): (r: seq<string>) {
    seq(|cs|, i requires 0 <= i < |cs| => WeaknessText(cs[i]))
  }

  /** The recommendation of each check in `cs`, in order. */
  function AdviceTexts(cs: seq<Check>): (r: seq<string>) {
    seq(|cs|, i requires 0 <= i < |cs| => AdviceText(cs[i]))
  }

  /** Every check lands in exactly one of the passed and failed lists, so three strengths and weaknesses in all. */
  lemma ChecksPartition(text: string, nSkills: nat, c: Check)
    ensures c in Passed(text, nSkills) <==> Passes(c, text, nSkills)
    ensures c in Failed(text, nSkills) <==> !Passes(c, text, nSkills)
    ensures |Passed(text, nSkills)| + |Failed(text, nSkills)| == 3
  {
  }

  /** The common skills named in the job description; none for an empty one. */
  function JobKeywords(jd: string): seq<string> {
    if jd == [] then [] else Filter(CommonSkills, Mentioned(jd))
  }

  /** The resume skills that are job keywords, or every skill when there are no job keywords. */
  function MatchedKeywords(skills: seq<string>, jobKeywords: seq<string>): seq<string> {
    if jobKeywords != [] then Filter(skills, s => s in jobKeywords) else skills
  }

  /** The job keywords not matched. */
  function MissingKeywords(jobKeywords: seq<string>, matched: seq<string>): seq<string> {
    Filter(jobKeywords, k => k !in matched)
  }

  /**
   * Without job keywords every skill counts as matched and nothing is
   * missing; otherwise the matched keywords are the skills that are job
   * keywords and the missing ones are the job keywords that are not skills.
   */
  lemma KeywordsSpec(skills: seq<string>, jobKeywords: seq<string>, x: string)
    ensures var m := MatchedKeywords(skills, jobKeywords);
      jobKeywords == [] ==> m == skills && MissingKeywords(jobKeywords, m) == []
    ensures var m := MatchedKeywords(skills, jobKeywords);
      jobKeywords != [] ==>
        (x in m <==> x in skills && x in jobKeywords)
        && (x in MissingKeywords(jobKeywords, m) <==> x in jobKeywords && x !in skills)
  {
    var m := MatchedKeywords(skills, jobKeywords);
    if jobKeywords != [] {
      FilterMember(skills, s => s in jobKeywords, x);
      FilterMember(jobKeywords, k => k !in m, x);
    }
  }

  /** `findall(...)[0] if ... else None`: the first match of a pattern, if any. */
  function FirstOf(found: seq<string>): (r: Option<string>)
    ensures r.None? <==> found == []
    ensures r.Some? ==> r.value in found && r.value == found[0]
  {
    if found == [] then None else Some(found[0])
  }

  /**
   * The three checks of `analyze`, in source order: each passed check adds its
   * strength, each failed one its weakness and its recommendation.
   */
  method Assess(text: string, n: nat) returns (passed: seq<Check>, failed: seq<Check>)
    ensures passed == Passed(text, n) && failed == Failed(text, n)
  {
    passed, failed := [], [];
    if n >= 5 {
      passed := passed + [SkillCount];
    } else {
      failed := failed + [SkillCount];
    }
    assert passed == When(Passes(SkillCount, text, n), SkillCount);
    assert failed == When(!Passes(SkillCount, text, n), SkillCount);
    if |text| > 1000 {
      passed := passed + [Detail];
    } else {
      failed := failed + [Detail];
    }
    assert passed == When(Passes(SkillCount, text, n), SkillCount) + When(Passes(Detail, text, n), Detail);
    assert failed == When(!Passes(SkillCount, text, n), SkillCount) + When(!Passes(Detail, text, n), Detail);
    if '@' in text {
      passed := passed + [Contact];
    } else {
      failed := failed + [Contact];
    }
  }

  datatype Analysis = Analysis(
    matchScore: real, atsScore: int,
    matchedKeywords: seq<string>, missingKeywords: seq<string>,
    strengths: seq<string>, weaknesses: seq<string>, recommendations: seq<string>,
    skills: seq<string>, email: Option<string>, phone: Option<string>)

  /**
   * `analyze` on the extracted text: nothing for an empty text; otherwise the
   * skills, both scores, the three checks and the keyword lists. `emails` and
   * `phones` are the `findall` results of the two contact patterns.
   */
  method Analyze(text: string, jd: Option<string>, emails: seq<string>, phones: seq<string>) returns (r: Option<Analysis>)
    ensures r.None? <==> text == []
    ensures r.Some? ==>
      var a := r.value;
      var n := |a.skills|;
      && a.skills == Filter(CommonSkills, Mentioned(text))
      && a.atsScore == AtsScore(text)
      && a.matchScore == MatchScore(text, JdText(jd))
      && a.strengths == StrengthTexts(Passed(text, n), n)
      && a.weaknesses == WeaknessTexts(Failed(text, n))
      && a.recommendations == AdviceTexts(Failed(text, n))
      && a.matchedKeywords == MatchedKeywords(a.skills, JobKeywords(JdText(jd)))
      && a.missingKeywords == MissingKeywords(JobKeywords(JdText(jd)), a.matchedKeywords)
      && a.email == FirstOf(emails) && a.phone == FirstOf(phones)
  {
    if text == [] {
      return None;
    }
    var skills := ExtractSkills(text);
    var atsScore := CalculateAtsScore(text);
    var matchScore := MatchScore(text, JdText(jd));
    var n := |skills|;

    var passed, failed := Assess(text, n);
    var strengths := StrengthTexts(passed, n);
    var weaknesses := WeaknessTexts(failed);
    var recommendations := AdviceTexts(failed);

    var jobKeywords := JobKeywords(JdText(jd));
    var matched := MatchedKeywords(skills, jobKeywords);
    var missing := MissingKeywords(jobKeywords, matched);
    r := Some(Analysis(matchScore, atsScore, matched, missing, strengths, weaknesses, recommendations,
      skills, FirstOf(emails), FirstOf(phones)));
  }
}
