/**
 * `AdvancedResumeAnalyzer` (app_multi_resume.py): the analyzer of the
 * multi-resume comparison app. It tokenises the lowercased text with the
 * pattern `\b[a-zA-Z][a-zA-Z0-9+#./-]*\b`, keeps the unigrams, bigrams and
 * trigrams that are technical keywords, cuts a 500-character window after
 * every section-header word, scores the overlap of resume and job-description
 * terms, scores ATS compatibility from seven checks, and turns the scores into
 * strengths, weaknesses and recommendations.
 *
 * Reading the file is left out: `AnalyzeResume` takes the extracted text. The
 * years, e-mail and phone regular expressions are left abstract: the numbers
 * the years pattern captures and whether the contact patterns match are
 * parameters.
 */
module MultiResume {
  import opened TextUtil
  import Taxonomy

  /** `self.technical_keywords`. */
  const TechnicalKeywords: seq<string> := [
    "python", "java", "javascript", "c++", "c#", "php", "ruby", "go", "rust", "swift",
    "react", "angular", "vue", "node.js", "django", "flask", "spring", "express",
    "sql", "mongodb", "postgresql", "mysql", "redis", "elasticsearch",
    "aws", "azure", "gcp", "docker", "kubernetes", "jenkins", "git", "ci/cd",
    "machine learning", "deep learning", "ai", "data science", "nlp", "computer vision",
    "agile", "scrum", "devops", "microservices", "rest", "graphql", "api"
  ]

  // ---------------------------------------------------------------- tokeniser

  /** A character of the class `[a-zA-Z0-9+#./-]`. */
  predicate IsTermChar(c: char) {
    IsAsciiLetter(c) || IsDigit(c) || c == '+' || c == '#' || c == '.' || c == '/' || c == '-'
  }

  /** What the pattern can return: an ASCII letter followed by term characters. */
  predicate IsTerm(w: string) {
    w != [] && IsAsciiLetter(w[0]) && forall k :: 0 <= k < |w| ==> IsTermChar(w[k])
  }

  /** The end of the longest run of term characters starting at `i`. */
  function RunEnd(t: string, i: nat): (e: nat)
    requires i <= |t|
    ensures i <= e <= |t|
    ensures forall k :: i <= k < e ==> IsTermChar(t[k])
    ensures e < |t| ==> !IsTermChar(t[e])
    decreases |t| - i
  {
    if i == |t| || !IsTermChar(t[i]) then i else RunEnd(t, i + 1)
  }

  /**
   * The greedy `*` followed by `\b`: the largest end in `(i, e]` where `\b`
   * holds, or nothing when the star cannot back off to a boundary.
   */
  function BackOff(t: string, i: nat, e: nat): (r: Option<nat>)
    requires i < e <= |t|
    ensures r.Some? ==> i < r.value <= e && Taxonomy.IsBoundary(t, r.value)
    ensures r.Some? ==> forall k :: r.value < k <= e ==> !Taxonomy.IsBoundary(t, k)
    ensures r.None? ==> forall k :: i < k <= e ==> !Taxonomy.IsBoundary(t, k)
    decreases e
  {
    if Taxonomy.IsBoundary(t, e) then Some(e)
    else if e == i + 1 then None
    else BackOff(t, i, e - 1)
  }

  /** The end of the match of the term pattern that starts at `i`, if one does. */
  function TermAt(t: string, i: nat): (r: Option<nat>)
    requires i < |t|
    ensures r.Some? ==> i < r.value <= |t| && IsTerm(t[i..r.value])
  {
    if IsAsciiLetter(t[i]) && Taxonomy.IsBoundary(t, i) then
      var e := RunEnd(t, i + 1);
      var r := BackOff(t, i, e);
      assert r.Some? ==> forall k :: 0 <= k < r.value - i ==> t[i..r.value][k] == t[i + k];
      r
    else None
  }

  /** `re.findall` of the term pattern from position `i`: each search resumes where the last match ended. */
  function TermsFrom(t: string, i: nat): (ts: seq<string>)
    requires i <= |t|
    decreases |t| - i
  {
    if i == |t| then []
    else
      match TermAt(t, i)
      case Some(e) => [t[i..e]] + TermsFrom(t, e)
      case None => TermsFrom(t, i + 1)
  }

  /** `re.findall(r'\b[a-zA-Z][a-zA-Z0-9+#./-]*\b', t)`. */
  function Terms(t: string): seq<string> {
    TermsFrom(t, 0)
  }

  /** Every token starts with an ASCII letter and consists of term characters. */
  lemma {:induction false} TermsAreTerms(t: string, i: nat)
    requires i <= |t|
    ensures forall k :: 0 <= k < |TermsFrom(t, i)| ==> IsTerm(TermsFrom(t, i)[k])
    decreases |t| - i
  {
    if i < |t| {
      match TermAt(t, i)
      case Some(e) => TermsAreTerms(t, e);
      case None => TermsAreTerms(t, i + 1);
    }
  }

  // --------------------------------------------------- extract_dynamic_skills

  /** `f"{words[i]} {words[i+1]}"` for every adjacent pair. */
  function Bigrams(ws: seq<string>): (r: seq<string>)
    ensures |ws| >= 2 ==> |r| == |ws| - 1
  {
    if |ws| < 2 then []
    else seq(|ws| - 1, i requires 0 <= i < |ws| - 1 => ws[i] + " " + ws[i + 1])
  }

  /** `f"{words[i]} {words[i+1]} {words[i+2]}"` for every adjacent triple. */
  function Trigrams(ws: seq<string>): (r: seq<string>)
    ensures |ws| >= 3 ==> |r| == |ws| - 2
  {
    if |ws| < 3 then []
    else seq(|ws| - 2, i requires 0 <= i < |ws| - 2 => ws[i] + " " + ws[i + 1] + " " + ws[i + 2])
  }

  /** `words + bigrams + trigrams`. */
  function Ngrams(ws: seq<string>): seq<string> {
    ws + Bigrams(ws) + Trigrams(ws)
  }

  /** `set(words + bigrams + trigrams)` of the lowercased text, in order of first occurrence. */
  function AllTerms(text: string): seq<string> {
    Dedup(Ngrams(Terms(LowerStr(text))))
  }

  /** `term in self.technical_keywords`, as a test. */
  function IsTechnical(): string -> bool {
    InWords(TechnicalKeywords)
  }

  /** The technical keywords among the n-grams of the text, each once. */
  function DynamicSkills(text: string): seq<string> {
    Filter(AllTerms(text), IsTechnical())
  }

  /**
   * `extract_dynamic_skills`: the technical keywords among the n-grams, and
   * the largest number of years the years pattern captured (`yearsFound`).
   */
  method ExtractDynamicSkills(text: string, yearsFound: seq<nat>) returns (skills: seq<string>, years: nat)
    ensures skills == DynamicSkills(text)
    ensures years == YearsOf(yearsFound)
  {
    var allTerms := AllTerms(text);
    skills := [];
    for i := 0 to |allTerms|
      invariant skills == Filter(allTerms[..i], IsTechnical())
    {
      FilterStep(allTerms, IsTechnical(), i);
      if allTerms[i] in TechnicalKeywords {
        skills := skills + [allTerms[i]];
      }
    }
    assert allTerms[..|allTerms|] == allTerms;
    years := YearsOf(yearsFound);
  }

  /**
   * A skill is found exactly when it is a technical keyword and one of the
   * unigrams, bigrams or trigrams of the lowercased tokens; none is found twice.
   */
  lemma DynamicSkillsSpec(text: string, x: string)
    ensures var ws := Terms(LowerStr(text));
      x in DynamicSkills(text) <==> x in TechnicalKeywords && (x in ws || x in Bigrams(ws) || x in Trigrams(ws))
    ensures NoDups(DynamicSkills(text))
  {
    var grams := Ngrams(Terms(LowerStr(text)));
    FilterMember(AllTerms(text), IsTechnical(), x);
    DedupMember(grams, x);
    DedupNoDups(grams);
    FilterNoDups(AllTerms(text), IsTechnical());
  }

  // --------------------------------------------------------- extract_sections

  /**
   * The header patterns of `section_patterns` as lists of literal
   * alternatives, tried in order at each position; `s?` becomes the longer
   * word followed by the shorter one, the order in which the greedy `?` tries them.
   */
  const EducationHeaders: seq<string> := ["education", "academic", "qualification", "degree"]
  const ExperienceHeaders: seq<string> := ["experience", "employment", "work history", "professional"]
  const SkillsHeaders: seq<string> := ["skills", "technical", "competencies", "expertise"]
  const ProjectsHeaders: seq<string> := ["projects", "portfolio"]
  const CertificationsHeaders: seq<string> :=
    ["certifications", "certification", "licenses", "license", "awards", "award"]

  /** `section_patterns`, in the order of the `sections` dict. */
  const SectionPatterns: seq<(string, seq<string>)> := [
    ("education", EducationHeaders),
    ("experience", ExperienceHeaders),
    ("skills", SkillsHeaders),
    ("projects", ProjectsHeaders),
    ("certifications", CertificationsHeaders)
  ]

  /** The index of the first non-empty alternative from `j` on that occurs at `i`. */
  function AltFrom(t: string, alts: seq<string>, i: nat, j: nat): (r: Option<nat>)
    requires j <= |alts|
    ensures r.Some? ==> j <= r.value < |alts| && alts[r.value] != [] && OccursAt(t, alts[r.value], i)
    ensures r.None? ==> forall m :: j <= m < |alts| ==> alts[m] == [] || !OccursAt(t, alts[m], i)
    decreases |alts| - j
  {
    if j == |alts| then None
    else if alts[j] != [] && OccursAt(t, alts[j], i) then Some(j)
    else AltFrom(t, alts, i, j + 1)
  }

  /** The alternation matching at position `i`: which alternative matches first, if any. */
  function AltAt(t: string, alts: seq<string>, i: nat): (r: Option<nat>)
    ensures r.Some? ==> r.value < |alts| && alts[r.value] != [] && OccursAt(t, alts[r.value], i)
    ensures r.None? ==> forall m :: 0 <= m < |alts| ==> alts[m] == [] || !OccursAt(t, alts[m], i)
  {
    AltFrom(t, alts, i, 0)
  }

  /** `m.start()` for every `m` in `re.finditer(pattern, t)`, searching from `i`. */
  function HeaderStarts(t: string, alts: seq<string>, i: nat): (r: seq<nat>)
    requires i <= |t|
    ensures forall k :: 0 <= k < |r| ==> i <= r[k] < |t| && AltAt(t, alts, r[k]).Some?
    decreases |t| - i
  {
    if i == |t| then []
    else
      match AltAt(t, alts, i)
      case Some(j) => [i] + HeaderStarts(t, alts, i + |alts[j]|)
      case None => HeaderStarts(t, alts, i + 1)
  }

  /** `text[start:start+500] + " "`. */
  function Piece(text: string, start: nat): string {
    PySlice(text, start, start + 500) + " "
  }

  /** The section string after appending one piece for every start, in order. */
  function Body(text: string, starts: seq<nat>): string {
    if starts == [] then [] else Body(text, starts[..|starts| - 1]) + Piece(text, starts[|starts| - 1])
  }

  /** The section string for the header alternatives `alts`. */
  function SectionBody(text: string, alts: seq<string>): string {
    Body(text, HeaderStarts(LowerStr(text), alts, 0))
  }

  /** The dict `extract_sections` returns, as an association list in the order of its keys. */
  function SectionsOf(text: string): (r: seq<(string, string)>)
    ensures |r| == |SectionPatterns|
  {
    seq(|SectionPatterns|, k requires 0 <= k < |SectionPatterns| =>
      (SectionPatterns[k].0, SectionBody(text, SectionPatterns[k].1)))
  }

  /** One more start appends one more piece. */
  lemma BodyStep(text: string, starts: seq<nat>, m: nat)
    requires m < |starts|
    ensures Body(text, starts[..m + 1]) == Body(text, starts[..m]) + Piece(text, starts[m])
  {
    assert starts[..m + 1][..m] == starts[..m];
  }

  /** The inner loop of `extract_sections`: one piece appended per header match. */
  method CollectSection(text: string, lowered: string, alts: seq<string>) returns (body: string)
    requires lowered == LowerStr(text)
    ensures body == SectionBody(text, alts)
  {
    var starts := HeaderStarts(lowered, alts, 0);
    body := "";
    for m := 0 to |starts|
      invariant body == Body(text, starts[..m])
    {
      BodyStep(text, starts, m);
      body := body + Piece(text, starts[m]);
    }
    assert starts[..|starts|] == starts;
  }

  /**
   * `extract_sections`. The dict starts with the five names mapped to `''`
   * in the order of `section_patterns`, and each name's string is written by
   * that name's turn of the loop, so building the list entry by entry gives
   * the same dict.
   */
  method ExtractSections(text: string) returns (sections: seq<(string, string)>)
    ensures sections == SectionsOf(text)
  {
    var lowered := LowerStr(text);
    sections := [];
    for k := 0 to |SectionPatterns|
      invariant sections == SectionsOf(text)[..k]
    {
      var body := CollectSection(text, lowered, SectionPatterns[k].1);
      PrefixStep(SectionsOf(text), k);
      sections := sections + [(SectionPatterns[k].0, body)];
    }
    assert SectionsOf(text)[..|SectionPatterns|] == SectionsOf(text);
  }

  /** The search finds no header exactly when no alternative occurs at any position from `i` on. */
  lemma {:induction false} NoHeaderStarts(t: string, alts: seq<string>, i: nat)
    requires i <= |t|
    requires forall m :: 0 <= m < |alts| ==> alts[m] != []
    ensures HeaderStarts(t, alts, i) == [] <==>
      forall p, m :: i <= p < |t| && 0 <= m < |alts| ==> !OccursAt(t, alts[m], p)
    decreases |t| - i
  {
    if i < |t| {
      match AltAt(t, alts, i)
      case Some(j) =>
      case None => NoHeaderStarts(t, alts, i + 1);
    }
  }

  /** A piece starts with the character at its start. */
  lemma PieceStart(text: string, start: nat)
    requires start < |text|
    ensures Piece(text, start)[0] == text[start]
  {
  }

  /** A section string holds a non-blank character when some match starts on a non-blank one. */
  lemma BodyNotBlank(text: string, starts: seq<nat>)
    requires starts != []
    requires starts[|starts| - 1] < |text| && !IsSpace(text[starts[|starts| - 1]])
    ensures Strip(Body(text, starts)) != []
  {
    var last := starts[|starts| - 1];
    var init := Body(text, starts[..|starts| - 1]);
    PieceStart(text, last);
    var body := Body(text, starts);
    assert body[|init|] == text[last];
    StripSpec(body);
  }

  /**
   * A section is blank (its `strip()` is empty) exactly when none of its
   * header words occurs anywhere in the lowercased text.
   */
  lemma SectionBlank(text: string, alts: seq<string>)
    requires forall m :: 0 <= m < |alts| ==> alts[m] != [] && IsAsciiLower(alts[m][0])
    ensures Strip(SectionBody(text, alts)) == [] <==>
      forall p, m :: 0 <= p < |text| && 0 <= m < |alts| ==> !OccursAt(LowerStr(text), alts[m], p)
  {
    var t := LowerStr(text);
    var starts := HeaderStarts(t, alts, 0);
    NoHeaderStarts(t, alts, 0);
    if starts != [] {
      var last := starts[|starts| - 1];
      var j := AltAt(t, alts, last).value;
      assert t[last] == t[last..last + |alts[j]|][0] == alts[j][0];
      LowerSpec(text[last]);
      BodyNotBlank(text, starts);
    }
  }

  // -------------------------------------------------- calculate_keyword_match

  const StopWords: seq<string> := [
    "the", "a", "an", "and", "or", "but", "in", "on", "at", "to", "for",
    "of", "with", "is", "are", "was", "were", "be", "been", "being",
    "have", "has", "had", "do", "does", "did", "will", "would", "should",
    "can", "could", "may", "might", "must", "shall", "this", "that", "these", "those"
  ]

  /** Not a stop word and at least three characters long. */
  function IsKeyTerm(): string -> bool {
    w => w !in StopWords && |w| >= 3
  }

  /** The term set of a text less stop words and short words, in order of first occurrence. */
  function KeyTerms(t: string): seq<string> {
    Filter(Dedup(Terms(LowerStr(t))), IsKeyTerm())
  }

  /** `resume_words.intersection(job_words)`, in job-word order. */
  function MatchedTerms(resumeText: string, jd: string): seq<string> {
    Filter(KeyTerms(jd), InWords(KeyTerms(resumeText)))
  }

  /** `job_words - resume_words`, in job-word order. */
  function MissingTerms(resumeText: string, jd: string): seq<string> {
    Filter(KeyTerms(jd), NotInWords(KeyTerms(resumeText)))
  }

  datatype KeywordMatch = KeywordMatch(score: real, matched: seq<string>, missing: seq<string>)

  /**
   * `calculate_keyword_match`: (50.0, [], []) without a job description; 50.0
   * when no job term survives the filters; otherwise the percentage of job
   * terms found in the resume. Both lists are cut to twenty entries.
   */
  function CalculateKeywordMatch(resumeText: string, jd: Option<string>): (r: KeywordMatch)
    ensures 0.0 <= r.score <= 100.0
    ensures |r.matched| <= 20 && |r.missing| <= 20
    ensures JdText(jd) == [] ==> r == KeywordMatch(50.0, [], [])
    ensures JdText(jd) != [] && KeyTerms(JdText(jd)) == [] ==> r.score == 50.0
  {
    var j := JdText(jd);
    if j == [] then KeywordMatch(50.0, [], [])
    else
      var job := KeyTerms(j);
      var matched := MatchedTerms(resumeText, j);
      var missing := MissingTerms(resumeText, j);
      var score := if |job| == 0 then 50.0 else Percentage(|matched|, |job|);
      KeywordMatch(score, Take(matched, 20), Take(missing, 20))
  }

  /**
   * Matched and missing split the job terms: a term is matched exactly when
   * the resume has it and missing exactly when it does not.
   */
  lemma KeywordPartition(resumeText: string, jd: string, x: string)
    ensures x in MatchedTerms(resumeText, jd) <==> x in KeyTerms(jd) && x in KeyTerms(resumeText)
    ensures x in MissingTerms(resumeText, jd) <==> x in KeyTerms(jd) && x !in KeyTerms(resumeText)
    ensures |MatchedTerms(resumeText, jd)| + |MissingTerms(resumeText, jd)| == |KeyTerms(jd)|
  {
    var job := KeyTerms(jd);
    var inResume := InWords(KeyTerms(resumeText));
    var notInResume := NotInWords(KeyTerms(resumeText));
    FilterMember(job, inResume, x);
    FilterMember(job, notInResume, x);
    FilterSplit(job, inResume, notInResume);
  }

  /**
   * With a job description, the lists returned are the first twenty matched
   * and missing terms; with job terms, the score is 100 exactly when nothing
   * is missing and 0 exactly when nothing matches.
   */
  lemma KeywordScore(resumeText: string, jd: string)
    requires jd != []
    ensures var r := CalculateKeywordMatch(resumeText, Some(jd));
      && r.matched == Take(MatchedTerms(resumeText, jd), 20)
      && r.missing == Take(MissingTerms(resumeText, jd), 20)
    ensures var r := CalculateKeywordMatch(resumeText, Some(jd));
      KeyTerms(jd) != [] ==>
        (r.score == 100.0 <==> MissingTerms(resumeText, jd) == [])
        && (r.score == 0.0 <==> MatchedTerms(resumeText, jd) == [])
  {
    var job := KeyTerms(jd);
    var matched := MatchedTerms(resumeText, jd);
    FilterSplit(job, InWords(KeyTerms(resumeText)), NotInWords(KeyTerms(resumeText)));
    if job != [] {
      assert CalculateKeywordMatch(resumeText, Some(jd)).score == Percentage(|matched|, |job|);
      PercentageExtremes(|matched|, |job|);
    }
  }

  // ------------------------------------------------------ calculate_ats_score

  /** Points for the word count: 30 for 300-800 words, 20 for 200-299 or 801-1200, 10 otherwise. */
  function LengthPoints(wordCount: nat): (p: nat)
    ensures p == 10 || p == 20 || p == 30
  {
    if 300 <= wordCount <= 800 then 30
    else if (200 <= wordCount < 300) || (800 < wordCount <= 1200) then 20
    else 10
  }

  /** `s.strip()` is non-empty, as a test on dict entries. */
  function IsFilled(): ((string, string)) -> bool {
    (e: (string, string)) => Strip(e.1) != []
  }

  /** `sum([1 for s in sections.values() if s.strip()])`. */
  function FilledSections(sections: seq<(string, string)>): nat {
    |Filter(sections, IsFilled())|
  }

  /** `'•' in text or '-' in text`. */
  predicate HasBullets(text: string) {
    '•' in text || '-' in text
  }

  /** `re.search(r'\d+', text)` finds something. */
  predicate HasNumber(text: string) {
    exists k :: 0 <= k < |text| && IsDigit(text[k])
  }

  /** `kw in text.lower()`, as a test on keywords. */
  function InText(text: string): string -> bool {
    kw => Contains(LowerStr(text), kw)
  }

  /** `sum([1 for kw in self.technical_keywords if kw in text.lower()])`. */
  function TechnicalCount(text: string): nat {
    |Filter(TechnicalKeywords, InText(text))|
  }

  function Min(a: int, b: int): int {
    if a < b then a else b
  }

  /** The seven parts of the ATS score, added up. */
  function AtsTotal(lengthPoints: nat, filled: nat, hasEmail: bool, hasPhone: bool,
                    hasBullets: bool, hasNumber: bool, technical: nat): int
  {
    lengthPoints + Min(filled * 5, 25)
    + (if hasEmail then 8 else 0) + (if hasPhone then 7 else 0)
    + (if hasBullets then 8 else 0) + (if hasNumber then 7 else 0)
    + Min(technical * 2, 15)
  }

  /** The ATS score of a text before the final cap at 100. */
  function AtsSum(text: string, sections: seq<(string, string)>, hasEmail: bool, hasPhone: bool): int {
    AtsTotal(LengthPoints(|Words(text)|), FilledSections(sections), hasEmail, hasPhone,
      HasBullets(text), HasNumber(text), TechnicalCount(text))
  }

  /** The additions of `calculate_ats_score`, in source order, on the values its checks computed. */
  method AddPoints(wordCount: nat, filled: nat, hasEmail: bool, hasPhone: bool,
                   hasBullets: bool, hasNumbers: bool, technical: nat) returns (score: int)
    ensures score == Min(AtsTotal(LengthPoints(wordCount), filled, hasEmail, hasPhone, hasBullets, hasNumbers, technical), 100)
  {
    score := 0;
    if 300 <= wordCount <= 800 {
      score := score + 30;
    } else if (200 <= wordCount < 300) || (800 < wordCount <= 1200) {
      score := score + 20;
    } else {
      score := score + 10;
    }
    score := score + Min(filled * 5, 25);
    if hasEmail {
      score := score + 8;
    }
    if hasPhone {
      score := score + 7;
    }
    if hasBullets {
      score := score + 8;
    }
    if hasNumbers {
      score := score + 7;
    }
    score := score + Min(technical * 2, 15);
    score := Min(score, 100);
  }

  /**
   * `calculate_ats_score`: points for length, filled sections, e-mail, phone,
   * bullets, digits and technical keywords, capped at 100. `hasEmail` and
   * `hasPhone` say whether the contact patterns match the text.
   */
  method CalculateAtsScore(text: string, sections: seq<(string, string)>, hasEmail: bool, hasPhone: bool)
    returns (score: int)
    ensures score == Min(AtsSum(text, sections, hasEmail, hasPhone), 100)
  {
    var wordCount := |Words(text)|;
    var hasSections := FilledSections(sections);
    var hasBullets := '•' in text || '-' in text;
    var hasNumbers := exists k :: 0 <= k < |text| && IsDigit(text[k]);
    var technicalCount := TechnicalCount(text);
    score := AddPoints(wordCount, hasSections, hasEmail, hasPhone, hasBullets, hasNumbers, technicalCount);
  }

  /**
   * The seven parts add up to at most 100, so the cap never applies; the
   * score lies in [10, 100] and is 100 exactly when every part is at its maximum.
   */
  lemma AtsTotalSpec(lengthPoints: nat, filled: nat, hasEmail: bool, hasPhone: bool,
                     hasBullets: bool, hasNumber: bool, technical: nat)
    requires lengthPoints == 10 || lengthPoints == 20 || lengthPoints == 30
    ensures var s := AtsTotal(lengthPoints, filled, hasEmail, hasPhone, hasBullets, hasNumber, technical);
      10 <= s <= 100 && Min(s, 100) == s
    ensures AtsTotal(lengthPoints, filled, hasEmail, hasPhone, hasBullets, hasNumber, technical) == 100 <==>
      lengthPoints == 30 && filled >= 5 && hasEmail && hasPhone && hasBullets && hasNumber && technical >= 8
  {
  }

  /** The ATS score of a text lies in [10, 100] and the cap at 100 never applies. */
  lemma AtsScoreSpec(text: string, sections: seq<(string, string)>, hasEmail: bool, hasPhone: bool)
    ensures var s := AtsSum(text, sections, hasEmail, hasPhone);
      10 <= s <= 100 && Min(s, 100) == s
    ensures AtsSum(text, sections, hasEmail, hasPhone) == 100 <==>
      && LengthPoints(|Words(text)|) == 30 && FilledSections(sections) >= 5
      && hasEmail && hasPhone && HasBullets(text) && HasNumber(text) && TechnicalCount(text) >= 8
  {
    AtsTotalSpec(LengthPoints(|Words(text)|), FilledSections(sections), hasEmail, hasPhone,
      HasBullets(text), HasNumber(text), TechnicalCount(text));
  }

  // ----------------------------------------------------------- analyze_resume

  /** `overall_score`: half the keyword match, 0.3 of the ATS score, 0.2 of the capped skill points. */
  function OverallScore(matchScore: real, atsScore: int, nSkills: nat): real {
    matchScore * 0.5 + atsScore as real * 0.3 + Min(nSkills * 2, 20) as real * 0.2
  }

  /** With both scores in [0, 100], the overall score lies in [0, 84]. */
  lemma OverallBound(matchScore: real, atsScore: int, nSkills: nat)
    requires 0.0 <= matchScore <= 100.0 && 0 <= atsScore <= 100
    ensures 0.0 <= OverallScore(matchScore, atsScore, nSkills) <= 84.0
  {
  }

  /** The integer `f"{x:.0f}"` prints: the nearest integer, ties going to the even one. */
  function RoundHalfEven(x: real): (n: int)
    ensures x - 0.5 <= n as real <= x + 0.5
    ensures (n as real == x + 0.5 || n as real == x - 0.5) ==> n % 2 == 0
  {
    var f := x.Floor;
    var frac := x - f as real;
    if frac < 0.5 then f else if frac > 0.5 then f + 1 else if f % 2 == 0 then f else f + 1
  }

  /** What the rules of `analyze_resume` look at. */
  datatype Facts = Facts(nSkills: nat, years: nat, atsScore: int, matchScore: real, nMatched: nat, educationBlank: bool)

  datatype Strength = StrongProfile | SignificantExperience | RelevantExperience | ExcellentAts | HighMatch

  datatype Weakness = FewSkills | LowAts | LowMatch | NoEducation

  datatype Advice = AddSkills | ImproveFormat | TailorKeywords | IncludeKeywords | AddEducation

  function StrengthText(s: Strength, f: Facts): string {
    match s
    case StrongProfile => "Strong technical profile with " + NatToString(f.nSkills) + " identified skills"
    case SignificantExperience => "Significant experience: " + NatToString(f.years) + "+ years"
    case RelevantExperience => "Relevant experience: " + NatToString(f.years) + " years"
    case ExcellentAts => "Excellent ATS compatibility"
    case HighMatch => "High keyword match: " + IntToString(RoundHalfEven(f.matchScore)) + "%"
  }

  function WeaknessText(w: Weakness): string {
    match w
    case FewSkills => "Limited technical skills mentioned"
    case LowAts => "Low ATS compatibility score"
    case LowMatch => "Low keyword match with job description"
    case NoEducation => "Education section not clearly identified"
  }

  function AdviceText(a: Advice): string {
    match a
    case AddSkills => "Add more relevant technical skills"
    case ImproveFormat => "Improve resume formatting for ATS systems"
    case TailorKeywords => "Tailor resume to include more relevant keywords"
    case IncludeKeywords => "Include more keywords from the job description"
    case AddEducation => "Add a clear Education section"
  }

  /** The strengths, in the order the rules add them. */
  function StrengthsOf(f: Facts): seq<Strength> {
    When(f.nSkills >= 8, StrongProfile)
    + (if f.years >= 5 then [SignificantExperience] else When(f.years > 0, RelevantExperience))
    + When(f.atsScore >= 80, ExcellentAts)
    + When(f.matchScore >= 70.0, HighMatch)
  }

  /** The weaknesses, in the order the rules add them. */
  function WeaknessesOf(f: Facts): seq<Weakness> {
    When(f.nSkills < 5, FewSkills)
    + When(f.atsScore < 60, LowAts)
    + When(f.matchScore < 40.0, LowMatch)
    + When(f.educationBlank, NoEducation)
  }

  /** The recommendations, in the order the rules add them. */
  function AdviceOf(f: Facts): seq<Advice> {
    When(f.nSkills < 5, AddSkills)
    + When(f.atsScore < 60, ImproveFormat)
    + When(f.matchScore < 40.0, TailorKeywords)
    + When(f.nMatched < 5, IncludeKeywords)
    + When(f.educationBlank, AddEducation)
  }

  /** The recommendation that goes with each weakness. */
  function AdviceFor(w: Weakness): Advice {
    match w
    case FewSkills => AddSkills
    case LowAts => ImproveFormat
    case LowMatch => TailorKeywords
    case NoEducation => AddEducation
  }

  /**
   * One banded rule of `analyze_resume`: `if pass:` add the strength `s`,
   * `elif fail:` add the weakness `w` and the recommendation `a`.
   */
  method ApplyRule(strengths: seq<Strength>, weaknesses: seq<Weakness>, advice: seq<Advice>,
                   pass: bool, fail: bool, s: Strength, w: Weakness, a: Advice)
    returns (strengths1: seq<Strength>, weaknesses1: seq<Weakness>, advice1: seq<Advice>)
    requires !(pass && fail)
    ensures strengths1 == strengths + When(pass, s)
    ensures weaknesses1 == weaknesses + When(fail, w) && advice1 == advice + When(fail, a)
  {
    strengths1, weaknesses1, advice1 := strengths, weaknesses, advice;
    if pass {
      strengths1 := strengths1 + [s];
    } else if fail {
      weaknesses1 := weaknesses1 + [w];
      advice1 := advice1 + [a];
    }
  }

  /** The rules of `analyze_resume`, applied in source order. */
  method Advise(f: Facts) returns (strengths: seq<Strength>, weaknesses: seq<Weakness>, advice: seq<Advice>)
    ensures strengths == StrengthsOf(f) && weaknesses == WeaknessesOf(f) && advice == AdviceOf(f)
  {
    strengths, weaknesses, advice :=
      ApplyRule([], [], [], f.nSkills >= 8, f.nSkills < 5, StrongProfile, FewSkills, AddSkills);
    assert strengths == When(f.nSkills >= 8, StrongProfile);
    assert weaknesses == When(f.nSkills < 5, FewSkills);
    assert advice == When(f.nSkills < 5, AddSkills);
    var experience: seq<Strength> := [];
    if f.years >= 5 {
      experience := [SignificantExperience];
    } else if f.years > 0 {
      experience := [RelevantExperience];
    }
    strengths := strengths + experience;
    strengths, weaknesses, advice :=
      ApplyRule(strengths, weaknesses, advice, f.atsScore >= 80, f.atsScore < 60, ExcellentAts, LowAts, ImproveFormat);
    strengths, weaknesses, advice :=
      ApplyRule(strengths, weaknesses, advice, f.matchScore >= 70.0, f.matchScore < 40.0, HighMatch, LowMatch, TailorKeywords);
    assert strengths == StrengthsOf(f);
    ghost var banded := advice;
    if f.nMatched < 5 {
      advice := advice + [IncludeKeywords];
    }
    assert advice == banded + When(f.nMatched < 5, IncludeKeywords);
    if f.educationBlank {
      weaknesses := weaknesses + [NoEducation];
      advice := advice + [AddEducation];
    }
  }

  /** Education advice is given, and the education weakness reported, exactly when the education section is blank. */
  lemma EducationRule(f: Facts)
    ensures AddEducation in AdviceOf(f) <==> f.educationBlank
    ensures NoEducation in WeaknessesOf(f) <==> f.educationBlank
  {
  }

  /** Skill advice is given, and the skill weakness reported, exactly when fewer than five skills were found. */
  lemma SkillRule(f: Facts)
    ensures AddSkills in AdviceOf(f) <==> f.nSkills < 5
    ensures FewSkills in WeaknessesOf(f) <==> f.nSkills < 5
  {
  }

  /** The skill-count strength is reported exactly when at least eight skills were found. */
  lemma StrongProfileRule(f: Facts)
    ensures StrongProfile in StrengthsOf(f) <==> f.nSkills >= 8
  {
    var rest := StrengthsOf(f)[|When(f.nSkills >= 8, StrongProfile)|..];
    assert StrengthsOf(f) == When(f.nSkills >= 8, StrongProfile) + rest;
    assert StrongProfile !in rest;
  }

  /** Every weakness comes with its recommendation. */
  lemma WeaknessAdvised(f: Facts, w: Weakness)
    requires w in WeaknessesOf(f)
    ensures AdviceFor(w) in AdviceOf(f)
  {
    match w
    case FewSkills => assert f.nSkills < 5;
    case LowAts => assert f.atsScore < 60;
    case LowMatch => assert f.matchScore < 40.0;
    case NoEducation => assert f.educationBlank;
  }

  /** At most one experience strength is reported. */
  lemma OneExperienceStrength(f: Facts)
    ensures !(SignificantExperience in StrengthsOf(f) && RelevantExperience in StrengthsOf(f))
  {
    if SignificantExperience in StrengthsOf(f) {
      assert f.years >= 5;
    }
  }

  /** The strength texts, in order. */
  function StrengthTexts(ss: seq<Strength>, f: Facts): seq<string> {
    seq(|ss|, i requires 0 <= i < |ss| => StrengthText(ss[i], f))
  }

  /** The weakness texts, in order. */
  function WeaknessTexts(ws: seq<Weakness>): seq<string> {
    seq(|ws|, i requires 0 <= i < |ws| => WeaknessText(ws[i]))
  }

  /** The recommendation texts, in order. */
  function AdviceTexts(as_: seq<Advice>): seq<string> {
    seq(|as_|, i requires 0 <= i < |as_| => AdviceText(as_[i]))
  }

  datatype Report = Report(
    filename: string, overallScore: real, matchScore: real, atsScore: int,
    skills: seq<string>, yearsExperience: nat,
    matchedKeywords: seq<string>, missingKeywords: seq<string>,
    strengths: seq<string>, weaknesses: seq<string>, recommendations: seq<string>,
    wordCount: nat, sections: seq<(string, string)>, fullText: string)

  /** `not text or text.startswith("Error")`: the extraction failed. */
  predicate Failed(text: string) {
    text == [] || StartsWith(text, "Error")
  }

  /**
   * `analyze_resume` on the extracted text: nothing when extraction failed;
   * otherwise sections, skills, both scores, the overall score and the rules.
   * `filename` is the name already chosen (`filename or basename(path)`),
   * `yearsFound` the numbers the years pattern captures in the lowercased
   * text, `hasEmail`/`hasPhone` whether the contact patterns match.
   */
  method AnalyzeResume(text: string, jd: Option<string>, filename: string, yearsFound: seq<nat>,
                       hasEmail: bool, hasPhone: bool) returns (r: Option<Report>)
    ensures r.None? <==> Failed(text)
    ensures r.Some? ==>
      var a := r.value;
      var km := CalculateKeywordMatch(text, jd);
      && a.sections == SectionsOf(text)
      && a.skills == DynamicSkills(text) && a.yearsExperience == YearsOf(yearsFound)
      && a.matchScore == km.score && a.matchedKeywords == km.matched && a.missingKeywords == km.missing
      && a.atsScore == AtsSum(text, a.sections, hasEmail, hasPhone)
      && a.overallScore == OverallScore(a.matchScore, a.atsScore, |a.skills|)
      && 0.0 <= a.overallScore <= 84.0
      && a.wordCount == |Words(text)| && a.fullText == text && a.filename == filename
    ensures r.Some? ==>
      var a := r.value;
      var f := Facts(|a.skills|, a.yearsExperience, a.atsScore, a.matchScore, |a.matchedKeywords|,
        Strip(SectionBody(text, EducationHeaders)) == []);
      && a.strengths == StrengthTexts(StrengthsOf(f), f)
      && a.weaknesses == WeaknessTexts(WeaknessesOf(f))
      && a.recommendations == AdviceTexts(AdviceOf(f))
  {
    if text == [] || StartsWith(text, "Error") {
      return None;
    }
    var sections := ExtractSections(text);
    var skills, years := ExtractDynamicSkills(text, yearsFound);
    var km := CalculateKeywordMatch(text, jd);
    var atsScore := CalculateAtsScore(text, sections, hasEmail, hasPhone);
    AtsScoreSpec(text, sections, hasEmail, hasPhone);
    var overall := OverallScore(km.score, atsScore, |skills|);
    OverallBound(km.score, atsScore, |skills|);

    assert sections[0] == ("education", SectionBody(text, EducationHeaders));
    var education := Get(sections, "education", "");
    var f := Facts(|skills|, years, atsScore, km.score, |km.matched|, Strip(education) == []);
    var strengths, weaknesses, advice := Advise(f);
    r := Some(Report(filename, overall, km.score, atsScore, skills, years, km.matched, km.missing,
      StrengthTexts(strengths, f), WeaknessTexts(weaknesses), AdviceTexts(advice),
      |Words(text)|, sections, text));
  }

  /** Every education header word is non-empty and starts with a lower-case ASCII letter. */
  lemma EducationHeadersWellFormed()
    ensures forall m :: 0 <= m < |EducationHeaders| ==> EducationHeaders[m] != [] && IsAsciiLower(EducationHeaders[m][0])
  {
    assert EducationHeaders[0][0] == 'e' && EducationHeaders[1][0] == 'a';
    assert EducationHeaders[2][0] == 'q' && EducationHeaders[3][0] == 'd';
  }

  /**
   * "Add a clear Education section" is recommended exactly when no education
   * header word (education, academic, qualification, degree) occurs anywhere
   * in the lowercased resume.
   */
  lemma EducationAdvice(text: string, f: Facts)
    requires f.educationBlank == (Strip(SectionBody(text, EducationHeaders)) == [])
    ensures AddEducation in AdviceOf(f) <==>
      forall p, m :: 0 <= p < |text| && 0 <= m < |EducationHeaders| ==> !OccursAt(LowerStr(text), EducationHeaders[m], p)
  {
    EducationHeadersWellFormed();
    SectionBlank(text, EducationHeaders);
    EducationRule(f);
  }
}
