/**
 * The `ResumeAnalyzer` of the detailed-comparison app: it reads a job
 * description once (`analyze_job_description` stores its skills, keywords and
 * requirements in the analyser's fields), then compares each resume with it.
 *
 * The regular expressions that only find numbers, names or contact details
 * are parameters: `nameMatches` (the capitalised-name pattern on the first 500
 * characters), `expMatches` (the "N+ years of experience" captures of
 * `extract_skills`), `yearsFound` (the "N years" captures on the resume) and
 * the two contact tests of `calculate_ats_score`.
 */
module DetailedComparison {
  import opened TextUtil
  import JDSkillExtractor
  import Sorting

  // ---------------------------------------------------------------------
  // extract_person_name
  // ---------------------------------------------------------------------

  /** Header words that disqualify a line as a name. */
  const NameHeaders: seq<string> := ["resume", "curriculum", "cv", "contact", "email", "phone", "address"]

  /** `str.isdigit()` on Latin-1: the ASCII digits and the superscripts one, two and three. */
  predicate IsDigitChar(c: char) {
    IsDigit(c) || c == '\U{B2}' || c == '\U{B3}' || c == '\U{B9}'
  }

  /** A word passes the name test: one character long, or capitalised and free of digits. */
  predicate NameWord(w: string) {
    |w| > 1 ==> IsUpper(w[0]) && forall k :: 0 <= k < |w| ==> !IsDigitChar(w[k])
  }

  /** A stripped line that looks like a name: two to four words that pass, and no header word. */
  predicate IsNameLine(line: string) {
    var ws := Words(line);
    && 2 <= |ws| <= 4
    && (forall i :: 0 <= i < |ws| ==> NameWord(ws[i]))
    && !ContainsAny(LowerStr(line), NameHeaders)
  }

  function NameLineTest(): string -> bool {
    line => IsNameLine(line)
  }

  function StripLine(): string -> string {
    s => Strip(s)
  }

  /** The first five lines of the stripped text, each stripped. */
  function HeadLines(text: string): seq<string> {
    MapAll(Take(SplitLines(Strip(text)), 5), StripLine())
  }

  /** The fallback when no head line is a name: the first regular-expression name, else a placeholder. */
  function FallbackName(nameMatches: seq<string>): string {
    if nameMatches != [] then nameMatches[0] else "Unknown Candidate"
  }

  /** `extract_person_name`. */
  function PersonName(text: string, nameMatches: seq<string>): string {
    match FirstWhere(HeadLines(text), NameLineTest())
    case Some(line) => line
    case None => FallbackName(nameMatches)
  }

  /** One step of a search from position `i`. */
  lemma FirstWhereStep<T>(xs: seq<T>, p: T -> bool, i: nat)
    requires i < |xs|
    ensures FirstWhere(xs[i..], p) == if p(xs[i]) then Some(xs[i]) else FirstWhere(xs[i + 1..], p)
  {
    assert xs[i..][1..] == xs[i + 1..];
  }

  /** The head lines are the first five lines of the stripped text (fewer if it has fewer), each stripped. */
  lemma HeadLinesSpec(text: string)
    ensures var lines := SplitLines(Strip(text));
      && |HeadLines(text)| == (if |lines| < 5 then |lines| else 5)
      && forall k :: 0 <= k < |HeadLines(text)| ==> HeadLines(text)[k] == Strip(lines[k])
  {
    var top := Take(SplitLines(Strip(text)), 5);
    forall k | 0 <= k < |top| ensures HeadLines(text)[k] == Strip(SplitLines(Strip(text))[k]) {
      MapAllIndex(top, StripLine(), k);
    }
  }

  /** The name is the first head line that looks like a name. */
  lemma PersonNameFirst(text: string, nameMatches: seq<string>, k: nat)
    requires k < |HeadLines(text)| && IsNameLine(HeadLines(text)[k])
    requires forall m :: 0 <= m < k ==> !IsNameLine(HeadLines(text)[m])
    ensures PersonName(text, nameMatches) == HeadLines(text)[k]
  {
    FirstWherePicks(HeadLines(text), NameLineTest(), k);
  }

  /** When no head line looks like a name, the name is the fallback. */
  lemma PersonNameFallback(text: string, nameMatches: seq<string>)
    ensures (forall k :: 0 <= k < |HeadLines(text)| ==> !IsNameLine(HeadLines(text)[k]))
      <==> PersonName(text, nameMatches) == FallbackName(nameMatches) && FirstWhere(HeadLines(text), NameLineTest()).None?
  {
    FirstWhereNone(HeadLines(text), NameLineTest());
  }

  // ---------------------------------------------------------------------
  // extract_skills
  // ---------------------------------------------------------------------

  const ProgrammingLanguages: seq<string> := ["python", "java", "javascript", "c++", "c#", "ruby", "php",
    "swift", "kotlin", "go", "rust", "typescript", "r", "matlab", "scala"]

  const Frameworks: seq<string> := ["react", "angular", "vue", "django", "flask", "spring", "node.js",
    "express", "fastapi", "laravel", "rails", ".net", "tensorflow", "pytorch", "keras", "pandas", "numpy"]

  const Tools: seq<string> := ["git", "docker", "kubernetes", "jenkins", "aws", "azure", "gcp", "sql",
    "nosql", "mongodb", "postgresql", "mysql", "redis", "elasticsearch", "tableau", "power bi", "excel",
    "jira", "confluence"]

  const SoftSkills: seq<string> := ["leadership", "communication", "teamwork", "problem solving",
    "critical thinking", "project management", "agile", "scrum", "collaboration", "analytical", "creativity"]

  /** `prog_langs + frameworks + tools + soft_skills`. */
  const AllSkills: seq<string> := ProgrammingLanguages + Frameworks + Tools + SoftSkills

  const EducationKeywords: seq<string> := ["bachelor", "master", "phd", "mba", "degree", "university",
    "college", "engineering", "computer science", "bsc", "msc"]

  const CertificationKeywords: seq<string> := ["certified", "certification", "aws certified", "pmp",
    "cissp", "comptia", "microsoft certified", "google certified"]

  /** `c.upper()` on ASCII. */
  function AsciiUpper(c: char): char {
    if IsAsciiLower(c) then (c as int - 32) as char else c
  }

  /**
   * `str.title()` on ASCII text: a letter is upper-cased when it starts the
   * text or follows a non-letter, and lower-cased when it follows a letter.
   */
  function TitleFrom(s: string, afterLetter: bool): (r: string)
    ensures |r| == |s|
  {
    if s == [] then []
    else
      var c := s[0];
      [if !IsAsciiLetter(c) then c else if afterLetter then Lower(c) else AsciiUpper(c)]
        + TitleFrom(s[1..], IsAsciiLetter(c))
  }

  function Title(s: string): (r: string)
    ensures |r| == |s|
  {
    TitleFrom(s, false)
  }

  /** Character by character: a letter's case depends only on whether the character before it is a letter. */
  lemma {:induction false} TitleFromAt(s: string, afterLetter: bool, k: nat)
    requires k < |s|
    ensures var before := if k == 0 then afterLetter else IsAsciiLetter(s[k - 1]);
      TitleFrom(s, afterLetter)[k]
        == if !IsAsciiLetter(s[k]) then s[k] else if before then Lower(s[k]) else AsciiUpper(s[k])
  {
    if k > 0 {
      TitleFromAt(s[1..], IsAsciiLetter(s[0]), k - 1);
    }
  }

  /** Title case: word starts upper, other letters lower, other characters unchanged. */
  lemma TitleSpec(s: string, k: nat)
    requires k < |s|
    ensures !IsAsciiLetter(s[k]) ==> Title(s)[k] == s[k]
    ensures IsAsciiLetter(s[k]) && (k == 0 || !IsAsciiLetter(s[k - 1])) ==> IsAsciiUpper(Title(s)[k])
    ensures IsAsciiLetter(s[k]) && k > 0 && IsAsciiLetter(s[k - 1]) ==> IsAsciiLower(Title(s)[k])
  {
    TitleFromAt(s, false, k);
  }

  /** `[f(x) for x in xs if p(x)]`. */
  function MapWhere<T, U>(xs: seq<T>, p: T -> bool, f: T -> U): (r: seq<U>)
    ensures |r| <= |xs|
  {
    if xs == [] then []
    else
      var n := |xs| - 1;
      MapWhere(xs[..n], p, f) + When(p(xs[n]), f(xs[n]))
  }

  lemma MapWhereStep<T, U>(xs: seq<T>, p: T -> bool, f: T -> U, i: nat)
    requires i < |xs|
    ensures MapWhere(xs[..i + 1], p, f) == MapWhere(xs[..i], p, f) + When(p(xs[i]), f(xs[i]))
  {
    assert xs[..i + 1][..i] == xs[..i];
  }

  /** A result is listed exactly when it is the image of some element that passes. */
  lemma {:induction false} MapWhereMember<T, U>(xs: seq<T>, p: T -> bool, f: T -> U, y: U)
    ensures y in MapWhere(xs, p, f) <==> exists k :: 0 <= k < |xs| && p(xs[k]) && y == f(xs[k])
  {
    if xs != [] {
      var n := |xs| - 1;
      var init := xs[..n];
      MapWhereMember(init, p, f, y);
      assert MapWhere(xs, p, f) == MapWhere(init, p, f) + When(p(xs[n]), f(xs[n]));
      if y in MapWhere(xs, p, f) {
        if y in MapWhere(init, p, f) {
          var k :| 0 <= k < n && p(init[k]) && y == f(init[k]);
          assert init[k] == xs[k];
        } else {
          assert p(xs[n]) && y == f(xs[n]);
        }
      }
      if exists k :: 0 <= k < |xs| && p(xs[k]) && y == f(xs[k]) {
        var k :| 0 <= k < |xs| && p(xs[k]) && y == f(xs[k]);
        if k < n {
          assert init[k] == xs[k];
        }
      }
    }
  }

  /** An element that passes contributes its image. */
  lemma MapWhereFound<T, U>(xs: seq<T>, p: T -> bool, f: T -> U, k: nat)
    requires k < |xs| && p(xs[k])
    ensures f(xs[k]) in MapWhere(xs, p, f)
  {
    MapWhereMember(xs, p, f, f(xs[k]));
  }

  function TitleCase(): string -> string {
    s => Title(s)
  }

  /** `skill.lower() in text_lower`. */
  function MentionedLowered(t: string): string -> bool {
    s => Contains(t, LowerStr(s))
  }

  /** `edu in text_lower`. */
  function Mentioned(t: string): string -> bool {
    s => Contains(t, s)
  }

  /** The experience tag built from the first experience capture, if any. */
  function ExperienceTag(expMatches: seq<string>): seq<string> {
    if expMatches == [] then [] else [expMatches[0] + "+ Years Experience"]
  }

  /**
   * The skills added for the lowercased text `t`, in the order they are added
   * (repeats included): the mentioned skill names, the experience tag, the
   * mentioned education keywords and the mentioned certification keywords.
   */
  function CandidatesFrom(t: string, expMatches: seq<string>, names: seq<string>, education: seq<string>,
                          certifications: seq<string>): seq<string> {
    MapWhere(names, MentionedLowered(t), TitleCase()) + ExperienceTag(expMatches)
      + MapWhere(education, Mentioned(t), TitleCase())
      + MapWhere(certifications, Mentioned(t), TitleCase())
  }

  /** Every skill added by `extract_skills`, in order, repeats included. */
  function SkillCandidates(text: string, expMatches: seq<string>): seq<string> {
    CandidatesFrom(LowerStr(text), expMatches, AllSkills, EducationKeywords, CertificationKeywords)
  }

  /** `list(skills)` of `extract_skills`, the set listed in order of first addition. */
  function SkillsOf(text: string, expMatches: seq<string>): seq<string> {
    Dedup(SkillCandidates(text, expMatches))
  }

  lemma DedupSnoc<T>(s: seq<T>, x: T)
    ensures Dedup(s + [x]) == if x in Dedup(s) then Dedup(s) else Dedup(s) + [x]
  {
    assert (s + [x])[..|s|] == s;
  }

  /** Adding the image of one more element to a set listed in order of first addition. */
  lemma AddWhereStep<T, U>(added: seq<U>, xs: seq<T>, p: T -> bool, f: T -> U, i: nat)
    requires i < |xs|
    ensures var d := Dedup(added + MapWhere(xs[..i], p, f));
      Dedup(added + MapWhere(xs[..i + 1], p, f)) == if p(xs[i]) && f(xs[i]) !in d then d + [f(xs[i])] else d
  {
    MapWhereStep(xs, p, f, i);
    var before := added + MapWhere(xs[..i], p, f);
    if p(xs[i]) {
      assert added + MapWhere(xs[..i + 1], p, f) == before + [f(xs[i])];
      DedupSnoc(before, f(xs[i]));
    } else {
      assert added + MapWhere(xs[..i + 1], p, f) == before;
    }
  }

  /** `for x in xs: if p(x): skills.add(f(x))`, on a set listed in order of first addition. */
  method AddWhere<T, U(==)>(skills: seq<U>, ghost added: seq<U>, xs: seq<T>, p: T -> bool, f: T -> U)
    returns (out: seq<U>)
    requires skills == Dedup(added)
    ensures out == Dedup(added + MapWhere(xs, p, f))
  {
    out := skills;
    assert xs[..0] == [];
    AppendNothing(added);
    for i := 0 to |xs|
      invariant out == Dedup(added + MapWhere(xs[..i], p, f))
    {
      out := AddOneWhere(out, added, xs, p, f, i);
    }
    assert xs[..|xs|] == xs;
  }

  /** One pass of the loop of `AddWhere`: `if p(x): skills.add(f(x))` for `x = xs[i]`. */
  method AddOneWhere<T, U(==)>(skills: seq<U>, ghost added: seq<U>, xs: seq<T>, p: T -> bool, f: T -> U, i: nat)
    returns (out: seq<U>)
    requires i < |xs| && skills == Dedup(added + MapWhere(xs[..i], p, f))
    ensures out == Dedup(added + MapWhere(xs[..i + 1], p, f))
  {
    AddWhereStep(added, xs, p, f, i);
    out := skills;
    if p(xs[i]) {
      var x := f(xs[i]);
      if x !in out {
        out := out + [x];
      }
    }
  }

  lemma AppendNothing<T>(s: seq<T>)
    ensures [] + s == s && s + [] == s
  {
  }

  /** `skills.add(x)` on a set listed in order of first addition. */
  method AddSkill<U(==)>(skills: seq<U>, ghost added: seq<U>, x: U) returns (out: seq<U>)
    requires skills == Dedup(added)
    ensures out == Dedup(added + [x])
  {
    out := skills;
    if x !in skills {
      out := skills + [x];
    }
    DedupSnoc(added, x);
  }

  /** The body of `extract_skills` for given word lists, on the lowercased text `t`. */
  method CollectSkills(t: string, expMatches: seq<string>, names: seq<string>, education: seq<string>,
                       certifications: seq<string>) returns (skills: seq<string>)
    ensures skills == Dedup(CandidatesFrom(t, expMatches, names, education, certifications))
  {
    skills := AddWhere([], [], names, MentionedLowered(t), TitleCase());
    ghost var added := MapWhere(names, MentionedLowered(t), TitleCase());
    AppendNothing(added);
    if expMatches != [] {
      skills := AddSkill(skills, added, expMatches[0] + "+ Years Experience");
    }
    added := added + ExperienceTag(expMatches);
    skills := AddWhere(skills, added, education, Mentioned(t), TitleCase());
    added := added + MapWhere(education, Mentioned(t), TitleCase());
    skills := AddWhere(skills, added, certifications, Mentioned(t), TitleCase());
  }

  /** Each skill is listed once; a skill is listed exactly when it was added. */
  lemma SkillsOfSpec(text: string, expMatches: seq<string>, x: string)
    ensures NoDups(SkillsOf(text, expMatches))
    ensures x in SkillsOf(text, expMatches) <==> x in SkillCandidates(text, expMatches)
  {
    DedupNoDups(SkillCandidates(text, expMatches));
    DedupMember(SkillCandidates(text, expMatches), x);
  }

  /** A listed skill mentioned in the text is found, title-cased. */
  lemma MentionedSkillFound(text: string, expMatches: seq<string>, k: nat)
    requires k < |AllSkills| && Contains(LowerStr(text), LowerStr(AllSkills[k]))
    ensures Title(AllSkills[k]) in SkillsOf(text, expMatches)
  {
    var t := LowerStr(text);
    var x := Title(AllSkills[k]);
    MapWhereFound(AllSkills, MentionedLowered(t), TitleCase(), k);
    assert x in SkillCandidates(text, expMatches);
    SkillsOfSpec(text, expMatches, x);
  }

  /** The experience tag is built from the first capture. */
  lemma ExperienceTagFound(text: string, expMatches: seq<string>)
    requires expMatches != []
    ensures expMatches[0] + "+ Years Experience" in SkillsOf(text, expMatches)
  {
    assert expMatches[0] + "+ Years Experience" in SkillCandidates(text, expMatches);
    SkillsOfSpec(text, expMatches, expMatches[0] + "+ Years Experience");
  }

  /** Substring matching: a text that mentions "javascript" also yields the skill "Java". */
  lemma JavaInsideJavascript(text: string, expMatches: seq<string>)
    requires Contains(LowerStr(text), "javascript")
    ensures "Java" in SkillsOf(text, expMatches)
  {
    var t := LowerStr(text);
    var i :| 0 <= i <= |t| && OccursAt(t, "javascript", i);
    assert t[i..i + 4] == t[i..i + 10][..4];
    assert OccursAt(t, "java", i);
    assert AllSkills[1] == "java";
    assert LowerStr("java") == "java";
    assert Title("java") == "Java";
    MentionedSkillFound(text, expMatches, 1);
  }

  // ---------------------------------------------------------------------
  // calculate_ats_score
  // ---------------------------------------------------------------------

  /** Words whose presence shows the usual resume sections. */
  const SectionWords: seq<string> := ["experience", "education", "skills"]

  /** 100 less 20 for a short text, 15 for no section word, 10 for no e-mail and 5 for no phone, at least 0. */
  function AtsScore(text: string, hasEmail: bool, hasPhone: bool): int {
    var score := 100
      - (if |text| < 500 then 20 else 0)
      - (if !ContainsAny(LowerStr(text), SectionWords) then 15 else 0)
      - (if !hasEmail then 10 else 0)
      - (if !hasPhone then 5 else 0);
    if score > 0 then score else 0
  }

  /** The deductions total at most 50, so the floor at 0 never applies; the score is 100 exactly when no check fails. */
  lemma AtsScoreSpec(text: string, hasEmail: bool, hasPhone: bool)
    ensures 50 <= AtsScore(text, hasEmail, hasPhone) <= 100
    ensures AtsScore(text, hasEmail, hasPhone) == 100 <==>
      |text| >= 500 && ContainsAny(LowerStr(text), SectionWords) && hasEmail && hasPhone
    ensures AtsScore(text, hasEmail, hasPhone) == 50 <==>
      |text| < 500 && !ContainsAny(LowerStr(text), SectionWords) && !hasEmail && !hasPhone
  {
  }

  // ---------------------------------------------------------------------
  // extract_keywords
  // ---------------------------------------------------------------------

  /** The words `extract_keywords` ignores. */
  const CommonWords: seq<string> := ["the", "a", "an", "and", "or", "but", "in", "on", "at", "to", "for",
    "of", "with", "by", "from", "as", "is", "was", "are", "were", "be", "been", "being", "have", "has",
    "had", "do", "does", "did", "will", "would", "should", "could", "may", "might", "must", "can", "this",
    "that", "these", "those", "i", "you", "he", "she", "it", "we", "they"]

  /** End of the run of word characters (`\w`) that starts at `i`. */
  function WordRunEnd(t: string, i: nat): (e: nat)
    requires i <= |t|
    ensures i <= e <= |t|
    ensures forall k :: i <= k < e ==> IsWordChar(t[k])
    ensures e == |t| || !IsWordChar(t[e])
    decreases |t| - i
  {
    if i < |t| && IsWordChar(t[i]) then WordRunEnd(t, i + 1) else i
  }

  predicate AllAsciiLower(w: string) {
    forall k :: 0 <= k < |w| ==> IsAsciiLower(w[k])
  }

  /**
   * `re.findall(r'\b[a-z]{3,}\b', t)` from position `i`, which is not inside a
   * run of word characters. A match is a whole run of three or more ASCII
   * lower-case letters: inside a run there is no word boundary, so a run that
   * goes on with a digit, an underscore or another letter yields nothing.
   */
  function LowerWordsFrom(t: string, i: nat): (ws: seq<string>)
    requires i <= |t|
    ensures forall k :: 0 <= k < |ws| ==> |ws[k]| >= 3 && AllAsciiLower(ws[k])
    decreases |t| - i
  {
    if i == |t| then []
    else if !IsWordChar(t[i]) then LowerWordsFrom(t, i + 1)
    else
      var e := WordRunEnd(t, i);
      When(e - i >= 3 && AllAsciiLower(t[i..e]), t[i..e]) + LowerWordsFrom(t, e)
  }

  /** A word `extract_keywords` can return. */
  predicate IsKeyword(w: string) {
    |w| >= 3 && AllAsciiLower(w) && w !in CommonWords
  }

  /** `[w for w in words if w not in common_words]` over the lowercased text. */
  function KeywordTokens(text: string): seq<string> {
    Filter(LowerWordsFrom(LowerStr(text), 0), NotInWords(CommonWords))
  }

  lemma KeywordTokensSpec(text: string, w: string)
    requires w in KeywordTokens(text)
    ensures IsKeyword(w)
  {
    FilterMember(LowerWordsFrom(LowerStr(text), 0), NotInWords(CommonWords), w);
  }

  /** The frequency dict built by `keyword_freq[word] = keyword_freq.get(word, 0) + 1`. */
  function Frequencies<T(==)>(ws: seq<T>): seq<(T, nat)> {
    if ws == [] then [] else Tally(Frequencies(ws[..|ws| - 1]), ws[|ws| - 1])
  }

  /** One `keyword_freq[word] = keyword_freq.get(word, 0) + 1` step. */
  function Tally<T(==)>(m: seq<(T, nat)>, w: T): seq<(T, nat)> {
    Put(m, w, Get(m, w, 0) + 1)
  }

  /** The dict has one entry per distinct word. */
  lemma {:induction false} FrequencyKeys<T>(ws: seq<T>)
    ensures DistinctKeys(Frequencies(ws))
    ensures forall x :: x in Keys(Frequencies(ws)) <==> x in ws
  {
    if ws != [] {
      var init, w := ws[..|ws| - 1], ws[|ws| - 1];
      SplitLast(ws);
      FrequencyKeys(init);
      var m := Frequencies(init);
      if w !in Keys(m) {
        NoDupsSnoc(Keys(m), w);
      }
    }
  }

  /** Each word's entry holds the number of its occurrences. */
  lemma {:induction false} FrequencyCounts<T>(ws: seq<T>, x: T)
    ensures Get(Frequencies(ws), x, 0) == multiset(ws)[x]
  {
    if ws != [] {
      var init, w := ws[..|ws| - 1], ws[|ws| - 1];
      assert Frequencies(ws) == Tally(Frequencies(init), w);
      TallyGet(Frequencies(init), w, x);
      FrequencyCounts(init, x);
      LastCount(ws, x);
    }
  }

  /** A tally step adds one to the counted word only. */
  lemma TallyGet<T>(m: seq<(T, nat)>, w: T, x: T)
    ensures Get(Tally(m, w), x, 0) == Get(m, x, 0) + if x == w then 1 else 0
  {
    var c: nat := Get(m, w, 0) + 1;
    assert Tally(m, w) == Put(m, w, c);
    PutLookup(m, w, c, x);
    if x == w {
      assert Get(Put(m, w, c), x, 0) == c;
    } else {
      assert Get(Put(m, w, c), x, 0) == Get(m, x, 0);
    }
  }

  /** The multiset of a non-empty list counts its last element once more than its prefix's. */
  lemma LastCount<T>(ws: seq<T>, x: T)
    requires ws != []
    ensures multiset(ws)[x] == multiset(ws[..|ws| - 1])[x] + if x == ws[|ws| - 1] then 1 else 0
  {
    SplitLast(ws);
    MultisetSnoc(ws[..|ws| - 1], ws[|ws| - 1], x);
  }

  /** One more element counts once more in the multiset of a list. */
  lemma MultisetSnoc<T>(s: seq<T>, w: T, x: T)
    ensures multiset(s + [w])[x] == multiset(s)[x] + if x == w then 1 else 0
  {
    assert multiset(s + [w]) == multiset(s) + multiset{w};
  }

  /** In a dict with distinct keys, looking up an entry's key finds that entry's value. */
  lemma {:induction false} LookupEntry<K, V>(m: seq<(K, V)>, i: nat)
    requires DistinctKeys(m) && i < |m|
    ensures Lookup(m, m[i].0) == Some(m[i].1)
  {
    if i > 0 {
      var ks := Keys(m);
      assert ks[0] != ks[i];
      assert Keys(m[1..]) == ks[1..];
      NoDupsTail(ks);
      LookupEntry(m[1..], i - 1);
    }
  }

  /** Every entry of the dict holds the count of its word. */
  lemma FrequencyEntries<T>(ws: seq<T>, i: nat)
    requires i < |Frequencies(ws)|
    ensures Frequencies(ws)[i].0 in ws
    ensures Frequencies(ws)[i].1 == multiset(ws)[Frequencies(ws)[i].0]
  {
    FrequencyKeys(ws);
    FrequencyCounts(ws, Frequencies(ws)[i].0);
    LookupEntry(Frequencies(ws), i);
    assert Keys(Frequencies(ws))[i] == Frequencies(ws)[i].0;
  }

  /** The counting loop of `extract_keywords`. */
  method CountFrequencies<T(==)>(ws: seq<T>) returns (freq: seq<(T, nat)>)
    ensures freq == Frequencies(ws)
  {
    freq := [];
    for i := 0 to |ws|
      invariant freq == Frequencies(ws[..i])
    {
      assert ws[..i + 1][..i] == ws[..i];
      freq := Put(freq, ws[i], Get(freq, ws[i], 0) + 1);
    }
    assert ws[..|ws|] == ws;
  }

  /** `key=lambda x: x[1]`. */
  function CountKey(): ((string, nat)) -> real {
    (e: (string, nat)) => e.1 as real
  }

  /** The frequency entries, most frequent first. */
  function SortedFrequencies(text: string): seq<(string, nat)> {
    Sorting.SortDesc(Frequencies(KeywordTokens(text)), CountKey())
  }

  /** `extract_keywords`: the words of the thirty first sorted entries. */
  function KeywordsOf(text: string): seq<string> {
    Keys(Take(SortedFrequencies(text), 30))
  }

  /** Every keyword has an entry among the sorted ones. */
  lemma SortedCovers(text: string, x: string)
    requires x in KeywordTokens(text)
    ensures exists p :: 0 <= p < |SortedFrequencies(text)| && SortedFrequencies(text)[p].0 == x
  {
    var freq, sorted := Frequencies(KeywordTokens(text)), SortedFrequencies(text);
    Sorting.SortDescSpec(freq, CountKey());
    FrequencyKeys(KeywordTokens(text));
    var m :| 0 <= m < |freq| && Keys(freq)[m] == x;
    assert freq[m] in multiset(sorted);
    var p :| 0 <= p < |sorted| && sorted[p] == freq[m];
  }

  /** Each sorted entry is a keyword with its count. */
  lemma SortedEntry(text: string, i: nat)
    requires i < |SortedFrequencies(text)|
    ensures var ws, e := KeywordTokens(text), SortedFrequencies(text)[i];
      e.0 in ws && e.1 == multiset(ws)[e.0]
  {
    var freq, sorted := Frequencies(KeywordTokens(text)), SortedFrequencies(text);
    Sorting.SortDescSpec(freq, CountKey());
    assert sorted[i] in multiset(freq);
    var m :| 0 <= m < |freq| && freq[m] == sorted[i];
    FrequencyEntries(KeywordTokens(text), m);
  }

  /** Entries with distinct keys are distinct. */
  lemma FrequenciesNoDups<T>(ws: seq<T>)
    ensures NoDups(Frequencies(ws))
  {
    var freq := Frequencies(ws);
    FrequencyKeys(ws);
    forall i, j | 0 <= i < j < |freq| ensures freq[i] != freq[j] {
      assert Keys(freq)[i] != Keys(freq)[j];
    }
  }

  /** No keyword has two sorted entries. */
  lemma SortedDistinct(text: string)
    ensures var sorted := SortedFrequencies(text);
      forall i, j :: 0 <= i < j < |sorted| ==> sorted[i].0 != sorted[j].0
  {
    var freq, sorted := Frequencies(KeywordTokens(text)), SortedFrequencies(text);
    Sorting.SortDescSpec(freq, CountKey());
    FrequenciesNoDups(KeywordTokens(text));
    PermutationNoDups(freq, sorted);
    forall i, j | 0 <= i < j < |sorted| ensures sorted[i].0 != sorted[j].0 {
      SortedEntry(text, i);
      SortedEntry(text, j);
      assert sorted[i] != sorted[j];
    }
  }

  /** The sorted counts never increase. */
  lemma SortedOrder(text: string)
    ensures var sorted := SortedFrequencies(text);
      forall i, j :: 0 <= i < j < |sorted| ==> sorted[i].1 >= sorted[j].1
  {
    var freq, sorted := Frequencies(KeywordTokens(text)), SortedFrequencies(text);
    var key := CountKey();
    Sorting.SortDescSpec(freq, key);
    forall i, j | 0 <= i < j < |sorted| ensures sorted[i].1 >= sorted[j].1 {
      assert key(sorted[i]) >= key(sorted[j]);
    }
  }

  /**
   * At most thirty keywords, each once, each a lower-case word of three or
   * more letters that is not a common word, most frequent first.
   */
  lemma KeywordsSpec(text: string)
    ensures var ws, r := KeywordTokens(text), KeywordsOf(text);
      && |r| <= 30 && NoDups(r)
      && (forall i :: 0 <= i < |r| ==> r[i] in ws && IsKeyword(r[i]))
      && (forall i, j :: 0 <= i < j < |r| ==> multiset(ws)[r[i]] >= multiset(ws)[r[j]])
  {
    var ws, sorted, r := KeywordTokens(text), SortedFrequencies(text), KeywordsOf(text);
    SortedDistinct(text);
    SortedOrder(text);
    assert forall i :: 0 <= i < |r| ==> r[i] == sorted[i].0;
    forall i | 0 <= i < |r| ensures r[i] in ws && IsKeyword(r[i]) && multiset(ws)[r[i]] == sorted[i].1 {
      SortedEntry(text, i);
      KeywordTokensSpec(text, r[i]);
    }
  }

  /** A keyword left out is no more frequent than any of the thirty listed. */
  lemma KeywordsLeftOut(text: string, w: string)
    requires w in KeywordTokens(text) && w !in KeywordsOf(text)
    ensures var ws, r := KeywordTokens(text), KeywordsOf(text);
      |r| == 30 && forall i :: 0 <= i < 30 ==> multiset(ws)[r[i]] >= multiset(ws)[w]
  {
    var ws, sorted, r := KeywordTokens(text), SortedFrequencies(text), KeywordsOf(text);
    SortedCovers(text, w);
    SortedOrder(text);
    var p :| 0 <= p < |sorted| && sorted[p].0 == w;
    assert forall i :: 0 <= i < |r| ==> r[i] == sorted[i].0;
    assert p >= |r|;
    SortedEntry(text, p);
    forall i | 0 <= i < 30 ensures multiset(ws)[r[i]] >= multiset(ws)[w] {
      SortedEntry(text, i);
    }
  }

  // ---------------------------------------------------------------------
  // Requirements of analyze_job_description
  // ---------------------------------------------------------------------

  /** The labels of the four requirement patterns, in the order they are tried. */
  const RequirementLabels: seq<string> := ["required", "requirements", "qualifications", "must have"]

  /** The leftmost occurrence of `kw` at or after `from`. */
  function FirstOccurrence(t: string, kw: string, from: nat): (r: Option<nat>)
    ensures r.Some? ==> from <= r.value && OccursAt(t, kw, r.value)
    ensures r.Some? ==> forall p :: from <= p < r.value ==> !OccursAt(t, kw, p)
    ensures r.None? ==> forall p :: from <= p ==> !OccursAt(t, kw, p)
    decreases |t| + 1 - from
  {
    if from > |t| then None
    else if OccursAt(t, kw, from) then Some(from)
    else FirstOccurrence(t, kw, from + 1)
  }

  /** The greedy `\s*` from `q`. */
  function WhitespaceEnd(t: string, q: nat): (w: nat)
    requires q <= |t|
    ensures q <= w <= |t|
    ensures forall k :: q <= k < w ==> IsSpace(t[k])
    ensures w == |t| || !IsSpace(t[w])
    decreases |t| - q
  {
    if q < |t| && IsSpace(t[q]) then WhitespaceEnd(t, q + 1) else q
  }

  /**
   * The capture of `kw:?\s*(.+?)(?:\n\n|\Z)`, with `.` matching newlines, at
   * its first match in `t`. The capture needs one character: when the colon
   * and the whitespace run to the end of the text, the engine gives back the
   * last whitespace character, or else the colon.
   */
  function RequirementCapture(t: string, kw: string): (r: Option<string>)
    ensures r.Some? ==> r.value != []
  {
    match FirstOccurrence(t, kw, 0)
    case None => None
    case Some(p) =>
      var q := p + |kw|;
      if q == |t| then None
      else
        var start := CaptureStart(t, q);
        Some(t[start..JDSkillExtractor.CaptureEnd(t, start + 1)])
  }

  /**
   * Where the capture group starts once the label ends at `q`: after an optional
   * colon and the greedy `\s*`, which gives back one character when nothing follows
   * it, since the group needs at least one.
   */
  function CaptureStart(t: string, q: nat): (start: nat)
    requires q < |t|
    ensures q <= start < |t|
  {
    var c := if t[q] == ':' then q + 1 else q;
    var w := WhitespaceEnd(t, c);
    if w < |t| then w else if w > c then w - 1 else q
  }

  /** The pattern fails exactly when no occurrence of the label has a character after it. */
  lemma RequirementCaptureNone(t: string, kw: string)
    ensures RequirementCapture(t, kw).None? <==> forall p: nat :: p + |kw| < |t| ==> !OccursAt(t, kw, p)
  {
    match FirstOccurrence(t, kw, 0)
    case None =>
    case Some(p) =>
      if p + |kw| < |t| {
        assert OccursAt(t, kw, p);
      } else {
        forall p': nat | p' + |kw| < |t| ensures !OccursAt(t, kw, p') {
          assert p' < p;
        }
      }
  }

  /** A capture is a slice of the text that runs to a blank line or the end and holds no blank line after its first character. */
  lemma RequirementCaptureShape(t: string, kw: string)
    requires RequirementCapture(t, kw).Some?
    ensures exists a, e ::
      && 0 <= a < e <= |t|
      && RequirementCapture(t, kw).value == t[a..e]
      && (e == |t| || JDSkillExtractor.BlankLineAt(t, e))
      && (forall k :: a < k < e ==> !JDSkillExtractor.BlankLineAt(t, k))
  {
    var q := FirstOccurrence(t, kw, 0).value + |kw|;
    var start := CaptureStart(t, q);
    var e := JDSkillExtractor.CaptureEnd(t, start + 1);
    assert RequirementCapture(t, kw).value == t[start..e];
  }

  function NonBlank(): string -> bool {
    s => s != []
  }

  /** `[r.strip() for r in capture.split('\n') if r.strip()]`. */
  function RequirementLines(capture: string): seq<string> {
    Filter(MapAll(SplitLines(capture), StripLine()), NonBlank())
  }

  /** A requirement line: non-empty, without surrounding whitespace and without a newline. */
  predicate RequirementShape(s: string) {
    s != [] && !IsSpace(s[0]) && !IsSpace(s[|s| - 1]) && '\n' !in s
  }

  /** A stripped line with no newline is a requirement line when it is not empty. */
  lemma StrippedLineShape(line: string)
    requires '\n' !in line && Strip(line) != []
    ensures RequirementShape(Strip(line))
  {
    var a := StripSlice(line);
  }

  lemma RequirementLinesSpec(capture: string, x: string)
    requires x in RequirementLines(capture)
    ensures RequirementShape(x)
  {
    var lines := SplitLines(capture);
    var stripped := MapAll(lines, StripLine());
    FilterMember(stripped, NonBlank(), x);
    var j :| 0 <= j < |stripped| && stripped[j] == x;
    MapAllIndex(lines, StripLine(), j);
    StrippedLineShape(lines[j]);
  }

  /** The lines one label contributes. */
  function LabelRequirements(t: string, kw: string): seq<string> {
    match RequirementCapture(t, kw)
    case None => []
    case Some(c) => RequirementLines(c)
  }

  /** `requirements.extend(...)` for each label in turn. */
  function RequirementsFrom(t: string, labels: seq<string>): seq<string> {
    if labels == [] then []
    else RequirementsFrom(t, labels[..|labels| - 1]) + LabelRequirements(t, labels[|labels| - 1])
  }

  lemma {:induction false} RequirementsFromSpec(t: string, labels: seq<string>, x: string)
    requires x in RequirementsFrom(t, labels)
    ensures RequirementShape(x)
  {
    if labels != [] {
      var init, kw := labels[..|labels| - 1], labels[|labels| - 1];
      if x in RequirementsFrom(t, init) {
        RequirementsFromSpec(t, init, x);
      } else {
        match RequirementCapture(t, kw)
        case None =>
        case Some(c) => RequirementLinesSpec(c, x);
      }
    }
  }

  /** The requirement loop of `analyze_job_description`. */
  method CollectRequirements(t: string, labels: seq<string>) returns (requirements: seq<string>)
    ensures requirements == RequirementsFrom(t, labels)
  {
    requirements := [];
    for k := 0 to |labels|
      invariant requirements == RequirementsFrom(t, labels[..k])
    {
      assert labels[..k + 1][..k] == labels[..k];
      match RequirementCapture(t, labels[k])
      case Some(capture) =>
        requirements := requirements + RequirementLines(capture);
      case None =>
    }
    assert labels[..|labels|] == labels;
  }

  /** The requirements part of `analyze_job_description`. */
  method ExtractRequirements(jdText: string) returns (requirements: seq<string>)
    ensures requirements == RequirementsOf(jdText)
  {
    var all := CollectRequirements(LowerStr(jdText), RequirementLabels);
    requirements := if all != [] then Take(all, 10) else [];
  }

  /** `jd_requirements`: the first ten requirement lines. */
  function RequirementsOf(jdText: string): seq<string> {
    Take(RequirementsFrom(LowerStr(jdText), RequirementLabels), 10)
  }

  /** At most ten requirements, each a non-empty stripped line. */
  lemma RequirementsSpec(jdText: string)
    ensures |RequirementsOf(jdText)| <= 10
    ensures forall k :: 0 <= k < |RequirementsOf(jdText)| ==> RequirementShape(RequirementsOf(jdText)[k])
  {
    var all := RequirementsFrom(LowerStr(jdText), RequirementLabels);
    forall k | 0 <= k < |RequirementsOf(jdText)| ensures RequirementShape(RequirementsOf(jdText)[k]) {
      assert RequirementsOf(jdText)[k] == all[k];
      RequirementsFromSpec(LowerStr(jdText), RequirementLabels, all[k]);
    }
  }

  // ---------------------------------------------------------------------
  // compare_resume_to_jd
  // ---------------------------------------------------------------------

  /** Either skill's lowercased name occurs in the other's. */
  predicate Related(jdSkill: string, skill: string) {
    Contains(LowerStr(skill), LowerStr(jdSkill)) || Contains(LowerStr(jdSkill), LowerStr(skill))
  }

  /** Some skill of `skills` is related to `skill`. */
  predicate AnyRelated(skill: string, skills: seq<string>) {
    exists k :: 0 <= k < |skills| && Related(skill, skills[k])
  }

  /** `set(jd_skill.lower().split()) & set(' '.join(resume_skills).lower().split())` is not empty. */
  predicate SharesWord(jdSkill: string, resumeSkills: seq<string>) {
    var jdWords := Words(LowerStr(jdSkill));
    var resumeWords := Words(LowerStr(Join(resumeSkills, " ")));
    exists i :: 0 <= i < |jdWords| && jdWords[i] in resumeWords
  }

  datatype Kind = Matched | Partial | Missing

  /** Where the skill loop files a job-description skill. */
  function KindOf(jdSkill: string, resumeSkills: seq<string>): Kind {
    if AnyRelated(jdSkill, resumeSkills) then Matched
    else if SharesWord(jdSkill, resumeSkills) then Partial
    else Missing
  }

  function OfKind(resumeSkills: seq<string>, kind: Kind): string -> bool {
    s => KindOf(s, resumeSkills) == kind
  }

  /** The job-description skills filed under `kind`, in order. */
  function SkillsOfKind(jdSkills: seq<string>, resumeSkills: seq<string>, kind: Kind): seq<string> {
    Filter(jdSkills, OfKind(resumeSkills, kind))
  }

  /** The inner loop: stops at the first related resume skill. */
  method FindRelated(jdSkill: string, resumeSkills: seq<string>) returns (found: bool)
    ensures found <==> AnyRelated(jdSkill, resumeSkills)
  {
    found := false;
    for j := 0 to |resumeSkills|
      invariant forall m :: 0 <= m < j ==> !Related(jdSkill, resumeSkills[m])
    {
      if Related(jdSkill, resumeSkills[j]) {
        found := true;
        break;
      }
    }
  }

  /** The skill loop of `compare_resume_to_jd`. */
  method ClassifySkills(jdSkills: seq<string>, resumeSkills: seq<string>)
    returns (matched: seq<string>, partial: seq<string>, missing: seq<string>)
    ensures matched == SkillsOfKind(jdSkills, resumeSkills, Matched)
    ensures partial == SkillsOfKind(jdSkills, resumeSkills, Partial)
    ensures missing == SkillsOfKind(jdSkills, resumeSkills, Missing)
  {
    matched, partial, missing := [], [], [];
    for i := 0 to |jdSkills|
      invariant matched == SkillsOfKind(jdSkills[..i], resumeSkills, Matched)
      invariant partial == SkillsOfKind(jdSkills[..i], resumeSkills, Partial)
      invariant missing == SkillsOfKind(jdSkills[..i], resumeSkills, Missing)
    {
      var jdSkill := jdSkills[i];
      FilterStep(jdSkills, OfKind(resumeSkills, Matched), i);
      FilterStep(jdSkills, OfKind(resumeSkills, Partial), i);
      FilterStep(jdSkills, OfKind(resumeSkills, Missing), i);
      var found := FindRelated(jdSkill, resumeSkills);
      if found {
        matched := matched + [jdSkill];
      } else if SharesWord(jdSkill, resumeSkills) {
        partial := partial + [jdSkill];
      } else {
        missing := missing + [jdSkill];
      }
    }
    assert jdSkills[..|jdSkills|] == jdSkills;
  }

  /** Every job-description skill is filed under exactly one kind, so the three lists share out the skills. */
  lemma {:induction false} SkillPartition(jdSkills: seq<string>, resumeSkills: seq<string>)
    ensures |SkillsOfKind(jdSkills, resumeSkills, Matched)| + |SkillsOfKind(jdSkills, resumeSkills, Partial)|
      + |SkillsOfKind(jdSkills, resumeSkills, Missing)| == |jdSkills|
  {
    if jdSkills != [] {
      SkillPartition(jdSkills[..|jdSkills| - 1], resumeSkills);
    }
  }

  /** A skill is matched when a resume skill is related to it, partial when it only shares a word, missing otherwise. */
  lemma SkillKinds(jdSkills: seq<string>, resumeSkills: seq<string>, x: string)
    ensures x in SkillsOfKind(jdSkills, resumeSkills, Matched) <==> x in jdSkills && AnyRelated(x, resumeSkills)
    ensures x in SkillsOfKind(jdSkills, resumeSkills, Partial) <==>
      x in jdSkills && !AnyRelated(x, resumeSkills) && SharesWord(x, resumeSkills)
    ensures x in SkillsOfKind(jdSkills, resumeSkills, Missing) <==>
      x in jdSkills && !AnyRelated(x, resumeSkills) && !SharesWord(x, resumeSkills)
  {
    FilterMember(jdSkills, OfKind(resumeSkills, Matched), x);
    FilterMember(jdSkills, OfKind(resumeSkills, Partial), x);
    FilterMember(jdSkills, OfKind(resumeSkills, Missing), x);
  }

  /** A resume skill related to no job-description skill. */
  function Unrelated(jdSkills: seq<string>): string -> bool {
    s => !AnyRelated(s, jdSkills)
  }

  /** The extra-skill loop of `compare_resume_to_jd`. */
  method CollectExtraSkills(resumeSkills: seq<string>, jdSkills: seq<string>) returns (extra: seq<string>)
    ensures extra == Filter(resumeSkills, Unrelated(jdSkills))
  {
    extra := [];
    for i := 0 to |resumeSkills|
      invariant extra == Filter(resumeSkills[..i], Unrelated(jdSkills))
    {
      FilterStep(resumeSkills, Unrelated(jdSkills), i);
      if !AnyRelated(resumeSkills[i], jdSkills) {
        extra := extra + [resumeSkills[i]];
      }
    }
    assert resumeSkills[..|resumeSkills|] == resumeSkills;
  }

  /** A resume skill is extra exactly when no job-description skill is related to it. */
  lemma ExtraSkillsSpec(resumeSkills: seq<string>, jdSkills: seq<string>, x: string)
    ensures x in Filter(resumeSkills, Unrelated(jdSkills)) <==>
      x in resumeSkills && forall k :: 0 <= k < |jdSkills| ==> !Related(jdSkills[k], x)
  {
    FilterMember(resumeSkills, Unrelated(jdSkills), x);
  }

  /** The keyword loop: the first twenty job-description keywords that the resume also has. */
  method MatchKeywords(jdKeywords: seq<string>, resumeKeywords: seq<string>) returns (matched: seq<string>)
    ensures matched == Filter(Take(jdKeywords, 20), InWords(resumeKeywords))
  {
    var top := Take(jdKeywords, 20);
    matched := [];
    for i := 0 to |top|
      invariant matched == Filter(top[..i], InWords(resumeKeywords))
    {
      FilterStep(top, InWords(resumeKeywords), i);
      if top[i] in resumeKeywords {
        matched := matched + [top[i]];
      }
    }
    assert top[..|top|] == top;
  }

  /** `[k for k in jd_keywords[:20] if k not in matched_keywords]`. */
  function MissingKeywords(jdKeywords: seq<string>, matched: seq<string>): seq<string> {
    Filter(Take(jdKeywords, 20), NotInWords(matched))
  }

  /** Filtering by two tests that agree on every element gives the same list. */
  lemma {:induction false} FilterAgree<T>(xs: seq<T>, p: T -> bool, q: T -> bool)
    requires forall i :: 0 <= i < |xs| ==> p(xs[i]) == q(xs[i])
    ensures Filter(xs, p) == Filter(xs, q)
  {
    if xs != [] {
      FilterAgree(xs[..|xs| - 1], p, q);
    }
  }

  /**
   * Matched and missing keywords share out the first twenty job-description
   * keywords, each in their original order: a keyword is matched exactly when
   * the resume has it.
   */
  lemma KeywordSplit(jdKeywords: seq<string>, resumeKeywords: seq<string>, x: string)
    ensures var top := Take(jdKeywords, 20);
      var matched := Filter(top, InWords(resumeKeywords));
      var missing := MissingKeywords(jdKeywords, matched);
      && (x in matched <==> x in top && x in resumeKeywords)
      && (x in missing <==> x in top && x !in resumeKeywords)
      && IsSubsequence(matched, top) && IsSubsequence(missing, top)
      && |matched| + |missing| == |top|
  {
    var top := Take(jdKeywords, 20);
    var matched := Filter(top, InWords(resumeKeywords));
    forall y | y in top ensures y in matched <==> y in resumeKeywords {
      FilterMember(top, InWords(resumeKeywords), y);
    }
    FilterMember(top, InWords(resumeKeywords), x);
    FilterAgree(top, NotInWords(matched), NotInWords(resumeKeywords));
    FilterMember(top, NotInWords(resumeKeywords), x);
    FilterSubsequence(top, InWords(resumeKeywords));
    FilterSubsequence(top, NotInWords(resumeKeywords));
    FilterSplit(top, InWords(resumeKeywords), NotInWords(resumeKeywords));
  }

  function Min(a: int, b: int): int {
    if a < b then a else b
  }

  /** `min(len(extra_skills) * 2, 10)`. */
  function ExtraBonus(nExtra: nat): (b: nat)
    ensures b <= 10 && (b == 10 <==> nExtra >= 5)
  {
    Min(nExtra * 2, 10)
  }

  /** `min(skill * 0.6 + keyword * 0.4 + bonus, 100)`. */
  function OverallScore(skillScore: real, keywordScore: real, bonus: nat): real {
    var s := skillScore * 0.6 + keywordScore * 0.4 + bonus as real;
    if s < 100.0 then s else 100.0
  }

  /** Shares in [0, 100] and a bonus of at most 10 give an overall score in [0, 100]; full shares give 100. */
  lemma OverallScoreSpec(skillScore: real, keywordScore: real, bonus: nat)
    requires 0.0 <= skillScore <= 100.0 && 0.0 <= keywordScore <= 100.0 && bonus <= 10
    ensures 0.0 <= OverallScore(skillScore, keywordScore, bonus) <= 100.0
    ensures skillScore == 100.0 && keywordScore == 100.0 ==> OverallScore(skillScore, keywordScore, bonus) == 100.0
    ensures skillScore + keywordScore + bonus as real == 0.0 ==> OverallScore(skillScore, keywordScore, bonus) == 0.0
  {
  }

  /** The result of `compare_resume_to_jd` (scores unrounded). */
  datatype Comparison = Comparison(
    personName: string,
    filename: string,
    overallScore: real,
    skillMatchScore: real,
    keywordMatchScore: real,
    atsScore: int,
    matchedSkills: seq<string>,
    partialSkills: seq<string>,
    missingSkills: seq<string>,
    extraSkills: seq<string>,
    matchedKeywords: seq<string>,
    missingKeywords: seq<string>,
    resumeSkills: seq<string>,
    yearsExperience: nat,
    totalJdSkills: nat,
    totalJdKeywords: nat)

  /** The result of `analyze_job_description`. */
  datatype JdAnalysis = JdAnalysis(skills: seq<string>, keywords: seq<string>, requirements: seq<string>)

  // ---------------------------------------------------------------------
  // The analyser
  // ---------------------------------------------------------------------

  /** What `analyze_job_description` stores and returns for a description. */
  function JdAnalysisOf(jdText: string, expMatches: seq<string>): JdAnalysis
  {
    JdAnalysis(SkillsOf(jdText, expMatches), KeywordsOf(jdText), RequirementsOf(jdText))
  }

  /**
   * What `compare_resume_to_jd` reports once the resume's name, skills,
   * keywords, ATS score and years are extracted: the three-way split of the
   * description's skills, the resume skills related to none of them, the
   * keyword split over the first twenty description keywords, and the
   * scores built from those counts.
   */
  function ComparisonFrom(jdSkills: seq<string>, jdKeywords: seq<string>, personName: string, filename: string,
                          resumeSkills: seq<string>, resumeKeywords: seq<string>, atsScore: int, years: nat): Comparison
  {
    var matched := SkillsOfKind(jdSkills, resumeSkills, Matched);
    var extra := Filter(resumeSkills, Unrelated(jdSkills));
    var matchedKeywords := Filter(Take(jdKeywords, 20), InWords(resumeKeywords));
    var skillScore := Percentage(|matched|, |jdSkills|);
    var keywordScore := Percentage(|matchedKeywords|, Min(20, |jdKeywords|));
    Comparison(personName, filename,
      OverallScore(skillScore, keywordScore, ExtraBonus(|extra|)), skillScore, keywordScore, atsScore,
      matched, SkillsOfKind(jdSkills, resumeSkills, Partial), SkillsOfKind(jdSkills, resumeSkills, Missing),
      extra, matchedKeywords, MissingKeywords(jdKeywords, matchedKeywords),
      resumeSkills, years, |jdSkills|, |Take(jdKeywords, 20)|)
  }

  /** `compare_resume_to_jd` on a resume text, against a stored description. */
  function ComparisonOf(jdSkills: seq<string>, jdKeywords: seq<string>, resumeText: string, resumeFilename: string,
                        nameMatches: seq<string>, expMatches: seq<string>, yearsFound: seq<nat>,
                        hasEmail: bool, hasPhone: bool): (c: Comparison)
    ensures 50 <= c.atsScore <= 100
  {
    AtsScoreSpec(resumeText, hasEmail, hasPhone);
    ComparisonFrom(jdSkills, jdKeywords, PersonName(resumeText, nameMatches), resumeFilename,
      SkillsOf(resumeText, expMatches), KeywordsOf(resumeText), AtsScore(resumeText, hasEmail, hasPhone),
      YearsOf(yearsFound))
  }

  /**
   * The comparison's figures: the three skill lists share out the
   * description's skills, the keyword lists share out the first twenty
   * description keywords, every score lies in [0, 100], a description
   * without skills scores 0 on skills, and full matches on both skills and
   * keywords score 100 overall.
   */
  lemma ComparisonScores(jdSkills: seq<string>, jdKeywords: seq<string>, personName: string, filename: string,
                         resumeSkills: seq<string>, resumeKeywords: seq<string>, atsScore: int, years: nat)
    ensures var c := ComparisonFrom(jdSkills, jdKeywords, personName, filename, resumeSkills, resumeKeywords,
                                    atsScore, years);
      && |c.matchedSkills| + |c.partialSkills| + |c.missingSkills| == c.totalJdSkills == |jdSkills|
      && c.totalJdKeywords == |c.matchedKeywords| + |c.missingKeywords| <= 20
      && 0.0 <= c.skillMatchScore <= 100.0 && 0.0 <= c.keywordMatchScore <= 100.0
      && 0.0 <= c.overallScore <= 100.0
      && (jdSkills == [] ==> c.skillMatchScore == 0.0)
      && (c.skillMatchScore == 100.0 && c.keywordMatchScore == 100.0 ==> c.overallScore == 100.0)
  {
    SkillPartition(jdSkills, resumeSkills);
    var top := Take(jdKeywords, 20);
    assert |top| == Min(20, |jdKeywords|);
    KeywordSplit(jdKeywords, resumeKeywords, "");
    var matched := SkillsOfKind(jdSkills, resumeSkills, Matched);
    var matchedKeywords := Filter(top, InWords(resumeKeywords));
    OverallScoreSpec(Percentage(|matched|, |jdSkills|), Percentage(|matchedKeywords|, Min(20, |jdKeywords|)),
      ExtraBonus(|Filter(resumeSkills, Unrelated(jdSkills))|));
  }

  /** The loops of `compare_resume_to_jd`, over the already extracted resume data. */
  method CompareExtracted(jdSkills: seq<string>, jdKeywords: seq<string>, personName: string, filename: string,
                          resumeSkills: seq<string>, resumeKeywords: seq<string>, atsScore: int, years: nat)
    returns (c: Comparison)
    ensures c == ComparisonFrom(jdSkills, jdKeywords, personName, filename, resumeSkills, resumeKeywords,
                                atsScore, years)
  {
    var matched, partial, missing := ClassifySkills(jdSkills, resumeSkills);
    var extra := CollectExtraSkills(resumeSkills, jdSkills);
    var matchedKeywords := MatchKeywords(jdKeywords, resumeKeywords);
    var skillScore := Percentage(|matched|, |jdSkills|);
    var keywordScore := Percentage(|matchedKeywords|, Min(20, |jdKeywords|));
    var overall := OverallScore(skillScore, keywordScore, ExtraBonus(|extra|));
    c := Comparison(personName, filename, overall, skillScore, keywordScore, atsScore,
      matched, partial, missing, extra, matchedKeywords, MissingKeywords(jdKeywords, matchedKeywords),
      resumeSkills, years, |jdSkills|, |Take(jdKeywords, 20)|);
  }

  class ResumeAnalyzer {
    var jdSkills: seq<string>
    var jdKeywords: seq<string>
    var jdRequirements: seq<string>

    constructor ()
      ensures jdSkills == [] && jdKeywords == [] && jdRequirements == []
    {
      jdSkills := [];
      jdKeywords := [];
      jdRequirements := [];
    }

    /** `extract_person_name`: the loop over the first five lines, then the fallbacks. */
    method ExtractPersonName(text: string, nameMatches: seq<string>) returns (name: string)
      ensures name == PersonName(text, nameMatches)
    {
      var lines := Take(SplitLines(Strip(text)), 5);
      ghost var heads := HeadLines(text);
      for i := 0 to |lines|
        invariant FirstWhere(heads, NameLineTest()) == FirstWhere(heads[i..], NameLineTest())
      {
        var line := Strip(lines[i]);
        MapAllIndex(lines, StripLine(), i);
        FirstWhereStep(heads, NameLineTest(), i);
        if IsNameLine(line) {
          return line;
        }
      }
      assert heads[|lines|..] == [];
      name := FallbackName(nameMatches);
    }

    /** `extract_skills`: the skill set, listed in order of first addition. */
    method ExtractSkills(text: string, expMatches: seq<string>) returns (skills: seq<string>)
      ensures skills == SkillsOf(text, expMatches)
    {
      skills := CollectSkills(LowerStr(text), expMatches, AllSkills, EducationKeywords, CertificationKeywords);
    }

    /** `extract_keywords`. */
    method ExtractKeywords(text: string) returns (keywords: seq<string>)
      ensures keywords == KeywordsOf(text)
    {
      var words := LowerWordsFrom(LowerStr(text), 0);
      var tokens := Filter(words, NotInWords(CommonWords));
      var freq := CountFrequencies(tokens);
      var sorted := Sorting.SortDesc(freq, CountKey());
      keywords := Keys(Take(sorted, 30));
    }

    /** `calculate_ats_score`: deductions from 100, floored at 0. */
    method CalculateAtsScore(text: string, hasEmail: bool, hasPhone: bool) returns (score: int)
      ensures score == AtsScore(text, hasEmail, hasPhone)
    {
      score := 100;
      if |text| < 500 {
        score := score - 20;
      }
      if !ContainsAny(LowerStr(text), SectionWords) {
        score := score - 15;
      }
      if !hasEmail {
        score := score - 10;
      }
      if !hasPhone {
        score := score - 5;
      }
      if score < 0 {
        score := 0;
      }
    }

    /** Replaces the stored description by `a`. */
    method Store(a: JdAnalysis)
      modifies this
      ensures jdSkills == a.skills && jdKeywords == a.keywords && jdRequirements == a.requirements
    {
      jdSkills, jdKeywords, jdRequirements := a.skills, a.keywords, a.requirements;
    }

    /** The three results of `analyze_job_description`, computed without storing them. */
    method AnalyzeJd(jdText: string, expMatches: seq<string>) returns (r: JdAnalysis)
      ensures r == JdAnalysisOf(jdText, expMatches)
    {
      var skills := ExtractSkills(jdText, expMatches);
      var keywords := ExtractKeywords(jdText);
      var requirements := ExtractRequirements(jdText);
      r := JdAnalysis(skills, keywords, requirements);
    }

    /**
     * `analyze_job_description`: replaces the stored skills, keywords and
     * requirements with those of the new description.
     */
    method AnalyzeJobDescription(jdText: string, expMatches: seq<string>) returns (r: JdAnalysis)
      modifies this
      ensures jdSkills == SkillsOf(jdText, expMatches)
      ensures jdKeywords == KeywordsOf(jdText)
      ensures jdRequirements == RequirementsOf(jdText)
      ensures r == JdAnalysis(jdSkills, jdKeywords, jdRequirements)
    {
      r := AnalyzeJd(jdText, expMatches);
      Store(r);
    }

    /**
     * `compare_resume_to_jd` against the stored description: the skill
     * partition, the extra skills, the keyword split and the scores.
     */
    method CompareResumeToJd(resumeText: string, resumeFilename: string, nameMatches: seq<string>,
                             expMatches: seq<string>, yearsFound: seq<nat>, hasEmail: bool, hasPhone: bool)
      returns (c: Comparison)
      ensures c == ComparisonOf(jdSkills, jdKeywords, resumeText, resumeFilename, nameMatches, expMatches,
                                yearsFound, hasEmail, hasPhone)
    {
      var personName := ExtractPersonName(resumeText, nameMatches);
      var resumeSkills := ExtractSkills(resumeText, expMatches);
      var resumeKeywords := ExtractKeywords(resumeText);
      var ats := CalculateAtsScore(resumeText, hasEmail, hasPhone);
      c := CompareExtracted(jdSkills, jdKeywords, personName, resumeFilename, resumeSkills, resumeKeywords,
        ats, YearsOf(yearsFound));
    }
  }
}
