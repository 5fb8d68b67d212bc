/**
 * The job-description skill extractor: taxonomy skills of the whole
 * description or of its "required" and "preferred" sections, the
 * experience and education requirements, and the most frequently named
 * key technologies.
 */
module JDSkillExtractor {
  import opened TextUtil
  import opened Taxonomy
  import Sorting

  /** `_extract_skills_from_text`: nothing for empty text, otherwise the taxonomy skills found in it. */
  method ExtractSkillsFromText(tax: Skills, text: string) returns (found: Skills)
    ensures text == [] ==> found == []
    ensures text != [] ==> found == FoundSkills(tax, LowerStr(text))
  {
    if text == [] {
      return [];
    }
    found := MatchTaxonomy(tax, LowerStr(text));
  }

  // ---------------------------------------------------------------------
  // Sections: `keyword[:\s]+(.*?)(?=\n\n|\Z)` searched with DOTALL
  // ---------------------------------------------------------------------

  const RequiredKeywords: seq<string> := ["required", "must have", "requirements"]
  const PreferredKeywords: seq<string> := ["preferred", "nice to have", "bonus"]

  /** The class `[:\s]`. */
  predicate IsSeparator(c: char) {
    c == ':' || IsSpace(c)
  }

  /** `keyword[:\s]` matches at `p`: the keyword followed by at least one separator. */
  predicate HeadingAt(t: string, kw: string, p: nat) {
    p + |kw| < |t| && t[p..p + |kw|] == kw && IsSeparator(t[p + |kw|])
  }

  /** A blank line, `\n\n`, starts at `k`. */
  predicate BlankLineAt(t: string, k: nat) {
    k + 1 < |t| && t[k] == '\n' && t[k + 1] == '\n'
  }

  /** The leftmost heading at or after `from`. */
  function FindHeading(t: string, kw: string, from: nat): (r: Option<nat>)
    decreases |t| + 1 - from
    ensures r.Some? ==> from <= r.value && HeadingAt(t, kw, r.value)
    ensures r.Some? ==> forall p :: from <= p < r.value ==> !HeadingAt(t, kw, p)
    ensures r.None? ==> forall p :: from <= p ==> !HeadingAt(t, kw, p)
  {
    if from >= |t| then None
    else if HeadingAt(t, kw, from) then Some(from)
    else FindHeading(t, kw, from + 1)
  }

  /** The greedy `[:\s]+` run starting at `q` ends at the first non-separator. */
  function SeparatorsEnd(t: string, q: nat): (e: nat)
    requires q <= |t|
    decreases |t| - q
    ensures q <= e <= |t|
    ensures forall k :: q <= k < e ==> IsSeparator(t[k])
    ensures e < |t| ==> !IsSeparator(t[e])
  {
    if q == |t| || !IsSeparator(t[q]) then q else SeparatorsEnd(t, q + 1)
  }

  /** The lazy `(.*?)` stops at the first blank line at or after `q`, or at the end. */
  function CaptureEnd(t: string, q: nat): (e: nat)
    requires q <= |t|
    decreases |t| - q
    ensures q <= e <= |t|
    ensures e == |t| || BlankLineAt(t, e)
    ensures forall k :: q <= k < e ==> !BlankLineAt(t, k)
  {
    if q == |t| || BlankLineAt(t, q) then q else CaptureEnd(t, q + 1)
  }

  /** The capture of the section pattern for one keyword on the lowercased text. */
  function SectionFor(t: string, kw: string): (r: Option<string>)
    ensures r.None? <==> forall p :: !HeadingAt(t, kw, p)
  {
    match FindHeading(t, kw, 0)
    case None => None
    case Some(p) =>
      var q := SeparatorsEnd(t, p + |kw|);
      Some(t[q..CaptureEnd(t, q)])
  }

  /**
   * The capture `s` comes from the leftmost heading at `p`: after the keyword
   * and its maximal run of separators it starts at `q`, and it runs to the
   * first blank line or the end of the text.
   */
  ghost predicate SectionShape(t: string, kw: string, p: nat, q: nat, s: string) {
    HeadingAt(t, kw, p)
    && (forall p' :: 0 <= p' < p ==> !HeadingAt(t, kw, p'))
    && p + |kw| < q <= |t|
    && (forall k :: p + |kw| <= k < q ==> IsSeparator(t[k]))
    && (q < |t| ==> !IsSeparator(t[q]))
    && q + |s| <= |t| && t[q..q + |s|] == s
    && (q + |s| == |t| || BlankLineAt(t, q + |s|))
    && (forall k :: q <= k < q + |s| ==> !BlankLineAt(t, k))
  }

  lemma SectionForSpec(t: string, kw: string)
    ensures match SectionFor(t, kw)
      case None => forall p :: !HeadingAt(t, kw, p)
      case Some(s) => exists p, q :: SectionShape(t, kw, p, q, s)
  {
    match FindHeading(t, kw, 0)
    case None =>
    case Some(p) =>
      var q := SeparatorsEnd(t, p + |kw|);
      var s := t[q..CaptureEnd(t, q)];
      assert SectionShape(t, kw, p, q, s);
  }

  /** `_extract_section`: the capture for the first keyword, in list order, that has a heading. */
  function ExtractSection(text: string, keywords: seq<string>): (r: Option<string>)
  {
    if keywords == [] then None
    else match SectionFor(LowerStr(text), keywords[0])
      case Some(s) => Some(s)
      case None => ExtractSection(text, keywords[1..])
  }

  /** No section when no keyword has a heading; otherwise the first keyword with one decides. */
  lemma {:induction false} ExtractSectionSpec(text: string, keywords: seq<string>)
    ensures var t := LowerStr(text);
      ExtractSection(text, keywords).None? <==> forall k, p :: 0 <= k < |keywords| ==> !HeadingAt(t, keywords[k], p)
    ensures var t := LowerStr(text); var r := ExtractSection(text, keywords);
      r.Some? ==> exists k :: (0 <= k < |keywords| && SectionFor(t, keywords[k]) == r
        && forall k' :: 0 <= k' < k ==> SectionFor(t, keywords[k']).None?)
  {
    var t := LowerStr(text);
    if keywords != [] {
      ExtractSectionSpec(text, keywords[1..]);
      var r := ExtractSection(text, keywords);
      if SectionFor(t, keywords[0]).None? {
        if r.Some? {
          var k :| 0 <= k < |keywords[1..]| && SectionFor(t, keywords[1..][k]) == r
            && forall k' :: 0 <= k' < k ==> SectionFor(t, keywords[1..][k']).None?;
          assert SectionFor(t, keywords[k + 1]) == r;
          forall k' | 0 <= k' < k + 1 ensures SectionFor(t, keywords[k']).None? {
            if k' > 0 {
              assert keywords[k'] == keywords[1..][k' - 1];
            }
          }
        } else {
          forall k, p | 0 <= k < |keywords| ensures !HeadingAt(t, keywords[k], p) {
            if k > 0 {
              assert keywords[k] == keywords[1..][k - 1];
            }
          }
        }
      }
    }
  }

  /** The empty description has no section at all. */
  lemma NoSectionInEmptyText(keywords: seq<string>)
    ensures ExtractSection("", keywords).None?
  {
    ExtractSectionSpec("", keywords);
  }

  // ---------------------------------------------------------------------
  // Experience requirement
  // ---------------------------------------------------------------------

  datatype ExperienceRequirement = ExperienceRequirement(minYears: nat, maxYears: nat, required: bool)

  /**
   * `_extract_experience_requirement`. The regular expressions themselves are
   * not modelled: `found[k]` holds the numbers `re.findall` captures for the
   * k-th pattern, in order.
   */
  method ExtractExperienceRequirement(found: seq<seq<nat>>) returns (req: ExperienceRequirement)
    ensures req.required <==> Concat(found) != []
    ensures req.required ==> req.minYears in Concat(found) && req.maxYears in Concat(found)
    ensures forall y :: y in Concat(found) ==> req.minYears <= y <= req.maxYears
    ensures !req.required ==> req == ExperienceRequirement(0, 0, false)
    ensures req.minYears <= req.maxYears
  {
    var years: seq<nat> := [];
    for i := 0 to |found|
      invariant years == Concat(found[..i])
    {
      assert found[..i + 1][..i] == found[..i];
      years := years + found[i];
    }
    assert found[..|found|] == found;
    if years != [] {
      req := ExperienceRequirement(MinOf(years), MaxOf(years), true);
    } else {
      req := ExperienceRequirement(0, 0, false);
    }
  }

  // ---------------------------------------------------------------------
  // Education requirement
  // ---------------------------------------------------------------------

  /** Each level with the alternatives of its `\b(...)\b` pattern, in the dict's order. */
  const EducationLevels: seq<(string, seq<string>)> := [
    ("phd", ["phd", "ph.d", "doctorate", "doctoral"]),
    ("masters", ["master", "masters", "m.s", "msc", "m.sc", "graduate degree"]),
    ("bachelors", ["bachelor", "bachelors", "b.s", "bsc", "b.sc", "undergraduate degree"]),
    ("associate", ["associate", "a.s", "asc"])
  ]

  const LevelNames: seq<string> := ["phd", "masters", "bachelors", "associate"]

  /** `re.search(r'\b(a|b|...)\b', t)`: some alternative occurs between word boundaries. */
  predicate AnyWord(t: string, alternatives: seq<string>) {
    if alternatives == [] then false
    else SkillExists(alternatives[0], t) || AnyWord(t, alternatives[1..])
  }

  /** The alternation matches exactly when one of its alternatives does. */
  lemma {:induction false} AnyWordSpec(t: string, alternatives: seq<string>)
    ensures AnyWord(t, alternatives) <==> exists k :: 0 <= k < |alternatives| && SkillExists(alternatives[k], t)
  {
    if alternatives != [] {
      AnyWordSpec(t, alternatives[1..]);
      if exists k :: 0 <= k < |alternatives| && SkillExists(alternatives[k], t) {
        var k :| 0 <= k < |alternatives| && SkillExists(alternatives[k], t);
        if k > 0 {
          assert alternatives[k] == alternatives[1..][k - 1];
        }
      }
    }
  }

  /** The level names whose pattern matches, in the given order. */
  function FoundLevels(t: string, levels: seq<(string, seq<string>)>): (r: seq<string>)
    ensures |r| <= |levels|
  {
    if levels == [] then []
    else
      var init, last := levels[..|levels| - 1], levels[|levels| - 1];
      FoundLevels(t, init) + (if AnyWord(t, last.1) then [last.0] else [])
  }

  /** The `k`-th level is called `name` and its pattern matches. */
  predicate LevelMatches(t: string, levels: seq<(string, seq<string>)>, k: nat, name: string) {
    k < |levels| && levels[k].0 == name && AnyWord(t, levels[k].1)
  }

  lemma {:induction false} FoundLevelsMember(t: string, levels: seq<(string, seq<string>)>, name: string)
    ensures name in FoundLevels(t, levels) <==> exists k: nat :: LevelMatches(t, levels, k, name)
  {
    if levels != [] {
      var init, last := levels[..|levels| - 1], levels[|levels| - 1];
      FoundLevelsMember(t, init, name);
      var tail := if AnyWord(t, last.1) then [last.0] else [];
      assert FoundLevels(t, levels) == FoundLevels(t, init) + tail;
      if name in FoundLevels(t, init) {
        var k: nat :| LevelMatches(t, init, k, name);
        assert LevelMatches(t, levels, k, name);
      } else if name in tail {
        assert LevelMatches(t, levels, |init|, name);
      }
      if exists k: nat :: LevelMatches(t, levels, k, name) {
        var k: nat :| LevelMatches(t, levels, k, name);
        if k < |init| {
          assert LevelMatches(t, init, k, name);
        } else {
          assert name in tail;
        }
      }
    }
  }

  lemma {:induction false} FoundLevelsOrder(t: string, levels: seq<(string, seq<string>)>)
    ensures IsSubsequence(FoundLevels(t, levels), Keys(levels))
  {
    if levels != [] {
      var init, last := levels[..|levels| - 1], levels[|levels| - 1];
      FoundLevelsOrder(t, init);
      LookupSnoc(init, last.0, last.1, last.0);
      assert levels == init + [last];
      if AnyWord(t, last.1) {
        SubsequenceSnoc(FoundLevels(t, init), Keys(init), last.0);
      } else {
        assert FoundLevels(t, levels) == FoundLevels(t, init);
        SubsequenceExtend(FoundLevels(t, init), Keys(init), last.0);
      }
    }
  }

  datatype EducationRequirement = EducationRequirement(requiredLevels: seq<string>, required: bool)

  /** `_extract_education_requirement` on the lowercased description. */
  method ExtractEducationRequirement(text: string) returns (req: EducationRequirement)
    ensures req.requiredLevels == FoundLevels(LowerStr(text), EducationLevels)
    ensures req.required <==> req.requiredLevels != []
  {
    var t := LowerStr(text);
    var levels: seq<string> := [];
    for i := 0 to |EducationLevels|
      invariant levels == FoundLevels(t, EducationLevels[..i])
    {
      assert EducationLevels[..i + 1][..i] == EducationLevels[..i];
      var (name, alternatives) := EducationLevels[i];
      if AnyWord(t, alternatives) {
        levels := levels + [name];
      }
    }
    assert EducationLevels[..|EducationLevels|] == EducationLevels;
    req := EducationRequirement(levels, |levels| > 0);
  }

  /**
   * The found levels come in the fixed order phd, masters, bachelors,
   * associate, and a level is listed exactly when one of its alternatives
   * occurs as a word.
   */
  lemma EducationLevelsSpec(t: string, k: nat)
    requires k < |EducationLevels|
    ensures IsSubsequence(FoundLevels(t, EducationLevels), LevelNames)
    ensures LevelNames[k] in FoundLevels(t, EducationLevels) <==> AnyWord(t, EducationLevels[k].1)
  {
    FoundLevelsOrder(t, EducationLevels);
    assert Keys(EducationLevels) == LevelNames;
    FoundLevelsMember(t, EducationLevels, LevelNames[k]);
    if LevelNames[k] in FoundLevels(t, EducationLevels) {
      var k': nat :| LevelMatches(t, EducationLevels, k', LevelNames[k]);
      assert k' == k;
    } else {
      assert !LevelMatches(t, EducationLevels, k, LevelNames[k]);
    }
  }

  // ---------------------------------------------------------------------
  // Key technologies
  // ---------------------------------------------------------------------

  const KeyCategories: seq<string> := ["programming_languages", "web_technologies", "databases", "cloud_platforms"]

  /** `skill` is listed under one of the four key categories. */
  predicate IsKeySkill(tax: Skills, skill: string) {
    exists k, j :: 0 <= k < |tax| && tax[k].0 in KeyCategories && 0 <= j < |tax[k].1| && tax[k].1[j] == skill
  }

  /** How often the lowercased skill occurs as a word in the lowercased description. */
  function Occurrences(t: string, skill: string): nat {
    CountWord(t, LowerStr(skill))
  }

  /** Every entry holds a key skill with its positive occurrence count. */
  predicate CountsValid(tax: Skills, t: string, counts: seq<(string, nat)>) {
    DistinctKeys(counts)
    && forall e :: e in counts ==> IsKeySkill(tax, e.0) && e.1 == Occurrences(t, e.0) && e.1 > 0
  }

  /** `skill_counts[skill] = count` keeps the counts valid. */
  lemma PutCount(tax: Skills, t: string, counts: seq<(string, nat)>, skill: string)
    requires CountsValid(tax, t, counts)
    requires IsKeySkill(tax, skill) && Occurrences(t, skill) > 0
    ensures CountsValid(tax, t, Put(counts, skill, Occurrences(t, skill)))
  {
    var r := Put(counts, skill, Occurrences(t, skill));
    if skill !in Keys(counts) {
      NoDupsSnoc(Keys(counts), skill);
    }
    forall e | e in r ensures IsKeySkill(tax, e.0) && e.1 == Occurrences(t, e.0) && e.1 > 0 {
      PutEntries(counts, skill, Occurrences(t, skill), e);
    }
  }

  /** Every key of `a` is still a key of `b`. */
  predicate KeysKept(a: seq<(string, nat)>, b: seq<(string, nat)>) {
    forall x :: x in Keys(a) ==> x in Keys(b)
  }

  /** The first `j` skills that occur all have a count. */
  predicate CoveredUpTo(t: string, skills: seq<string>, j: nat, counts: seq<(string, nat)>)
    requires j <= |skills|
  {
    forall j' :: 0 <= j' < j && Occurrences(t, skills[j']) > 0 ==> skills[j'] in Keys(counts)
  }

  /** One step of the inner loop keeps the counts valid and covers one more skill. */
  lemma CountStep(tax: Skills, t: string, k: nat, j: nat, counts0: seq<(string, nat)>, counts: seq<(string, nat)>)
    requires k < |tax| && tax[k].0 in KeyCategories && j < |tax[k].1|
    requires CountsValid(tax, t, counts) && KeysKept(counts0, counts) && CoveredUpTo(t, tax[k].1, j, counts)
    ensures var skill := tax[k].1[j]; var c := Occurrences(t, skill);
      var next := if c > 0 then Put(counts, skill, c) else counts;
      CountsValid(tax, t, next) && KeysKept(counts0, next) && CoveredUpTo(t, tax[k].1, j + 1, next)
  {
    var skill := tax[k].1[j];
    var c := Occurrences(t, skill);
    if c > 0 {
      assert IsKeySkill(tax, skill);
      PutCount(tax, t, counts, skill);
      PutKeys(counts, skill, c);
    }
  }

  /** The inner loop over one key category's skills. */
  method CountCategory(tax: Skills, t: string, k: nat, counts0: seq<(string, nat)>) returns (counts: seq<(string, nat)>)
    requires k < |tax| && tax[k].0 in KeyCategories
    requires CountsValid(tax, t, counts0)
    ensures CountsValid(tax, t, counts)
    ensures KeysKept(counts0, counts)
    ensures CoveredUpTo(t, tax[k].1, |tax[k].1|, counts)
  {
    var skills := tax[k].1;
    counts := counts0;
    for j := 0 to |skills|
      invariant CountsValid(tax, t, counts)
      invariant KeysKept(counts0, counts)
      invariant CoveredUpTo(t, skills, j, counts)
    {
      CountStep(tax, t, k, j, counts0, counts);
      var count := CountWord(t, LowerStr(skills[j]));
      if count > 0 {
        counts := Put(counts, skills[j], count);
      }
    }
  }

  /** Every skill of the first `k` categories that is key and occurs has a count. */
  predicate CategoriesCovered(tax: Skills, t: string, k: nat, counts: seq<(string, nat)>)
    requires k <= |tax|
  {
    forall k', j :: (0 <= k' < k && tax[k'].0 in KeyCategories && 0 <= j < |tax[k'].1|
      && Occurrences(t, tax[k'].1[j]) > 0) ==> tax[k'].1[j] in Keys(counts)
  }

  lemma CategoryStep(tax: Skills, t: string, k: nat, counts: seq<(string, nat)>, next: seq<(string, nat)>)
    requires k < |tax| && CategoriesCovered(tax, t, k, counts) && KeysKept(counts, next)
    requires tax[k].0 in KeyCategories ==> CoveredUpTo(t, tax[k].1, |tax[k].1|, next)
    ensures CategoriesCovered(tax, t, k + 1, next)
  {
  }

  /**
   * `identify_key_technologies`: the skills of the four key categories that
   * occur in the description, most frequent first (ties keep the order in
   * which they were counted), at most ten of them. A key skill left out is
   * no more frequent than any listed one, and only ten listed can leave one out.
   */
  method IdentifyKeyTechnologies(tax: Skills, jdText: string) returns (top: seq<string>)
    ensures |top| <= 10
    ensures NoDups(top)
    ensures forall i :: 0 <= i < |top| ==>
      IsKeySkill(tax, top[i]) && Occurrences(LowerStr(jdText), top[i]) > 0
    ensures forall i, j :: 0 <= i < j < |top| ==>
      Occurrences(LowerStr(jdText), top[i]) >= Occurrences(LowerStr(jdText), top[j])
    ensures forall k, j :: (0 <= k < |tax| && tax[k].0 in KeyCategories && 0 <= j < |tax[k].1|
      && Occurrences(LowerStr(jdText), tax[k].1[j]) > 0 && tax[k].1[j] !in top) ==>
        |top| == 10 && forall i :: 0 <= i < 10 ==>
          Occurrences(LowerStr(jdText), top[i]) >= Occurrences(LowerStr(jdText), tax[k].1[j])
  {
    var t := LowerStr(jdText);
    var counts := CountKeySkills(tax, t);
    var sorted := Sorting.SortDesc(counts, (e: (string, nat)) => e.1 as real);
    SortedCounts(tax, t, counts, sorted);
    var n := if |sorted| < 10 then |sorted| else 10;
    top := seq(n, i requires 0 <= i < n => sorted[i].0);
    TopOfSorted(tax, t, sorted, top);
    LeftOutKeySkills(tax, t, counts, sorted, top);
  }

  /** The counting loop of `identify_key_technologies`: every key skill that occurs, with its count. */
  method CountKeySkills(tax: Skills, t: string) returns (counts: seq<(string, nat)>)
    ensures CountsValid(tax, t, counts)
    ensures CategoriesCovered(tax, t, |tax|, counts)
  {
    counts := [];
    for k := 0 to |tax|
      invariant CountsValid(tax, t, counts)
      invariant CategoriesCovered(tax, t, k, counts)
    {
      var next := counts;
      if tax[k].0 in KeyCategories {
        next := CountCategory(tax, t, k, counts);
      }
      CategoryStep(tax, t, k, counts, next);
      counts := next;
    }
  }

  /** A key skill that occurs but is not listed ranks no higher than all ten listed ones. */
  lemma LeftOutKeySkills(tax: Skills, t: string, counts: seq<(string, nat)>, sorted: seq<(string, nat)>, top: seq<string>)
    requires CategoriesCovered(tax, t, |tax|, counts)
    requires forall x :: x in Keys(counts) ==> exists p: nat :: p < |sorted| && sorted[p].0 == x
    requires forall p :: 0 <= p < |sorted| && sorted[p].0 !in top ==>
      |top| == 10 && forall i :: 0 <= i < 10 ==> Occurrences(t, top[i]) >= Occurrences(t, sorted[p].0)
    ensures forall k, j :: (0 <= k < |tax| && tax[k].0 in KeyCategories && 0 <= j < |tax[k].1|
      && Occurrences(t, tax[k].1[j]) > 0 && tax[k].1[j] !in top) ==>
        |top| == 10 && forall i :: 0 <= i < 10 ==> Occurrences(t, top[i]) >= Occurrences(t, tax[k].1[j])
  {
    forall k, j | (0 <= k < |tax| && tax[k].0 in KeyCategories && 0 <= j < |tax[k].1|
      && Occurrences(t, tax[k].1[j]) > 0 && tax[k].1[j] !in top)
      ensures |top| == 10 && forall i :: 0 <= i < 10 ==> Occurrences(t, top[i]) >= Occurrences(t, tax[k].1[j])
    {
      var p: nat :| p < |sorted| && sorted[p].0 == tax[k].1[j];
    }
  }

  /** The sorted counts are the same entries, without repeats, highest count first. */
  lemma SortedCounts(tax: Skills, t: string, counts: seq<(string, nat)>, sorted: seq<(string, nat)>)
    requires CountsValid(tax, t, counts)
    requires sorted == Sorting.SortDesc(counts, (e: (string, nat)) => e.1 as real)
    ensures forall x :: x in Keys(counts) ==> exists p: nat :: p < |sorted| && sorted[p].0 == x
    ensures forall i, j :: 0 <= i < j < |sorted| ==> sorted[i].0 != sorted[j].0
    ensures forall i :: 0 <= i < |sorted| ==> IsKeySkill(tax, sorted[i].0) && sorted[i].1 == Occurrences(t, sorted[i].0) > 0
    ensures forall i, j :: 0 <= i < j < |sorted| ==> sorted[i].1 >= sorted[j].1
  {
    var key := (e: (string, nat)) => e.1 as real;
    Sorting.SortDescSpec(counts, key);
    forall x | x in Keys(counts) ensures exists p: nat :: p < |sorted| && sorted[p].0 == x {
      var m :| 0 <= m < |counts| && Keys(counts)[m] == x;
      assert counts[m] in multiset(sorted);
      var p :| 0 <= p < |sorted| && sorted[p] == counts[m];
      assert sorted[p].0 == x;
    }
    // Distinct keys make distinct entries.
    assert NoDups(counts) by {
      forall i, j | 0 <= i < j < |counts| ensures counts[i] != counts[j] {
        assert Keys(counts)[i] != Keys(counts)[j];
      }
    }
    PermutationNoDups(counts, sorted);
    forall i | 0 <= i < |sorted|
      ensures IsKeySkill(tax, sorted[i].0) && sorted[i].1 == Occurrences(t, sorted[i].0) > 0
    {
      assert sorted[i] in multiset(counts);
    }
    forall i, j | 0 <= i < j < |sorted| ensures sorted[i].0 != sorted[j].0 {
      assert sorted[i] != sorted[j];
      assert sorted[i] in multiset(counts) && sorted[j] in multiset(counts);
    }
    forall i, j | 0 <= i < j < |sorted| ensures sorted[i].1 >= sorted[j].1 {
      assert key(sorted[i]) >= key(sorted[j]);
    }
  }

  /**
   * The names of the first ten sorted entries: distinct key skills, most
   * frequent first, and any entry left out is no more frequent than the ten kept.
   */
  lemma TopOfSorted(tax: Skills, t: string, sorted: seq<(string, nat)>, top: seq<string>)
    requires forall i, j :: 0 <= i < j < |sorted| ==> sorted[i].0 != sorted[j].0
    requires forall i :: 0 <= i < |sorted| ==> IsKeySkill(tax, sorted[i].0) && sorted[i].1 == Occurrences(t, sorted[i].0) > 0
    requires forall i, j :: 0 <= i < j < |sorted| ==> sorted[i].1 >= sorted[j].1
    requires |top| == (if |sorted| < 10 then |sorted| else 10)
    requires forall i :: 0 <= i < |top| ==> top[i] == sorted[i].0
    ensures |top| <= 10 && NoDups(top)
    ensures forall i :: 0 <= i < |top| ==> IsKeySkill(tax, top[i]) && Occurrences(t, top[i]) > 0
    ensures forall i, j :: 0 <= i < j < |top| ==> Occurrences(t, top[i]) >= Occurrences(t, top[j])
    ensures forall p :: 0 <= p < |sorted| && sorted[p].0 !in top ==>
      |top| == 10 && forall i :: 0 <= i < 10 ==> Occurrences(t, top[i]) >= Occurrences(t, sorted[p].0)
  {
    forall p | 0 <= p < |sorted| && sorted[p].0 !in top
      ensures |top| == 10 && forall i :: 0 <= i < 10 ==> Occurrences(t, top[i]) >= Occurrences(t, sorted[p].0)
    {
      assert p >= |top|;
    }
  }

  // ---------------------------------------------------------------------
  // The whole description
  // ---------------------------------------------------------------------

  /** `sum(len(skills) for skills in d.values())`. */
  function TotalSkills(m: Skills): (n: nat)
    ensures n == |Flatten(m)|
  {
    if m == [] then 0 else TotalSkills(m[..|m| - 1]) + |m[|m| - 1].1|
  }

  datatype Requirements = Requirements(
    requiredSkills: Skills,
    preferredSkills: Skills,
    experience: ExperienceRequirement,
    education: EducationRequirement,
    totalRequiredSkills: nat)

  /** The text whose skills count as required: a non-empty required section, else the whole lowercased description. */
  function RequiredSource(jdText: string): string {
    match ExtractSection(jdText, RequiredKeywords)
    case Some(s) => if s != [] then s else LowerStr(jdText)
    case None => LowerStr(jdText)
  }

  /** The text whose skills count as preferred: the preferred section, else nothing. */
  function PreferredSource(jdText: string): string {
    match ExtractSection(jdText, PreferredKeywords)
    case Some(s) => s
    case None => ""
  }

  /**
   * `extract`. The numbers the experience patterns capture on the lowercased
   * description are given as `experienceFound`.
   */
  method Extract(tax: Skills, jdText: string, experienceFound: seq<seq<nat>>) returns (r: Requirements)
    ensures RequiredSource(jdText) == [] ==> r.requiredSkills == []
    ensures RequiredSource(jdText) != [] ==> r.requiredSkills == FoundSkills(tax, LowerStr(RequiredSource(jdText)))
    ensures PreferredSource(jdText) == [] ==> r.preferredSkills == []
    ensures PreferredSource(jdText) != [] ==> r.preferredSkills == FoundSkills(tax, LowerStr(PreferredSource(jdText)))
    ensures r.totalRequiredSkills == |Flatten(r.requiredSkills)|
    ensures r.experience.required <==> Concat(experienceFound) != []
    ensures forall y :: y in Concat(experienceFound) ==> r.experience.minYears <= y <= r.experience.maxYears
    ensures r.education.requiredLevels == FoundLevels(LowerStr(jdText), EducationLevels)
    ensures r.education.required <==> r.education.requiredLevels != []
  {
    var required := ExtractSkillsFromText(tax, RequiredSource(jdText));
    var preferred := ExtractSkillsFromText(tax, PreferredSource(jdText));
    var experience := ExtractExperienceRequirement(experienceFound);
    var education := ExtractEducationRequirement(jdText);
    r := Requirements(required, preferred, experience, education, TotalSkills(required));
  }

  /** Without a required section the whole description is searched; an empty description yields nothing. */
  lemma ExtractFallbacks(jdText: string)
    ensures ExtractSection(jdText, RequiredKeywords).None? ==> RequiredSource(jdText) == LowerStr(jdText)
    ensures ExtractSection(jdText, PreferredKeywords).None? ==> PreferredSource(jdText) == ""
    ensures jdText == "" ==> RequiredSource(jdText) == "" && PreferredSource(jdText) == ""
  {
    NoSectionInEmptyText(RequiredKeywords);
    NoSectionInEmptyText(PreferredKeywords);
  }
}
