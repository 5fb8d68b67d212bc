/**
 * The deterministic glue of `EnhancedResumeAnalyzer`: its default
 * configuration, the merge of the custom, ESCO and O*NET skill sources, the
 * merge of traditional and HuggingFace skills, the normalisation of
 * experience values, the validation of extracted resume text, and the
 * arguments the analysis passes to the skill score.
 */
module MainEnhanced {
  import opened TextUtil
  import opened Taxonomy
  import opened FetchedSkills
  import EscoFetcher
  import TC = TextCleaner
  import MS = MatchScorer
  import SM = SimilarityMatcher
  import EM = Embedder
  import ES = ExperienceScorer
  import SE = SkillExtractor
  import JD = JDSkillExtractor

  // ------------------------------------------------------------ configuration

  /** The settings `get_default_config` returns. */
  datatype Config = Config(
    removeStopwords: bool, lowercase: bool,
    fuzzyThreshold: int, semanticThreshold: real,
    weights: MS.Weights)

  /** `get_default_config`. */
  const DefaultConfig: Config := Config(false, false, 85, 0.7,
    [("skills", 0.4), ("semantic", 0.3), ("experience", 0.2), ("qualifications", 0.1)])

  /**
   * The default weights sum to 1.0 and are those of `MatchScorer`, so
   * `set_weights` accepts them; the thresholds are the matchers' own
   * defaults, and the cleaner neither lowercases nor drops stopwords.
   */
  lemma DefaultConfigSpec()
    ensures MS.SumValues(DefaultConfig.weights) == 1.0
    ensures MS.WeightsAccepted(DefaultConfig.weights)
    ensures DefaultConfig.weights == MS.DefaultWeights
    ensures DefaultConfig.fuzzyThreshold == SM.DefaultThreshold == 85
    ensures DefaultConfig.semanticThreshold == EM.DefaultSemanticThreshold == 0.7
    ensures TC.Cleaner(DefaultConfig.removeStopwords, DefaultConfig.lowercase) == TC.Cleaner(false, false)
  {
    MS.DefaultWeightsAccepted();
  }

  // ------------------------------------------------------------ skill sources

  /** The keys `merge_skill_sources` adds for the fetched taxonomies. */
  const EscoKey: string := "esco_skills"
  const OnetKey: string := "onet_skills"

  /** `s.add(x)` for each `x` in turn, on a set listed in insertion order. */
  function AddAll(s: seq<string>, xs: seq<string>): seq<string> {
    if xs == [] then s
    else
      var prev := AddAll(s, xs[..|xs| - 1]);
      if xs[|xs| - 1] in prev then prev else prev + [xs[|xs| - 1]]
  }

  /** Adding to a set keeps it duplicate-free and adds exactly the new elements. */
  lemma {:induction false} AddAllSpec(s: seq<string>, xs: seq<string>, x: string)
    ensures x in AddAll(s, xs) <==> x in s || x in xs
    ensures NoDups(s) ==> NoDups(AddAll(s, xs))
    decreases |xs|
  {
    if xs != [] {
      var n := |xs| - 1;
      AddAllSpec(s, xs[..n], x);
      assert xs == xs[..n] + [xs[n]];
      var prev := AddAll(s, xs[..n]);
      if NoDups(s) && xs[n] !in prev {
        NoDupsSnoc(prev, xs[n]);
      }
    }
  }

  /** `merged[category] = set(skills)` for each custom category. */
  function CustomSets(custom: Skills): Skills {
    if custom == [] then []
    else Put(CustomSets(custom[..|custom| - 1]), custom[|custom| - 1].0, Dedup(custom[|custom| - 1].1))
  }

  /** The custom categories are kept, each with a duplicate-free list. */
  lemma {:induction false} CustomSetsLookup(custom: Skills, c: string)
    ensures Lookup(CustomSets(custom), c).Some? <==> c in Keys(custom)
    ensures Lookup(CustomSets(custom), c).Some? ==> NoDups(Lookup(CustomSets(custom), c).value)
    decreases |custom|
  {
    if custom != [] {
      var n := |custom| - 1;
      var init, last := custom[..n], custom[n];
      SplitLast(custom);
      LookupSnoc(init, last.0, last.1, c);
      CustomSetsLookup(init, c);
      PutLookup(CustomSets(init), last.0, Dedup(last.1), c);
      DedupNoDups(last.1);
    }
  }

  /** Adding a fetched source under `key` when it is not empty, creating the set when missing. */
  function AddSource(m: Skills, key: string, names: seq<string>): Skills {
    if names == [] then m else Put(m, key, AddAll(Get(m, key, []), names))
  }

  /**
   * What `merge_skill_sources` returns. Iterating the fetched taxonomies
   * (dicts from category name to records) yields their category names,
   * and those are what gets added.
   */
  function MergedSources(custom: Skills, esco: SkillsData, onet: SkillsData): Skills {
    AddSource(AddSource(CustomSets(custom), EscoKey, Keys(esco)), OnetKey, Keys(onet))
  }

  /** A fetched source adds its key when not empty and keeps every list duplicate-free. */
  lemma AddSourceLookup(m: Skills, key: string, names: seq<string>, c: string, x: string)
    requires Lookup(m, c).Some? ==> NoDups(Lookup(m, c).value)
    ensures Lookup(AddSource(m, key, names), c).Some? <==> Lookup(m, c).Some? || (c == key && names != [])
    ensures Lookup(AddSource(m, key, names), c).Some? ==> NoDups(Lookup(AddSource(m, key, names), c).value)
    ensures c == key && names != [] ==>
      (x in Get(AddSource(m, key, names), c, []) <==> x in Get(m, c, []) || x in names)
  {
    if names != [] {
      PutLookup(m, key, AddAll(Get(m, key, []), names), c);
      AddAllSpec(Get(m, key, []), names, x);
    }
  }

  /**
   * The merged keys are the custom categories, plus "esco_skills" when the
   * ESCO taxonomy is not empty and "onet_skills" when the O*NET one is not;
   * every merged list is duplicate-free.
   */
  lemma MergeSkillSourcesSpec(custom: Skills, esco: SkillsData, onet: SkillsData, c: string)
    ensures c in Keys(MergedSources(custom, esco, onet)) <==>
      c in Keys(custom) || (c == EscoKey && esco != []) || (c == OnetKey && onet != [])
    ensures NoDups(Get(MergedSources(custom, esco, onet), c, []))
  {
    var m0 := CustomSets(custom);
    var m1 := AddSource(m0, EscoKey, Keys(esco));
    CustomSetsLookup(custom, c);
    AddSourceLookup(m0, EscoKey, Keys(esco), c, "");
    AddSourceLookup(m1, OnetKey, Keys(onet), c, "");
  }

  /**
   * With no custom "esco_skills" category, that merged list holds exactly
   * the ESCO category names, not skill names.
   */
  lemma MergeAddsCategoryNames(custom: Skills, esco: SkillsData, onet: SkillsData, x: string)
    requires esco != [] && EscoKey !in Keys(custom)
    ensures x in Get(MergedSources(custom, esco, onet), EscoKey, []) <==> x in Keys(esco)
  {
    var m0 := CustomSets(custom);
    var m1 := AddSource(m0, EscoKey, Keys(esco));
    CustomSetsLookup(custom, EscoKey);
    CustomSetsLookup(custom, x);
    AddSourceLookup(m0, EscoKey, Keys(esco), EscoKey, x);
    AddSourceLookup(m1, OnetKey, Keys(onet), EscoKey, x);
    if Keys(onet) != [] {
      PutLookup(m1, OnetKey, AddAll(Get(m1, OnetKey, []), Keys(onet)), EscoKey);
    }
  }

  /** With the predefined ESCO taxonomy, "esco_skills" lists its four category names. */
  lemma PredefinedEscoAddsCategories(x: string)
    ensures x in Get(MergedSources([], EscoFetcher.PredefinedEscoSkills, []), EscoKey, []) <==>
      x in ["technical_skills", "transversal_skills", "language_skills", "digital_skills"]
  {
    EscoFetcher.PredefinedEscoCategories();
    MergeAddsCategoryNames([], EscoFetcher.PredefinedEscoSkills, [], x);
  }

  /** Adds a fetched source's category names under `key`, as the source's loop does. */
  method AddFetched(merged: Skills, key: string, fetched: SkillsData) returns (r: Skills)
    ensures r == AddSource(merged, key, Keys(fetched))
  {
    r := merged;
    var names := Keys(fetched);
    if names != [] {
      var set_: seq<string> := Get(merged, key, []);
      for j := 0 to |names|
        invariant set_ == AddAll(Get(merged, key, []), names[..j])
      {
        assert names[..j + 1][..j] == names[..j];
        if names[j] !in set_ {
          set_ := set_ + [names[j]];
        }
      }
      assert names[..|names|] == names;
      r := Put(merged, key, set_);
    }
  }

  /** `merge_skill_sources` with the three taxonomies given. */
  method MergeSkillSources(custom: Skills, esco: SkillsData, onet: SkillsData) returns (merged: Skills)
    ensures merged == MergedSources(custom, esco, onet)
  {
    merged := [];
    for i := 0 to |custom|
      invariant merged == CustomSets(custom[..i])
    {
      assert custom[..i + 1][..i] == custom[..i];
      merged := Put(merged, custom[i].0, Dedup(custom[i].1));
    }
    assert custom[..|custom|] == custom;
    merged := AddFetched(merged, EscoKey, esco);
    merged := AddFetched(merged, OnetKey, onet);
  }

  // ------------------------------------------------------------ traditional and HF skills

  /** What `_merge_skills` returns. */
  datatype MergedSkills = MergedSkills(skills: seq<string>, traditionalCount: nat, hfCount: nat, totalCount: nat)

  /** `hf.get('skills', [])`, with `None` for a result without a 'skills' key. */
  function HfSkillList(hf: Option<seq<string>>): seq<string> {
    if hf.Some? then hf.value else []
  }

  /**
   * `_merge_skills` as written: `set(traditional)` of the category map the
   * skill extractor returns collects its category names.
   */
  function MergeSkillsAsWritten(traditional: Skills, hf: Option<seq<string>>): MergedSkills {
    var skills := AddAll(Dedup(Keys(traditional)), HfSkillList(hf));
    MergedSkills(skills, |traditional|, |HfSkillList(hf)|, |skills|)
  }

  /** The merge as written keeps category names and loses every skill name. */
  lemma MergeSkillsAsWrittenTakesCategories()
    ensures MergeSkillsAsWritten([("programming_languages", ["Python"])], Some([])).skills == ["programming_languages"]
    ensures "Python" !in MergeSkillsAsWritten([("programming_languages", ["Python"])], Some([])).skills
  {
    assert Keys([("programming_languages", ["Python"])]) == ["programming_languages"];
    assert Dedup(["programming_languages"]) == ["programming_languages"];
  }

  /** `_merge_skills` merging the extracted skill names themselves. */
  function MergeSkills(traditional: Skills, hf: Option<seq<string>>): MergedSkills {
    var names := Flatten(traditional);
    var skills := AddAll(Dedup(names), HfSkillList(hf));
    MergedSkills(skills, |names|, |HfSkillList(hf)|, |skills|)
  }

  /** The values of an association list, concatenated, hold exactly the listed values. */
  lemma {:induction false} FlattenMember(m: Skills, x: string)
    ensures x in Flatten(m) <==> exists i :: 0 <= i < |m| && x in m[i].1
    decreases |m|
  {
    if m != [] {
      var n := |m| - 1;
      FlattenMember(m[..n], x);
      forall i | 0 <= i < n ensures m[..n][i] == m[i] {
      }
    }
  }

  /**
   * The merged list is duplicate-free and holds exactly the names some
   * category lists and the HF skill names; its length is `total_count`,
   * which is at most the two counts together.
   */
  lemma MergeSkillsSpec(traditional: Skills, hf: Option<seq<string>>, x: string)
    ensures var r := MergeSkills(traditional, hf);
      && NoDups(r.skills)
      && (x in r.skills <==> (exists i :: 0 <= i < |traditional| && x in traditional[i].1) || x in HfSkillList(hf))
      && r.totalCount == |r.skills| <= r.traditionalCount + r.hfCount
  {
    var names := Flatten(traditional);
    DedupNoDups(names);
    DedupMember(names, x);
    FlattenMember(traditional, x);
    AddAllSpec(Dedup(names), HfSkillList(hf), x);
    AddAllLength(Dedup(names), HfSkillList(hf));
  }

  /** Adding elements to a set grows it by at most their number. */
  lemma {:induction false} AddAllLength(s: seq<string>, xs: seq<string>)
    ensures |AddAll(s, xs)| <= |s| + |xs|
    decreases |xs|
  {
    if xs != [] {
      AddAllLength(s, xs[..|xs| - 1]);
    }
  }

  /**
   * What the call `self.hf_extractor.extract(resume_text)` produces: the
   * HuggingFace extractor defines no `extract` method, so the call always
   * raises and no result is produced.
   */
  const HfExtractCall: Option<seq<string>> := None

  /** The fallback `{'skills': [], 'entities': []}` when the call raises. */
  function HfSkillsAfter(call: Option<seq<string>>): (r: Option<seq<string>>)
    ensures r.Some?
  {
    if call.None? then Some([]) else call
  }

  /**
   * In the pipeline the HF side adds nothing. As written the merged skills are
   * then the category names of the traditional map; with the intended merge
   * they would be its skill names.
   */
  lemma PipelineHfAddsNothing(traditional: Skills)
    ensures HfSkillsAfter(HfExtractCall) == Some([])
    ensures MergeSkillsAsWritten(traditional, HfSkillsAfter(HfExtractCall)).skills == Dedup(Keys(traditional))
    ensures MergeSkillsAsWritten(traditional, HfSkillsAfter(HfExtractCall)).hfCount == 0
    ensures MergeSkills(traditional, HfSkillsAfter(HfExtractCall)).skills == Dedup(Flatten(traditional))
    ensures MergeSkills(traditional, HfSkillsAfter(HfExtractCall)).hfCount == 0
  {
  }

  // ------------------------------------------------------------ experience values

  /** A value stored in the extractors' result dicts. */
  datatype PyValue = IntValue(i: int) | BoolValue(b: bool)

  /** What the extractors hand to the normalisation step. */
  datatype ExperienceRaw = DictValue(entries: seq<(string, PyValue)>) | NumberValue(x: real) | OtherValue

  /** `int(x)`: truncation toward zero. */
  function TruncateToInt(x: real): (r: int)
    ensures r as real <= x < r as real + 1.0 || (x < 0.0 && r as real - 1.0 < x <= r as real)
  {
    if x >= 0.0 then x.Floor else -((-x).Floor)
  }

  /** A dict value used as a year count (`True` counts as 1). */
  function AsYears(v: Option<PyValue>): Option<int> {
    match v
    case None => None
    case Some(IntValue(i)) => Some(i)
    case Some(BoolValue(b)) => Some(if b then 1 else 0)
  }

  /** The normalisation, reading a dict under `key`. */
  function NormalizeExperience(raw: ExperienceRaw, key: string): Option<int> {
    match raw
    case DictValue(d) => AsYears(Lookup(d, key))
    case NumberValue(x) => Some(TruncateToInt(x))
    case OtherValue => None
  }

  /** `extract_years_of_experience`'s dict. */
  function ResumeExperienceDict(y: SE.YearsOfExperience): ExperienceRaw {
    DictValue([("max_years", IntValue(y.maxYears)), ("total_mentions", IntValue(y.totalMentions))])
  }

  /** `_extract_experience_requirement`'s dict. */
  function JdExperienceDict(r: JD.ExperienceRequirement): ExperienceRaw {
    DictValue([("min_years", IntValue(r.minYears)), ("max_years", IntValue(r.maxYears)), ("required", BoolValue(r.required))])
  }

  /** The normalisation as written looks up 'years', a key neither dict has. */
  function NormalizeExperienceAsWritten(raw: ExperienceRaw): Option<int> {
    NormalizeExperience(raw, "years")
  }

  /**
   * As written both experience values are always None, so the experience
   * score is always 70 and the gap analysis always reports no requirement.
   */
  lemma ExperienceAlwaysMissingAsWritten(y: SE.YearsOfExperience, r: JD.ExperienceRequirement)
    ensures NormalizeExperienceAsWritten(ResumeExperienceDict(y)) == None
    ensures NormalizeExperienceAsWritten(JdExperienceDict(r)) == None
    ensures ES.ExperienceScore(NormalizeExperienceAsWritten(ResumeExperienceDict(y)),
      NormalizeExperienceAsWritten(JdExperienceDict(r))) == 70.0
    ensures ES.AnalyzeExperienceGap(NormalizeExperienceAsWritten(ResumeExperienceDict(y)),
      NormalizeExperienceAsWritten(JdExperienceDict(r))).status == "no_requirement"
  {
    var ks := Keys([("max_years", IntValue(y.maxYears)), ("total_mentions", IntValue(y.totalMentions))]);
    assert ks == ["max_years", "total_mentions"];
    assert "years" != "max_years" && "years" != "total_mentions";
    var kj := Keys([("min_years", IntValue(r.minYears)), ("max_years", IntValue(r.maxYears)), ("required", BoolValue(r.required))]);
    assert kj == ["min_years", "max_years", "required"];
    assert "years" != "min_years" && "years" != "required";
  }

  /** The candidate's years: the largest number of years the resume mentions. */
  function ResumeYears(y: SE.YearsOfExperience): Option<int> {
    NormalizeExperience(ResumeExperienceDict(y), "max_years")
  }

  /** The required years: the least number of years the job description asks for. */
  function JdYears(r: JD.ExperienceRequirement): Option<int> {
    NormalizeExperience(JdExperienceDict(r), "min_years")
  }

  /** Read under the keys the extractors produce, the extracted numbers reach the scorer. */
  lemma ExperienceYearsSpec(y: SE.YearsOfExperience, r: JD.ExperienceRequirement)
    ensures ResumeYears(y) == Some(y.maxYears as int)
    ensures JdYears(r) == Some(r.minYears as int)
    ensures r.minYears > 0 && y.maxYears >= r.minYears && y.maxYears as real <= r.minYears as real * 1.5 ==>
      ES.ExperienceScore(ResumeYears(y), JdYears(r)) == 100.0
  {
  }

  /** Numbers are truncated toward zero, and any other value gives None. */
  lemma NormalizeNumbers(x: real, key: string)
    ensures NormalizeExperience(NumberValue(x), key) == Some(TruncateToInt(x))
    ensures NormalizeExperience(NumberValue(2.9), key) == Some(2)
    ensures NormalizeExperience(NumberValue(-2.9), key) == Some(-2)
    ensures NormalizeExperience(OtherValue, key) == None
  {
  }

  // ------------------------------------------------------------ text validation

  /** The readers `extract_text` chooses from by file extension. */
  datatype Reader = PdfReader | DocxReader | TextFileReader

  /** The reader for a lowercased extension, or None for an unsupported one. */
  function ReaderFor(ext: string): (r: Option<Reader>)
    ensures r.None? <==> ext !in [".pdf", ".docx", ".doc", ".txt"]
  {
    if ext == ".pdf" then Some(PdfReader)
    else if ext == ".docx" || ext == ".doc" then Some(DocxReader)
    else if ext == ".txt" then Some(TextFileReader)
    else None
  }

  /** Why `extract_text` raises `ValueError`. */
  datatype TextError = UnsupportedFormat(ext: string) | NoText | TooShort(length: nat)

  /** What `extract_text` returns (contact details and sections are not modelled) or why it fails. */
  datatype TextResult = Extracted(text: string, rawText: string) | Failed(error: TextError)

  const MinRawLength: nat := 50
  const MinCleanedLength: nat := 30

  /**
   * The validation rules of `extract_text`. `read` is what the chosen reader
   * returns for the file (None when it returns None), `suffix` is the file's
   * suffix and `removeEmails` the cleaner's email step.
   */
  function ExtractText(suffix: string, read: Reader -> Option<string>, cleaner: TC.Cleaner,
                       removeEmails: string -> string): TextResult
  {
    var ext := LowerStr(suffix);
    match ReaderFor(ext)
    case None => Failed(UnsupportedFormat(ext))
    case Some(reader) =>
      match read(reader)
      case None => Failed(NoText)
      case Some(t) =>
        var raw := Strip(t);
        if |raw| < MinRawLength then Failed(TooShort(|raw|))
        else
          var cleaned := TC.Clean(cleaner, raw, removeEmails);
          Extracted(if |cleaned| < MinCleanedLength then raw else cleaned, raw)
  }

  /**
   * An unsupported extension, a reader returning None and a stripped text
   * shorter than 50 characters each raise; otherwise the raw text is the
   * stripped text, and the cleaned text replaces it unless shorter than 30
   * characters, so the text handed on always has at least 30 characters.
   */
  lemma ExtractTextSpec(suffix: string, read: Reader -> Option<string>, cleaner: TC.Cleaner,
                        removeEmails: string -> string)
    ensures var r := ExtractText(suffix, read, cleaner, removeEmails);
      var ext := LowerStr(suffix);
      && (r == Failed(UnsupportedFormat(ext)) <==> ext !in [".pdf", ".docx", ".doc", ".txt"])
      && (ReaderFor(ext).Some? ==>
            match read(ReaderFor(ext).value)
            case None => r == Failed(NoText)
            case Some(t) =>
              (r.Failed? <==> |Strip(t)| < 50)
              && (r.Extracted? ==>
                    r.rawText == Strip(t) && |r.text| >= 30
                    && (r.text == r.rawText || r.text == TC.Clean(cleaner, r.rawText, removeEmails))
                    && (r.text == TC.Clean(cleaner, r.rawText, removeEmails) <==>
                          |TC.Clean(cleaner, r.rawText, removeEmails)| >= 30 || TC.Clean(cleaner, r.rawText, removeEmails) == r.rawText)))
  {
  }

  // ------------------------------------------------------------ skill score arguments

  /**
   * The skill score of `analyze`: exact matches, fuzzy plus semantic matches
   * as the fuzzy count, and the matcher's `total_required` as denominator.
   */
  function PipelineSkillScore(m: SM.MatchResult, s: EM.SemanticResult): real {
    MS.SkillMatchScore(|m.matchedExact|, m.totalRequired, |m.matchedFuzzy| + |s.matched|)
  }

  /**
   * The score lies in [0, 100]; since semantic matching runs on the full
   * skill lists, a skill matched exactly and semantically counts twice, and
   * five exact matches out of nine required reach 100 with four missing.
   */
  lemma PipelineSkillScoreSpec(m: SM.MatchResult, s: EM.SemanticResult)
    ensures 0.0 <= PipelineSkillScore(m, s) <= 100.0
    ensures m.totalRequired == 0 ==> PipelineSkillScore(m, s) == 100.0
    ensures |m.matchedExact| == 5 && m.totalRequired == 9 && |m.matchedFuzzy| == 0 && |s.matched| >= 5 ==>
      PipelineSkillScore(m, s) == 100.0
  {
    MS.SkillMatchScoreBounds(|m.matchedExact|, m.totalRequired, |m.matchedFuzzy| + |s.matched|);
  }
}
