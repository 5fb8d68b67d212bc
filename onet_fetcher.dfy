/**
 * The O*NET helper: the predefined skill taxonomy, the sample occupation
 * lookups and searches, and the merge of O*NET skills into a custom skill
 * dictionary. Fetching, caching and the network are not part of this model;
 * the O*NET taxonomy is a parameter where the source fetches it.
 */
module OnetFetcher {
  import opened TextUtil
  import opened Taxonomy
  import opened FetchedSkills

  /** `_get_predefined_onet_skills`. */
  const PredefinedOnetSkills: SkillsData := [
    ("basic_skills", OnetBasicSkills),
    ("cross_functional_skills", OnetCrossFunctionalSkills),
    ("technical_skills", OnetTechnicalSkills),
    ("resource_management_skills", OnetResourceManagementSkills),
    ("system_skills", OnetSystemSkills)
  ]

  const OnetBasicSkills: seq<SkillRecord> := [
    SkillRecord("B1", "Active Listening", "Giving full attention to what other people are saying"),
    SkillRecord("B2", "Critical Thinking", "Using logic and reasoning"),
    SkillRecord("B3", "Reading Comprehension", "Understanding written sentences"),
    SkillRecord("B4", "Writing", "Communicating effectively in writing"),
    SkillRecord("B5", "Speaking", "Talking to others to convey information"),
    SkillRecord("B6", "Mathematics", "Using mathematics to solve problems"),
    SkillRecord("B7", "Science", "Using scientific rules and methods")
  ]

  const OnetCrossFunctionalSkills: seq<SkillRecord> := [
    SkillRecord("C1", "Complex Problem Solving", "Identifying complex problems"),
    SkillRecord("C2", "Social Perceptiveness", "Being aware of others reactions"),
    SkillRecord("C3", "Coordination", "Adjusting actions in relation to others"),
    SkillRecord("C4", "Persuasion", "Persuading others to change minds"),
    SkillRecord("C5", "Negotiation", "Bringing others together"),
    SkillRecord("C6", "Instructing", "Teaching others how to do something"),
    SkillRecord("C7", "Service Orientation", "Actively looking for ways to help")
  ]

  const OnetTechnicalSkills: seq<SkillRecord> := [
    SkillRecord("TS1", "Programming", "Writing computer programs"),
    SkillRecord("TS2", "Technology Design", "Generating or adapting equipment"),
    SkillRecord("TS3", "Operations Analysis", "Analyzing needs and product requirements"),
    SkillRecord("TS4", "Systems Analysis", "Determining how a system should work"),
    SkillRecord("TS5", "Systems Evaluation", "Identifying measures of system performance"),
    SkillRecord("TS6", "Equipment Selection", "Determining tools and equipment needed"),
    SkillRecord("TS7", "Installation", "Installing equipment and programs"),
    SkillRecord("TS8", "Testing", "Conducting tests to determine effectiveness"),
    SkillRecord("TS9", "Troubleshooting", "Determining causes of operating errors"),
    SkillRecord("TS10", "Quality Control", "Testing quality or performance")
  ]

  const OnetResourceManagementSkills: seq<SkillRecord> := [
    SkillRecord("R1", "Time Management", "Managing one's own time"),
    SkillRecord("R2", "Management of Financial Resources", "Determining budget expenditures"),
    SkillRecord("R3", "Management of Material Resources", "Obtaining and seeing appropriate use of resources"),
    SkillRecord("R4", "Management of Personnel Resources", "Motivating, developing, and directing people")
  ]

  const OnetSystemSkills: seq<SkillRecord> := [
    SkillRecord("SY1", "Judgment and Decision Making", "Considering costs and benefits"),
    SkillRecord("SY2", "Systems Analysis", "Determining how a system should work"),
    SkillRecord("SY3", "Systems Evaluation", "Identifying measures of system performance")
  ]

  /** The predefined taxonomy has five categories, in this order. */
  lemma PredefinedOnetCategories()
    ensures Keys(PredefinedOnetSkills) ==
      ["basic_skills", "cross_functional_skills", "technical_skills", "resource_management_skills", "system_skills"]
    ensures DistinctKeys(PredefinedOnetSkills)
  {
    var ks := Keys(PredefinedOnetSkills);
    forall i, j | 0 <= i < j < |ks| ensures ks[i] != ks[j] {
      assert ks[i][0] != ks[j][0];
    }
  }

  // ------------------------------------------------------------ occupations

  /** The sample occupations of `fetch_occupation_skills`: code to title and skill names. */
  const SampleOccupations: seq<(string, (string, seq<string>))> := [
    ("15-1252.00", ("Software Developers", [
      "Programming", "Critical Thinking", "Complex Problem Solving",
      "Active Learning", "Systems Analysis", "Technology Design"])),
    ("15-1244.00", ("Network and Computer Systems Administrators", [
      "Troubleshooting", "Systems Analysis", "Programming",
      "Critical Thinking", "Equipment Selection", "Installation"]))
  ]

  /** `sample_occupations.get(code, {}).get('skills', [])`. */
  function FetchOccupationSkills(code: string): seq<string> {
    match Lookup(SampleOccupations, code)
    case Some(o) => o.1
    case None => []
  }

  /** Only the two listed codes have skills; every other code gives the empty list. */
  lemma FetchOccupationSkillsSpec(code: string)
    ensures FetchOccupationSkills(code) == [] <==> code !in Keys(SampleOccupations)
    ensures code == "15-1252.00" ==> FetchOccupationSkills(code) == SampleOccupations[0].1.1
  {
    assert Keys(SampleOccupations) == ["15-1252.00", "15-1244.00"];
  }

  /** One entry of the occupation list `search_occupations` searches. */
  datatype Occupation = Occupation(code: string, title: string, description: string)

  const Occupations: seq<Occupation> := [
    Occupation("15-1252.00", "Software Developers",
      "Research, design, and develop computer applications"),
    Occupation("15-1244.00", "Network and Computer Systems Administrators",
      "Install, configure, and maintain network systems"),
    Occupation("15-1299.08", "Web Developers", "Design and create websites"),
    Occupation("15-1211.00", "Computer Systems Analysts", "Analyze data processing problems")
  ]

  /** `keyword_lower in occ['title'].lower() or keyword_lower in occ['description'].lower()`. */
  predicate OccupationHit(keywordLower: string, o: Occupation) {
    Contains(LowerStr(o.title), keywordLower) || Contains(LowerStr(o.description), keywordLower)
  }

  /** The occupations of the list that match, in order. */
  function OccupationHits(keywordLower: string, os: seq<Occupation>): seq<Occupation> {
    if os == [] then []
    else
      var prev := OccupationHits(keywordLower, os[..|os| - 1]);
      if OccupationHit(keywordLower, os[|os| - 1]) then prev + [os[|os| - 1]] else prev
  }

  /** `search_occupations`. */
  function SearchOccupations(keyword: string): seq<Occupation> {
    OccupationHits(LowerStr(keyword), Occupations)
  }

  lemma {:induction false} OccupationHitsSpec(q: string, os: seq<Occupation>, o: Occupation)
    ensures o in OccupationHits(q, os) <==> o in os && OccupationHit(q, o)
    ensures IsSubsequence(OccupationHits(q, os), os)
    decreases |os|
  {
    if os != [] {
      var n := |os| - 1;
      OccupationHitsSpec(q, os[..n], o);
      assert os == os[..n] + [os[n]];
      if OccupationHit(q, os[n]) {
        SubsequenceSnoc(OccupationHits(q, os[..n]), os[..n], os[n]);
      } else {
        SubsequenceExtend(OccupationHits(q, os[..n]), os[..n], os[n]);
      }
    }
  }

  /**
   * The result lists, in their original order, exactly the fixed occupations
   * whose lowercased title or description contains the lowercased keyword.
   */
  lemma SearchOccupationsSpec(keyword: string, o: Occupation)
    ensures o in SearchOccupations(keyword) <==>
      o in Occupations && (Contains(LowerStr(o.title), LowerStr(keyword)) || Contains(LowerStr(o.description), LowerStr(keyword)))
    ensures IsSubsequence(SearchOccupations(keyword), Occupations)
  {
    OccupationHitsSpec(LowerStr(keyword), Occupations, o);
  }

  // ------------------------------------------------------------ merging

  /** `merged[category].extend(skill_names)` for every O*NET category, before duplicates are removed. */
  function Extended(custom: Skills, onet: SkillsData): Skills {
    if onet == [] then custom
    else
      var prev := Extended(custom, onet[..|onet| - 1]);
      var category := onet[|onet| - 1].0;
      Put(prev, category, Get(prev, category, []) + NamesOf(onet[|onet| - 1].1))
  }

  /** `merged[category] = list(set(merged[category]))` for every category. */
  function DedupAll(m: Skills): (r: Skills)
    ensures |r| == |m|
  {
    seq(|m|, k requires 0 <= k < |m| => (m[k].0, Dedup(m[k].1)))
  }

  /** What `merge_with_custom_skills` returns. */
  function MergedWithCustom(custom: Skills, onet: SkillsData): Skills {
    DedupAll(Extended(custom, onet))
  }

  /**
   * The caller's dictionary after the call: the copy is shallow, so the list
   * of every custom category that O*NET also has is extended in place (and
   * keeps its duplicates).
   */
  function CallerAfterMerge(custom: Skills, onet: SkillsData): Skills {
    if onet == [] then custom
    else
      var prev := CallerAfterMerge(custom, onet[..|onet| - 1]);
      var category := onet[|onet| - 1].0;
      if category in Keys(custom) then Put(prev, category, Get(prev, category, []) + NamesOf(onet[|onet| - 1].1))
      else prev
  }

  /** Each O*NET category ends up holding the custom list plus its O*NET names. */
  lemma {:induction false} ExtendedLookup(custom: Skills, onet: SkillsData, c: string)
    requires DistinctKeys(onet)
    ensures Lookup(Extended(custom, onet), c) ==
      if c in Keys(onet) then Some(Get(custom, c, []) + NamesOf(Get(onet, c, []))) else Lookup(custom, c)
    decreases |onet|
  {
    if onet != [] {
      var n := |onet| - 1;
      DistinctKeysInit(onet);
      GetSnoc(onet, c, []);
      var prev := Extended(custom, onet[..n]);
      var category := onet[n].0;
      ExtendedLookup(custom, onet[..n], c);
      ExtendedLookup(custom, onet[..n], category);
      PutLookup(prev, category, Get(prev, category, []) + NamesOf(onet[n].1), c);
    }
  }

  /** The caller's categories that O*NET shares are extended; nothing else changes. */
  lemma {:induction false} CallerAfterLookup(custom: Skills, onet: SkillsData, c: string)
    requires DistinctKeys(onet)
    ensures Lookup(CallerAfterMerge(custom, onet), c) ==
      if c in Keys(custom) && c in Keys(onet) then Some(Get(custom, c, []) + NamesOf(Get(onet, c, [])))
      else Lookup(custom, c)
    decreases |onet|
  {
    if onet != [] {
      var n := |onet| - 1;
      DistinctKeysInit(onet);
      GetSnoc(onet, c, []);
      var prev := CallerAfterMerge(custom, onet[..n]);
      var category := onet[n].0;
      CallerAfterLookup(custom, onet[..n], c);
      if category in Keys(custom) {
        CallerAfterLookup(custom, onet[..n], category);
        PutLookup(prev, category, Get(prev, category, []) + NamesOf(onet[n].1), c);
      }
    }
  }

  /** Removing duplicates keeps the keys and replaces each list by its distinct elements. */
  lemma {:induction false} DedupAllLookup(m: Skills, c: string)
    ensures Lookup(DedupAll(m), c) == match Lookup(m, c) case Some(v) => Some(Dedup(v)) case None => None
    decreases |m|
  {
    if m != [] {
      assert DedupAll(m)[1..] == DedupAll(m[1..]);
      DedupAllLookup(m[1..], c);
    }
  }

  /**
   * Merged keys are the custom categories and the O*NET categories; each
   * merged list is duplicate-free and holds exactly the custom list's
   * elements and the category's O*NET names.
   */
  lemma MergeWithCustomSpec(custom: Skills, onet: SkillsData, c: string, x: string)
    requires DistinctKeys(onet)
    ensures c in Keys(MergedWithCustom(custom, onet)) <==> c in Keys(custom) || c in Keys(onet)
    ensures NoDups(Get(MergedWithCustom(custom, onet), c, []))
    ensures x in Get(MergedWithCustom(custom, onet), c, []) <==>
      x in Get(custom, c, []) || x in NamesOf(Get(onet, c, []))
  {
    var ext := Extended(custom, onet);
    ExtendedLookup(custom, onet, c);
    DedupAllLookup(ext, c);
    DedupNoDups(Get(ext, c, []));
    DedupMember(Get(ext, c, []), x);
  }

  /**
   * `merge_with_custom_skills` with the O*NET taxonomy given; `callerCustom`
   * is the caller's dictionary afterwards.
   */
  method MergeWithCustomSkills(custom: Skills, onet: SkillsData) returns (merged: Skills, callerCustom: Skills)
    ensures merged == MergedWithCustom(custom, onet)
    ensures callerCustom == CallerAfterMerge(custom, onet)
  {
    merged := custom;
    callerCustom := custom;
    for i := 0 to |onet|
      invariant merged == Extended(custom, onet[..i])
      invariant callerCustom == CallerAfterMerge(custom, onet[..i])
    {
      assert onet[..i + 1][..i] == onet[..i];
      var category, skillNames := onet[i].0, NamesOf(onet[i].1);
      merged := ExtendCategory(merged, category, skillNames);
      if category in Keys(custom) {
        callerCustom := Put(callerCustom, category, Get(callerCustom, category, []) + skillNames);
      }
    }
    assert onet[..|onet|] == onet;
    merged := DedupEach(merged);
  }

  /**
   * One step of the first loop: a missing category is first set to an empty
   * list, then the O*NET names are appended to the category's list.
   */
  method ExtendCategory(m: Skills, category: string, names: seq<string>) returns (r: Skills)
    ensures r == Put(m, category, Get(m, category, []) + names)
  {
    r := m;
    if category !in Keys(r) {
      PutLookup(r, category, [], category);
      r := Put(r, category, []);
    }
    PutTwice(m, category, [], Get(r, category, []) + names);
    r := Put(r, category, Get(r, category, []) + names);
  }

  /** The second loop: every list replaced by its set, in place. */
  method DedupEach(ext: Skills) returns (r: Skills)
    ensures r == DedupAll(ext)
  {
    r := ext;
    for i := 0 to |r|
      invariant |r| == |ext|
      invariant forall k :: 0 <= k < |ext| ==> r[k] == if k < i then (ext[k].0, Dedup(ext[k].1)) else ext[k]
    {
      r := r[i := (r[i].0, Dedup(r[i].1))];
    }
  }
}
