/**
 * The ESCO skill taxonomy helper: the predefined taxonomy it falls back to,
 * keyword search over given skills data, and the list of all skill names.
 * Fetching, caching and the network are not part of this model.
 */
module EscoFetcher {
  import opened TextUtil
  import opened FetchedSkills

  /** `_get_predefined_esco_skills`. */
  const PredefinedEscoSkills: SkillsData := [
    ("technical_skills", EscoTechnicalSkills),
    ("transversal_skills", EscoTransversalSkills),
    ("language_skills", EscoLanguageSkills),
    ("digital_skills", EscoDigitalSkills)
  ]

  const EscoTechnicalSkills: seq<SkillRecord> := [
    SkillRecord("S1", "Python programming", "Programming in Python language"),
    SkillRecord("S2", "Java programming", "Programming in Java language"),
    SkillRecord("S3", "JavaScript programming", "Programming in JavaScript"),
    SkillRecord("S4", "SQL database management", "Managing SQL databases"),
    SkillRecord("S5", "Cloud computing", "Working with cloud platforms"),
    SkillRecord("S6", "Machine learning", "Implementing ML algorithms"),
    SkillRecord("S7", "Data analysis", "Analyzing data sets"),
    SkillRecord("S8", "Web development", "Developing web applications"),
    SkillRecord("S9", "API development", "Creating RESTful APIs"),
    SkillRecord("S10", "DevOps practices", "Implementing DevOps methodologies")
  ]

  const EscoTransversalSkills: seq<SkillRecord> := [
    SkillRecord("T1", "Problem solving", "Analytical problem solving"),
    SkillRecord("T2", "Team collaboration", "Working effectively in teams"),
    SkillRecord("T3", "Communication", "Effective communication skills"),
    SkillRecord("T4", "Leadership", "Leading teams and projects"),
    SkillRecord("T5", "Time management", "Managing time effectively"),
    SkillRecord("T6", "Critical thinking", "Analytical and critical thinking"),
    SkillRecord("T7", "Adaptability", "Adapting to change"),
    SkillRecord("T8", "Project management", "Managing projects")
  ]

  const EscoLanguageSkills: seq<SkillRecord> := [
    SkillRecord("L1", "English", "English language proficiency"),
    SkillRecord("L2", "Spanish", "Spanish language proficiency"),
    SkillRecord("L3", "French", "French language proficiency"),
    SkillRecord("L4", "German", "German language proficiency")
  ]

  const EscoDigitalSkills: seq<SkillRecord> := [
    SkillRecord("D1", "Digital literacy", "Basic digital competence"),
    SkillRecord("D2", "Cybersecurity", "Information security practices"),
    SkillRecord("D3", "Data privacy", "Understanding data protection"),
    SkillRecord("D4", "Digital marketing", "Online marketing skills")
  ]

  /** The predefined taxonomy has four categories, in this order. */
  lemma PredefinedEscoCategories()
    ensures Keys(PredefinedEscoSkills) == ["technical_skills", "transversal_skills", "language_skills", "digital_skills"]
    ensures DistinctKeys(PredefinedEscoSkills)
  {
    var ks := Keys(PredefinedEscoSkills);
    forall i, j | 0 <= i < j < |ks| ensures ks[i] != ks[j] {
      assert ks[i][1] != ks[j][1];
    }
  }

  /** `query_lower in skill['name'].lower() or query_lower in skill['description'].lower()`. */
  predicate Hit(queryLower: string, r: SkillRecord) {
    Contains(LowerStr(r.name), queryLower) || Contains(LowerStr(r.description), queryLower)
  }

  /** The tagged records that are hits, in order. */
  function Hits(queryLower: string, ts: seq<Tagged>): seq<Tagged> {
    if ts == [] then []
    else
      var prev := Hits(queryLower, ts[..|ts| - 1]);
      if Hit(queryLower, ts[|ts| - 1].record) then prev + [ts[|ts| - 1]] else prev
  }

  /** What `search_skills` returns: every hit, tagged with its category, in category-then-list order. */
  function SearchResults(query: string, data: SkillsData): seq<Tagged> {
    Hits(LowerStr(query), AllTagged(data))
  }

  /** Filtering distributes over concatenation. */
  lemma {:induction false} HitsAppend(q: string, a: seq<Tagged>, b: seq<Tagged>)
    ensures Hits(q, a + b) == Hits(q, a) + Hits(q, b)
    decreases |b|
  {
    if b == [] {
      assert a + b == a;
    } else {
      var n := |b| - 1;
      assert (a + b)[..|a + b| - 1] == a + b[..n];
      HitsAppend(q, a, b[..n]);
    }
  }

  /** The hits are exactly the tagged records that match the query. */
  lemma {:induction false} HitsMember(q: string, ts: seq<Tagged>, t: Tagged)
    ensures t in Hits(q, ts) <==> t in ts && Hit(q, t.record)
    decreases |ts|
  {
    if ts != [] {
      var n := |ts| - 1;
      HitsMember(q, ts[..n], t);
      assert ts == ts[..n] + [ts[n]];
    }
  }

  /** The hits keep the order of the records. */
  lemma {:induction false} HitsOrder(q: string, ts: seq<Tagged>)
    ensures IsSubsequence(Hits(q, ts), ts)
    decreases |ts|
  {
    if ts != [] {
      var n := |ts| - 1;
      HitsOrder(q, ts[..n]);
      assert ts == ts[..n] + [ts[n]];
      if Hit(q, ts[n].record) {
        SubsequenceSnoc(Hits(q, ts[..n]), ts[..n], ts[n]);
      } else {
        SubsequenceExtend(Hits(q, ts[..n]), ts[..n], ts[n]);
      }
    }
  }

  /** Every record matches the empty query. */
  lemma {:induction false} HitsOfEmptyQuery(ts: seq<Tagged>)
    ensures Hits([], ts) == ts
    decreases |ts|
  {
    if ts != [] {
      var n := |ts| - 1;
      HitsOfEmptyQuery(ts[..n]);
      assert OccursAt(LowerStr(ts[n].record.name), [], 0);
      assert ts == ts[..n] + [ts[n]];
    }
  }

  /**
   * A result is a record of the data tagged with the category it is listed
   * under whose lowercased name or description contains the lowercased
   * query; the results keep category-then-list order.
   */
  lemma SearchSkillsSpec(query: string, data: SkillsData, t: Tagged)
    ensures t in SearchResults(query, data) <==>
      Hit(LowerStr(query), t.record) && exists i :: 0 <= i < |data| && data[i].0 == t.category && t.record in data[i].1
    ensures IsSubsequence(SearchResults(query, data), AllTagged(data))
  {
    HitsMember(LowerStr(query), AllTagged(data), t);
    AllTaggedMember(data, t);
    HitsOrder(LowerStr(query), AllTagged(data));
  }

  /** The empty query matches every skill. */
  lemma EmptyQueryMatchesAll(data: SkillsData)
    ensures SearchResults("", data) == AllTagged(data)
  {
    HitsOfEmptyQuery(AllTagged(data));
  }

  /** `search_skills` with `skills_data` given. */
  method SearchSkills(query: string, data: SkillsData) returns (matches: seq<Tagged>)
    ensures matches == SearchResults(query, data)
  {
    var queryLower := LowerStr(query);
    matches := [];
    for i := 0 to |data|
      invariant matches == Hits(queryLower, AllTagged(data[..i]))
    {
      var category, skills := data[i].0, data[i].1;
      ghost var tagged := TagAll(skills, category);
      ghost var before := matches;
      for j := 0 to |skills|
        invariant matches == before + Hits(queryLower, tagged[..j])
      {
        assert tagged[..j + 1] == tagged[..j] + [tagged[j]];
        var skill := skills[j];
        if Contains(LowerStr(skill.name), queryLower) || Contains(LowerStr(skill.description), queryLower) {
          matches := matches + [Tagged(skill, category)];
        }
      }
      assert tagged[..|skills|] == tagged;
      assert data[..i + 1][..i] == data[..i];
      HitsAppend(queryLower, AllTagged(data[..i]), tagged);
    }
    assert data[..|data|] == data;
  }
}
