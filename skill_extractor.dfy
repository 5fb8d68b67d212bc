/**
 * The resume skill extractor: taxonomy skills found in the resume text,
 * named entities kept as extra skill candidates, years of experience,
 * the distinct-skill count and the categorisation of a list of skills.
 * The entities come from a spaCy model and are given as input.
 */
module SkillExtractor {
  import opened TextUtil
  import opened Taxonomy

  /** The key under which entity names are stored. */
  const ExtractedEntities: string := "extracted_entities"

  /** The spaCy labels whose entities are kept. */
  const EntityLabels: seq<string> := ["ORG", "PRODUCT", "GPE", "NORP"]

  /** One named entity: its text and its spaCy label. */
  datatype Entity = Entity(text: string, tag: string)

  /** The test `_extract_with_ner` applies to one entity. */
  predicate KeepEntity(tax: Skills, e: Entity) {
    e.tag in EntityLabels && |e.text| > 2 && LowerStr(e.text) !in FlattenSkills(tax)
  }

  /** The texts of the kept entities, in document order. */
  function KeptTexts(tax: Skills, entities: seq<Entity>): (r: seq<string>)
    ensures |r| <= |entities|
  {
    if entities == [] then []
    else
      var init, last := entities[..|entities| - 1], entities[|entities| - 1];
      KeptTexts(tax, init) + (if KeepEntity(tax, last) then [last.text] else [])
  }

  lemma {:induction false} KeptTextsMember(tax: Skills, entities: seq<Entity>, x: string)
    ensures x in KeptTexts(tax, entities) <==> exists e :: e in entities && KeepEntity(tax, e) && e.text == x
  {
    if entities != [] {
      var init, last := entities[..|entities| - 1], entities[|entities| - 1];
      assert entities == init + [last];
      KeptTextsMember(tax, init, x);
      if exists e :: e in entities && KeepEntity(tax, e) && e.text == x {
        var e :| e in entities && KeepEntity(tax, e) && e.text == x;
        if e != last {
          assert e in init;
        }
      }
    }
  }

  /**
   * `_extract_with_ner` over the entities spaCy found: the kept texts without
   * repeats, at most 20. Python's set has no defined order; the model lists
   * the texts in order of first occurrence.
   */
  method ExtractWithNer(tax: Skills, entities: seq<Entity>) returns (names: seq<string>)
    ensures names == Take(Dedup(KeptTexts(tax, entities)), 20)
  {
    var kept: seq<string> := [];
    for i := 0 to |entities|
      invariant kept == KeptTexts(tax, entities[..i])
    {
      assert entities[..i + 1][..i] == entities[..i];
      if KeepEntity(tax, entities[i]) {
        kept := kept + [entities[i].text];
      }
    }
    assert entities[..|entities|] == entities;
    names := Take(Dedup(kept), 20);
  }

  /**
   * Every kept name is an entity with an allowed label, longer than two
   * characters and not a taxonomy skill; there are no repeats and at most
   * 20; when fewer than 20 distinct texts pass, all of them are kept.
   */
  lemma NerSkillsSpec(tax: Skills, entities: seq<Entity>, x: string)
    ensures var names := Take(Dedup(KeptTexts(tax, entities)), 20);
      |names| <= 20 && NoDups(names)
      && (x in names ==> exists e :: (e in entities && e.text == x
            && e.tag in EntityLabels && |x| > 2 && !InTaxonomy(tax, LowerStr(x))))
      && (|names| < 20 && (exists e :: e in entities && KeepEntity(tax, e) && e.text == x) ==> x in names)
  {
    var d := Dedup(KeptTexts(tax, entities));
    var names := Take(d, 20);
    DedupNoDups(KeptTexts(tax, entities));
    DedupMember(KeptTexts(tax, entities), x);
    KeptTextsMember(tax, entities, x);
    FlattenSkillsMember(tax, LowerStr(x));
    assert names == d[..|names|];
    assert NoDups(names) by {
      forall i, j | 0 <= i < j < |names| ensures names[i] != names[j] {
        assert names[i] == d[i] && names[j] == d[j];
      }
    }
    if x in names {
      assert x in d;
    }
    if |names| < 20 {
      assert names == d;
    }
  }

  /**
   * `extract`: the taxonomy skills found in the lowercased text, plus the
   * kept entity names appended under 'extracted_entities' when there are any.
   */
  method Extract(tax: Skills, text: string, entities: seq<Entity>) returns (found: Skills)
    ensures var base := FoundSkills(tax, LowerStr(text));
      forall k :: k != ExtractedEntities ==> Lookup(found, k) == Lookup(base, k)
    ensures var base := FoundSkills(tax, LowerStr(text));
      var ner := Take(Dedup(KeptTexts(tax, entities)), 20);
      Lookup(found, ExtractedEntities) ==
        if ner == [] then Lookup(base, ExtractedEntities) else Some(Get(base, ExtractedEntities, []) + ner)
  {
    var base := MatchTaxonomy(tax, LowerStr(text));
    var ner := ExtractWithNer(tax, entities);
    found := base;
    if ner != [] {
      var current := Get(found, ExtractedEntities, []);
      found := Put(found, ExtractedEntities, current + ner);
      forall k ensures Lookup(found, k) == if k == ExtractedEntities then Some(current + ner) else Lookup(base, k) {
        PutLookup(base, ExtractedEntities, current + ner, k);
      }
    }
  }

  /** Outside 'extracted_entities', `extract` holds exactly the taxonomy skills that occur, per category. */
  lemma ExtractTaxonomyPart(tax: Skills, text: string, c: string)
    requires DistinctKeys(tax) && c != ExtractedEntities
    ensures var hits := FoundIn(Get(tax, c, []), LowerStr(text));
      Lookup(FoundSkills(tax, LowerStr(text)), c) == if c in Keys(tax) && hits != [] then Some(hits) else None
  {
    FoundSkillsLookup(tax, LowerStr(text), c);
  }

  datatype YearsOfExperience = YearsOfExperience(maxYears: nat, totalMentions: nat)

  /**
   * `extract_years_of_experience`. The regular expressions are not modelled:
   * `found[k]` holds the numbers the k-th pattern captures on the lowercased text.
   */
  method ExtractYearsOfExperience(found: seq<seq<nat>>) returns (years: YearsOfExperience)
    ensures years.totalMentions == |Concat(found)|
    ensures forall y :: y in Concat(found) ==> y <= years.maxYears
    ensures Concat(found) != [] ==> years.maxYears in Concat(found)
    ensures Concat(found) == [] ==> years == YearsOfExperience(0, 0)
  {
    var all: seq<nat> := [];
    for i := 0 to |found|
      invariant all == Concat(found[..i])
    {
      assert found[..i + 1][..i] == found[..i];
      all := all + found[i];
    }
    assert found[..|found|] == found;
    if all != [] {
      years := YearsOfExperience(MaxOf(all), |all|);
    } else {
      years := YearsOfExperience(0, 0);
    }
  }

  /** Every skill name listed under a category other than 'extracted_entities'. */
  function CountedNames(extracted: Skills): seq<string> {
    if extracted == [] then []
    else
      var init, last := extracted[..|extracted| - 1], extracted[|extracted| - 1];
      CountedNames(init) + (if last.0 != ExtractedEntities then last.1 else [])
  }

  lemma {:induction false} CountedNamesMember(extracted: Skills, x: string)
    ensures x in CountedNames(extracted) <==>
      exists i, j :: 0 <= i < |extracted| && extracted[i].0 != ExtractedEntities
        && 0 <= j < |extracted[i].1| && extracted[i].1[j] == x
  {
    if extracted != [] {
      var init, last := extracted[..|extracted| - 1], extracted[|extracted| - 1];
      CountedNamesMember(init, x);
      var tail := if last.0 != ExtractedEntities then last.1 else [];
      assert CountedNames(extracted) == CountedNames(init) + tail;
      if x in CountedNames(init) {
        var i, j :| 0 <= i < |init| && init[i].0 != ExtractedEntities && 0 <= j < |init[i].1| && init[i].1[j] == x;
        assert extracted[i] == init[i];
      }
      if x in tail {
        var j :| 0 <= j < |tail| && tail[j] == x;
        assert extracted[|init|] == last;
      }
      if exists i, j :: (0 <= i < |extracted| && extracted[i].0 != ExtractedEntities
        && 0 <= j < |extracted[i].1| && extracted[i].1[j] == x)
      {
        var i, j :| 0 <= i < |extracted| && extracted[i].0 != ExtractedEntities
          && 0 <= j < |extracted[i].1| && extracted[i].1[j] == x;
        if i < |init| {
          assert init[i] == extracted[i];
        }
      }
    }
  }

  /** `get_skill_count`: how many distinct names the categories other than 'extracted_entities' hold. */
  function GetSkillCount(extracted: Skills): (n: nat)
    ensures n <= |CountedNames(extracted)|
  {
    |Dedup(CountedNames(extracted))|
  }

  /** The count is the size of the set of counted names. */
  lemma GetSkillCountDistinct(extracted: Skills)
    ensures GetSkillCount(extracted) == |set x | x in CountedNames(extracted)|
  {
    var names := CountedNames(extracted);
    DedupNoDups(names);
    NoDupsCard(Dedup(names));
    forall x ensures x in Dedup(names) <==> x in names {
      DedupMember(names, x);
    }
    assert (set x | x in Dedup(names)) == (set x | x in names);
  }

  /** Names under 'extracted_entities' never count. */
  lemma GetSkillCountIgnoresEntities(extracted: Skills, names: seq<string>)
    ensures GetSkillCount(extracted + [(ExtractedEntities, names)]) == GetSkillCount(extracted)
  {
    var m := extracted + [(ExtractedEntities, names)];
    assert m[..|m| - 1] == extracted;
    assert CountedNames(m) == CountedNames(extracted) + [];
    assert CountedNames(m) == CountedNames(extracted);
  }

  /** The first category whose lowercased names contain the lowercased skill. */
  function FirstCategory(tax: Skills, lowered: string): (r: Option<string>)
    ensures r.Some? ==> exists k :: 0 <= k < |tax| && tax[k].0 == r.value && lowered in LowerAll(tax[k].1)
    ensures r.None? <==> forall k :: 0 <= k < |tax| ==> lowered !in LowerAll(tax[k].1)
  {
    if tax == [] then None
    else if lowered in LowerAll(tax[0].1) then Some(tax[0].0)
    else
      var r := FirstCategory(tax[1..], lowered);
      assert forall k :: 1 <= k < |tax| ==> tax[k] == tax[1..][k - 1];
      r
  }

  /**
   * The category `categorize_skills` files a skill under: the first matching
   * category, or 'other' when there is none or when its name is the empty
   * string, which Python treats as false.
   */
  function CategoryOf(tax: Skills, skill: string): string {
    match FirstCategory(tax, LowerStr(skill))
    case Some(c) => if c != "" then c else "other"
    case None => "other"
  }

  /** The skills, in input order, that file under category `c`. */
  function SkillsIn(tax: Skills, skills: seq<string>, c: string): seq<string> {
    if skills == [] then []
    else
      var init, last := skills[..|skills| - 1], skills[|skills| - 1];
      SkillsIn(tax, init, c) + (if CategoryOf(tax, last) == c then [last] else [])
  }

  /** The dict `categorize_skills` builds, one append per skill. */
  function Categorized(tax: Skills, skills: seq<string>): Skills {
    if skills == [] then []
    else
      var init, last := skills[..|skills| - 1], skills[|skills| - 1];
      AppendToKey(Categorized(tax, init), CategoryOf(tax, last), last)
  }

  /** `categorize_skills`. */
  method CategorizeSkills(tax: Skills, skills: seq<string>) returns (categorized: Skills)
    ensures categorized == Categorized(tax, skills)
  {
    categorized := [];
    for i := 0 to |skills|
      invariant categorized == Categorized(tax, skills[..i])
    {
      assert skills[..i + 1][..i] == skills[..i];
      categorized := AppendToKey(categorized, CategoryOf(tax, skills[i]), skills[i]);
    }
    assert skills[..|skills|] == skills;
  }

  /**
   * Each category holds exactly the skills filed under it, in input order,
   * and a category is present only when it holds at least one skill.
   */
  lemma {:induction false} CategorizedLookup(tax: Skills, skills: seq<string>, c: string)
    ensures Lookup(Categorized(tax, skills), c) == if SkillsIn(tax, skills, c) == [] then None else Some(SkillsIn(tax, skills, c))
  {
    if skills != [] {
      var init, last := skills[..|skills| - 1], skills[|skills| - 1];
      assert skills == init + [last];
      CategorizedLookup(tax, init, c);
      var prev := Categorized(tax, init);
      var cat := CategoryOf(tax, last);
      AppendToKeyLookup(prev, cat, last, c);
      assert Categorized(tax, skills) == AppendToKey(prev, cat, last);
      assert SkillsIn(tax, skills, c) == SkillsIn(tax, init, c) + (if cat == c then [last] else []);
      if cat == c {
        assert Get(prev, c, []) == SkillsIn(tax, init, c);
        assert Lookup(Categorized(tax, skills), c) == Some(SkillsIn(tax, init, c) + [last]);
      } else {
        assert SkillsIn(tax, skills, c) == SkillsIn(tax, init, c);
        assert Lookup(Categorized(tax, skills), c) == Lookup(prev, c);
      }
    }
  }

  /** Every input skill is filed exactly once: the dict's contents are the input, as a multiset. */
  lemma {:induction false} CategorizedContents(tax: Skills, skills: seq<string>)
    ensures multiset(Flatten(Categorized(tax, skills))) == multiset(skills)
  {
    if skills != [] {
      var init, last := skills[..|skills| - 1], skills[|skills| - 1];
      assert skills == init + [last];
      CategorizedContents(tax, init);
      AppendToKeyContents(Categorized(tax, init), CategoryOf(tax, last), last);
    }
  }
}
