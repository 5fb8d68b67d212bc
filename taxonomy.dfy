/**
 * The skills taxonomy both extractors share: a dict from category name to
 * skill names, its flattening into a set of lowercased names, and the
 * word-boundary search `\bskill\b` that both run against lowercased text.
 * The two extractor classes define these helpers identically, so they are
 * modelled once here.
 */
module Taxonomy {
  import opened TextUtil

  /** Category name to its skill names, in the dict's insertion order. */
  type Skills = seq<(string, seq<string>)>

  /** `[s.lower() for s in names]`. */
  function LowerAll(names: seq<string>): (r: seq<string>)
    ensures |r| == |names|
    ensures forall i :: 0 <= i < |names| ==> r[i] == LowerStr(names[i])
  {
    if names == [] then [] else [LowerStr(names[0])] + LowerAll(names[1..])
  }

  /** Every lowercased skill name, category by category. */
  function LoweredNames(tax: Skills): seq<string> {
    if tax == [] then [] else LowerAll(tax[0].1) + LoweredNames(tax[1..])
  }

  /** `x` is the lowercased form of some skill listed under some category. */
  predicate InTaxonomy(tax: Skills, x: string) {
    exists k, j :: 0 <= k < |tax| && 0 <= j < |tax[k].1| && x == LowerStr(tax[k].1[j])
  }

  lemma {:induction false} LoweredNamesMember(tax: Skills, x: string)
    ensures x in LoweredNames(tax) <==> InTaxonomy(tax, x)
  {
    if tax != [] {
      LoweredNamesMember(tax[1..], x);
      var here := LowerAll(tax[0].1);
      if x in here {
        var j :| 0 <= j < |here| && here[j] == x;
        assert tax[0].1[j] == tax[0].1[j];
      }
      if InTaxonomy(tax[1..], x) {
        var k, j :| 0 <= k < |tax[1..]| && 0 <= j < |tax[1..][k].1| && x == LowerStr(tax[1..][k].1[j]);
        assert tax[k + 1].1[j] == tax[1..][k].1[j];
      }
      if InTaxonomy(tax, x) {
        var k, j :| 0 <= k < |tax| && 0 <= j < |tax[k].1| && x == LowerStr(tax[k].1[j]);
        if k == 0 {
          assert here[j] == x;
        } else {
          assert tax[1..][k - 1].1[j] == tax[k].1[j];
        }
      }
    }
  }

  /** `_flatten_skills`: the set of lowercased names over all categories, listed without duplicates. */
  function FlattenSkills(tax: Skills): (r: seq<string>)
    ensures NoDups(r)
  {
    DedupNoDups(LoweredNames(tax));
    Dedup(LoweredNames(tax))
  }

  /** The flattened set holds exactly the lowercased taxonomy names. */
  lemma FlattenSkillsMember(tax: Skills, x: string)
    ensures x in FlattenSkills(tax) <==> InTaxonomy(tax, x)
  {
    DedupMember(LoweredNames(tax), x);
    LoweredNamesMember(tax, x);
  }

  /** The regular-expression anchor `\b` at position `p`: exactly one side of it is a word character. */
  predicate IsBoundary(t: string, p: nat)
    requires p <= |t|
  {
    (0 < p && IsWordChar(t[p - 1])) != (p < |t| && IsWordChar(t[p]))
  }

  /** `\bw\b` matches `t` at position `i`. */
  predicate WordAt(t: string, w: string, i: nat) {
    i + |w| <= |t| && t[i..i + |w|] == w && IsBoundary(t, i) && IsBoundary(t, i + |w|)
  }

  /** `re.search(r'\b' + re.escape(w) + r'\b', t[from:])`, reporting the leftmost match position. */
  function FindWord(t: string, w: string, from: nat): (r: Option<nat>)
    decreases |t| + 1 - from
    ensures r.Some? ==> from <= r.value <= |t| && WordAt(t, w, r.value)
    ensures r.Some? ==> forall i :: from <= i < r.value ==> !WordAt(t, w, i)
    ensures r.None? ==> forall i :: from <= i ==> !WordAt(t, w, i)
  {
    if from > |t| then None
    else if WordAt(t, w, from) then Some(from)
    else FindWord(t, w, from + 1)
  }

  /**
   * `_skill_exists(skill, text)`. The callers pass the skill and the text
   * already lowercased, so the `IGNORECASE` flag changes nothing.
   */
  predicate SkillExists(skill: string, text: string) {
    FindWord(text, skill, 0).Some?
  }

  /** A skill exists exactly when it occurs somewhere with a word boundary at both ends. */
  lemma SkillExistsSpec(skill: string, text: string)
    ensures SkillExists(skill, text) <==> exists i :: WordAt(text, skill, i)
  {
  }

  /** A word is not found inside a longer word: "java" is absent from "javascript" and present in "java and javascript". */
  lemma JavaNotInJavascript()
    ensures !SkillExists("java", "javascript")
    ensures SkillExists("java", "java and javascript")
  {
    var t := "javascript";
    forall i: nat ensures !WordAt(t, "java", i) {
      if i == 0 {
        assert t[3] == 'a' && t[4] == 's';
      } else if i + 4 <= |t| {
        assert t[i..i + 4][0] == t[i] != 'j';
      }
    }
    assert WordAt("java and javascript", "java", 0);
  }

  /**
   * As written, the closing `\b` after a skill ending in a non-word character
   * (such as "c++") demands a word character right after it, so such a skill
   * is never found at the end of the text or before a space.
   */
  lemma SymbolEndNeedsWordAfter(text: string, skill: string, i: nat)
    requires skill != [] && !IsWordChar(skill[|skill| - 1])
    requires WordAt(text, skill, i)
    ensures i + |skill| < |text| && IsWordChar(text[i + |skill|])
  {
    assert text[i + |skill| - 1] == text[i..i + |skill|][|skill| - 1];
  }

  /** Non-overlapping matches of `\bw\b` from `from` on, as `re.findall` counts them. */
  function CountFrom(t: string, w: string, from: nat): nat
    decreases |t| + 1 - from
  {
    if from > |t| then 0
    else if WordAt(t, w, from) then 1 + CountFrom(t, w, from + (if w == [] then 1 else |w|))
    else CountFrom(t, w, from + 1)
  }

  lemma {:induction false} CountFromPositive(t: string, w: string, from: nat)
    ensures CountFrom(t, w, from) > 0 <==> FindWord(t, w, from).Some?
    decreases |t| + 1 - from
  {
    if from <= |t| && !WordAt(t, w, from) {
      CountFromPositive(t, w, from + 1);
    }
  }

  /** `len(re.findall(r'\b' + re.escape(w) + r'\b', t))`: positive exactly when the word exists. */
  function CountWord(t: string, w: string): (n: nat)
    ensures n > 0 <==> SkillExists(w, t)
  {
    CountFromPositive(t, w, 0);
    CountFrom(t, w, 0)
  }

  /** The skills of one category found in the lowercased text, in taxonomy order. */
  function FoundIn(names: seq<string>, lowered: string): (r: seq<string>)
    ensures |r| <= |names|
  {
    if names == [] then []
    else
      var init, last := names[..|names| - 1], names[|names| - 1];
      FoundIn(init, lowered) + (if SkillExists(LowerStr(last), lowered) then [last] else [])
  }

  /** A category's hits are exactly its skills that pass the word-boundary test. */
  lemma {:induction false} FoundInMember(names: seq<string>, lowered: string, x: string)
    ensures x in FoundIn(names, lowered) <==> x in names && SkillExists(LowerStr(x), lowered)
  {
    if names != [] {
      var init := names[..|names| - 1];
      assert names == init + [names[|names| - 1]];
      FoundInMember(init, lowered, x);
    }
  }

  /** A category's hits keep the taxonomy's order. */
  lemma {:induction false} FoundInOrder(names: seq<string>, lowered: string)
    ensures IsSubsequence(FoundIn(names, lowered), names)
  {
    if names != [] {
      var init, last := names[..|names| - 1], names[|names| - 1];
      assert names == init + [last];
      FoundInOrder(init, lowered);
      assert FoundIn(names, lowered) == FoundIn(init, lowered) + (if SkillExists(LowerStr(last), lowered) then [last] else []);
      if SkillExists(LowerStr(last), lowered) {
        SubsequenceSnoc(FoundIn(init, lowered), init, last);
      } else {
        assert FoundIn(init, lowered) + [] == FoundIn(init, lowered);
        SubsequenceExtend(FoundIn(init, lowered), init, last);
      }
    }
  }

  /** The found skills per category, omitting categories without a hit, in taxonomy order. */
  function FoundSkills(tax: Skills, lowered: string): (r: Skills)
    ensures |r| <= |tax|
    ensures forall i :: 0 <= i < |r| ==> r[i].1 != []
  {
    if tax == [] then []
    else
      var init, last := tax[..|tax| - 1], tax[|tax| - 1];
      var hits := FoundIn(last.1, lowered);
      FoundSkills(init, lowered) + (if hits != [] then [(last.0, hits)] else [])
  }

  lemma {:induction false} FoundSkillsKeys(tax: Skills, lowered: string, c: string)
    ensures c in Keys(FoundSkills(tax, lowered)) ==> c in Keys(tax)
  {
    if tax != [] {
      var init, last := tax[..|tax| - 1], tax[|tax| - 1];
      assert tax == init + [last];
      FoundSkillsKeys(init, lowered, c);
      LookupSnoc(init, last.0, last.1, c);
      var hits := FoundIn(last.1, lowered);
      assert FoundSkills(tax, lowered) == FoundSkills(init, lowered) + (if hits != [] then [(last.0, hits)] else []);
      if hits != [] {
        LookupSnoc(FoundSkills(init, lowered), last.0, hits, c);
      } else {
        assert FoundSkills(tax, lowered) == FoundSkills(init, lowered);
      }
    }
  }

  /**
   * The found-skills dict maps each category to exactly its taxonomy skills
   * that occur in the text, and holds no category without a hit.
   */
  lemma {:induction false} FoundSkillsLookup(tax: Skills, lowered: string, c: string)
    requires DistinctKeys(tax)
    ensures var hits := FoundIn(Get(tax, c, []), lowered);
      Lookup(FoundSkills(tax, lowered), c) == if c in Keys(tax) && hits != [] then Some(hits) else None
  {
    if tax != [] {
      var init, last := tax[..|tax| - 1], tax[|tax| - 1];
      assert tax == init + [last];
      LookupSnoc(init, last.0, last.1, c);
      assert Keys(init) == Keys(tax)[..|init|];
      assert DistinctKeys(init);
      assert last.0 !in Keys(init) by {
        assert Keys(tax)[|init|] == last.0;
      }
      FoundSkillsLookup(init, lowered, c);
      FoundSkillsKeys(init, lowered, last.0);
      var hits := FoundIn(last.1, lowered);
      assert FoundSkills(tax, lowered) == FoundSkills(init, lowered) + (if hits != [] then [(last.0, hits)] else []);
      if hits != [] {
        LookupSnoc(FoundSkills(init, lowered), last.0, hits, c);
      } else {
        assert FoundSkills(tax, lowered) == FoundSkills(init, lowered);
      }
    }
  }

  /**
   * The taxonomy loop shared by `extract` and `_extract_skills_from_text`:
   * for every category and every skill in it, keep the skill when its
   * lowercased name passes the word-boundary test on the lowercased text.
   */
  method MatchTaxonomy(tax: Skills, lowered: string) returns (found: Skills)
    ensures found == FoundSkills(tax, lowered)
  {
    found := [];
    for i := 0 to |tax|
      invariant found == FoundSkills(tax[..i], lowered)
    {
      var category, names := tax[i].0, tax[i].1;
      var hits: seq<string> := [];
      for j := 0 to |names|
        invariant hits == FoundIn(names[..j], lowered)
      {
        assert names[..j + 1][..j] == names[..j];
        if SkillExists(LowerStr(names[j]), lowered) {
          hits := hits + [names[j]];
        }
      }
      assert names[..|names|] == names;
      assert tax[..i + 1][..i] == tax[..i];
      if hits != [] {
        found := found + [(category, hits)];
      }
    }
    assert tax[..|tax|] == tax;
  }
}
