/**
 * The skill taxonomies the ESCO and O*NET fetchers return: a dict from
 * category name to a list of skill records, modelled as an association list
 * in the dict's insertion order. `get_all_skill_names` is the same code in
 * both fetchers and is modelled once here.
 */
module FetchedSkills {
  import opened TextUtil

  /** One skill record `{'id': ..., 'name': ..., 'description': ...}`. */
  datatype SkillRecord = SkillRecord(id: string, name: string, description: string)

  /** `Dict[str, List[Dict]]`: category name to its skill records. */
  type SkillsData = seq<(string, seq<SkillRecord>)>

  /** A record together with the category it is listed under. */
  datatype Tagged = Tagged(record: SkillRecord, category: string)

  /** `[skill['name'] for skill in skills]`. */
  function NamesOf(rs: seq<SkillRecord>): (r: seq<string>)
    ensures |r| == |rs|
  {
    seq(|rs|, k requires 0 <= k < |rs| => rs[k].name)
  }

  /** The records of one category, each tagged with that category. */
  function TagAll(rs: seq<SkillRecord>, category: string): (r: seq<Tagged>)
    ensures |r| == |rs|
  {
    seq(|rs|, k requires 0 <= k < |rs| => Tagged(rs[k], category))
  }

  /** Every record with its category, category by category and in list order. */
  function AllTagged(data: SkillsData): seq<Tagged> {
    if data == [] then []
    else AllTagged(data[..|data| - 1]) + TagAll(data[|data| - 1].1, data[|data| - 1].0)
  }

  /** A tagged record comes from exactly the category it names. */
  lemma {:induction false} AllTaggedMember(data: SkillsData, t: Tagged)
    ensures t in AllTagged(data) <==>
      exists i :: 0 <= i < |data| && data[i].0 == t.category && t.record in data[i].1
    decreases |data|
  {
    if data != [] {
      var n := |data| - 1;
      AllTaggedMember(data[..n], t);
      var last := TagAll(data[n].1, data[n].0);
      if t in last {
        var k :| 0 <= k < |last| && last[k] == t;
        assert data[n].1[k] == t.record;
      }
      if t.category == data[n].0 && t.record in data[n].1 {
        var k :| 0 <= k < |data[n].1| && data[n].1[k] == t.record;
        assert last[k] == t;
      }
      forall i | 0 <= i < n ensures data[..n][i] == data[i] {
      }
    }
  }

  /** The names of all records, category by category. */
  function SkillNames(data: SkillsData): seq<string> {
    if data == [] then [] else SkillNames(data[..|data| - 1]) + NamesOf(data[|data| - 1].1)
  }

  /** One name per skill record, in category order. */
  lemma {:induction false} SkillNamesOfRecords(data: SkillsData)
    ensures |SkillNames(data)| == |AllTagged(data)|
    ensures forall k :: 0 <= k < |SkillNames(data)| ==> SkillNames(data)[k] == AllTagged(data)[k].record.name
    decreases |data|
  {
    if data != [] {
      var n := |data| - 1;
      SkillNamesOfRecords(data[..n]);
      var p: seq<string>, q: seq<Tagged> := SkillNames(data[..n]), AllTagged(data[..n]);
      var names: seq<string>, tags: seq<Tagged> := NamesOf(data[n].1), TagAll(data[n].1, data[n].0);
      forall k | 0 <= k < |p| + |names| ensures (p + names)[k] == (q + tags)[k].record.name {
        if k >= |p| {
          assert names[k - |p|] == tags[k - |p|].record.name;
        }
      }
    }
  }

  /** `get_all_skill_names` over the given taxonomy. */
  method GetAllSkillNames(data: SkillsData) returns (names: seq<string>)
    ensures names == SkillNames(data)
  {
    names := [];
    for i := 0 to |data|
      invariant names == SkillNames(data[..i])
    {
      assert data[..i + 1][..i] == data[..i];
      names := names + NamesOf(data[i].1);
    }
    assert data[..|data|] == data;
  }
}
