/**
 * Skill matching between a resume and a job description: exact matches on normalised
 * names first, then a greedy one-to-one fuzzy pass over what is left, then statistics,
 * per-category matching and a classification of the skills still missing
 * (src/processing/similarity_matcher.py).
 */
module SimilarityMatcher {
  import opened TextUtil
  import Sorting

  /** A score of `fuzz.ratio`: an integer from 0 to 100. */
  type Percent = x: int | 0 <= x <= 100

  /** `fuzz.ratio`, the Levenshtein-based similarity; its computation is a parameter here. */
  type Ratio = (string, string) -> Percent

  const DefaultThreshold: int := 85
  const DefaultTopN: int := 5

  datatype FuzzyPair = FuzzyPair(required: string, resume: string, score: int)

  datatype MatchResult = MatchResult(
    matchedExact: seq<string>,
    matchedFuzzy: seq<string>,
    fuzzyPairs: seq<FuzzyPair>,
    missing: seq<string>,
    extra: seq<string>,
    totalRequired: nat,
    totalMatched: nat,
    matchPercentage: real)

  /** `threshold if threshold is not None else self.default_threshold`. */
  function ResolveThreshold(threshold: Option<int>, default: int): int {
    match threshold
    case Some(t) => t
    case None => default
  }

  /** `s.lower().strip()`. */
  function NormalizeSkill(s: string): string {
    Strip(LowerStr(s))
  }

  /** `[s.lower().strip() for s in skills if s]`: empty names are skipped before normalising. */
  function NormalizeSkills(skills: seq<string>): (r: seq<string>)
    ensures |r| <= |skills|
  {
    if skills == [] then [] else
      var init := NormalizeSkills(skills[..|skills| - 1]);
      var last := skills[|skills| - 1];
      if last != "" then init + [NormalizeSkill(last)] else init
  }

  /** The elements of `s` that occur in `t`, in the order of `s`. */
  function Keep(s: seq<string>, t: seq<string>): (r: seq<string>)
    ensures |r| <= |s|
  {
    if s == [] then [] else
      var init := Keep(s[..|s| - 1], t);
      if s[|s| - 1] in t then init + [s[|s| - 1]] else init
  }

  /** The elements of `s` that do not occur in `t`, in the order of `s`. */
  function Drop(s: seq<string>, t: seq<string>): (r: seq<string>)
    ensures |r| <= |s|
  {
    if s == [] then [] else
      var init := Drop(s[..|s| - 1], t);
      if s[|s| - 1] in t then init else init + [s[|s| - 1]]
  }

  /** `s & t` on the set of `s`. */
  lemma {:induction false} KeepMember(s: seq<string>, t: seq<string>, x: string)
    ensures x in Keep(s, t) <==> x in s && x in t
    decreases |s|
  {
    if s != [] {
      var init := s[..|s| - 1];
      assert s == init + [s[|s| - 1]];
      KeepMember(init, t, x);
    }
  }

  /** `s - t` on the set of `s`. */
  lemma {:induction false} DropMember(s: seq<string>, t: seq<string>, x: string)
    ensures x in Drop(s, t) <==> x in s && x !in t
    decreases |s|
  {
    if s != [] {
      var init := s[..|s| - 1];
      assert s == init + [s[|s| - 1]];
      DropMember(init, t, x);
    }
  }

  /** Keep and Drop split `s` between them. */
  lemma {:induction false} KeepDropCount(s: seq<string>, t: seq<string>)
    ensures |Keep(s, t)| + |Drop(s, t)| == |s|
    decreases |s|
  {
    if s != [] {
      KeepDropCount(s[..|s| - 1], t);
    }
  }

  /** Filtering a duplicate-free sequence leaves it duplicate-free. */
  lemma {:induction false} KeepDropNoDups(s: seq<string>, t: seq<string>)
    requires NoDups(s)
    ensures NoDups(Keep(s, t)) && NoDups(Drop(s, t))
    decreases |s|
  {
    if s != [] {
      var init, last := s[..|s| - 1], s[|s| - 1];
      assert NoDups(init) by {
        forall i, j | 0 <= i < j < |init| ensures init[i] != init[j] {
          assert init[i] == s[i] && init[j] == s[j];
        }
      }
      KeepDropNoDups(init, t);
      forall k | 0 <= k < |init| ensures init[k] != last {
        assert init[k] == s[k];
      }
      KeepMember(init, t, last);
      DropMember(init, t, last);
      if last in t {
        NoDupsSnoc(Keep(init, t), last);
      } else {
        NoDupsSnoc(Drop(init, t), last);
      }
    }
  }

  lemma {:induction false} DistinctSize(s: seq<string>)
    requires NoDups(s)
    ensures |set x | x in s| == |s|
    decreases |s|
  {
    if s != [] {
      var init := s[..|s| - 1];
      assert s == init + [s[|s| - 1]];
      assert NoDups(init) by {
        forall i, j | 0 <= i < j < |init| ensures init[i] != init[j] {
          assert init[i] == s[i] && init[j] == s[j];
        }
      }
      DistinctSize(init);
      assert (set x | x in s) == (set x | x in init) + {s[|s| - 1]};
    }
  }

  /** Removing a duplicate-free subset `t` of `s` leaves `|s| - |t|` elements. */
  lemma DropCount(s: seq<string>, t: seq<string>)
    requires NoDups(s) && NoDups(t)
    requires forall x :: x in t ==> x in s
    ensures |Drop(s, t)| == |s| - |t|
    ensures NoDups(Drop(s, t))
  {
    KeepDropCount(s, t);
    KeepDropNoDups(s, t);
    DistinctSize(Keep(s, t));
    DistinctSize(t);
    forall x ensures x in Keep(s, t) <==> x in t {
      KeepMember(s, t, x);
    }
    assert (set x | x in Keep(s, t)) == (set x | x in t);
  }

  /**
   * The inner loop of the fuzzy pass over `pool[..k]`: the score and index of the first
   * candidate with the highest score that reaches `threshold` and beats 0; index -1 when
   * no candidate qualifies.
   */
  function BestCandidate(req: string, pool: seq<string>, k: nat, threshold: int, ratio: Ratio): (b: (int, int))
    requires k <= |pool|
    ensures -1 <= b.1 < k
    ensures b.1 == -1 ==> b.0 == 0
    ensures b.1 >= 0 ==> b.0 == ratio(req, pool[b.1]) && b.0 >= threshold && b.0 > 0
    ensures forall j :: 0 <= j < k && ratio(req, pool[j]) >= threshold ==> ratio(req, pool[j]) <= b.0
    ensures forall j :: 0 <= j < b.1 ==> ratio(req, pool[j]) < b.0
    decreases k
  {
    if k == 0 then (0, -1) else
      var b := BestCandidate(req, pool, k - 1, threshold, ratio);
      var score := ratio(req, pool[k - 1]);
      if score >= threshold && score > b.0 then (score, k - 1) else b
  }

  datatype FuzzyState = FuzzyState(matched: seq<string>, pairs: seq<FuzzyPair>, pool: seq<string>)

  function RemoveAt(s: seq<string>, i: nat): seq<string>
    requires i < |s|
  {
    s[..i] + s[i + 1..]
  }

  /**
   * One round of the fuzzy pass for required skill `req`: the best remaining resume skill is
   * paired with it and discarded from the pool; a best match that is the empty string is
   * falsy in Python and pairs nothing.
   */
  function FuzzyStep(st: FuzzyState, req: string, threshold: int, ratio: Ratio): FuzzyState {
    var b := BestCandidate(req, st.pool, |st.pool|, threshold, ratio);
    if b.1 >= 0 && st.pool[b.1] != "" then
      FuzzyState(st.matched + [req], st.pairs + [FuzzyPair(req, st.pool[b.1], b.0)], RemoveAt(st.pool, b.1))
    else st
  }

  /** The fuzzy pass over the unmatched required skills, in order. */
  function FuzzyRun(reqs: seq<string>, st: FuzzyState, threshold: int, ratio: Ratio): FuzzyState
    decreases |reqs|
  {
    if reqs == [] then st
    else FuzzyStep(FuzzyRun(reqs[..|reqs| - 1], st, threshold, ratio), reqs[|reqs| - 1], threshold, ratio)
  }

  function Resumes(pairs: seq<FuzzyPair>): (r: seq<string>)
    ensures |r| == |pairs|
    ensures forall i :: 0 <= i < |pairs| ==> r[i] == pairs[i].resume
  {
    if pairs == [] then [] else Resumes(pairs[..|pairs| - 1]) + [pairs[|pairs| - 1].resume]
  }

  /**
   * Every pair joins the required skill matched in the same round to a non-empty resume
   * skill whose positive score reaches the threshold.
   */
  ghost predicate PairsScored(st: FuzzyState, threshold: int, ratio: Ratio) {
    && |st.pairs| == |st.matched|
    && (forall i :: 0 <= i < |st.pairs| ==>
          st.pairs[i].required == st.matched[i] && st.pairs[i].score >= threshold && st.pairs[i].score > 0
          && st.pairs[i].score == ratio(st.matched[i], st.pairs[i].resume) && st.pairs[i].resume != "")
  }

  /** The fuzzily matched skills are distinct skills of `reqs`. */
  ghost predicate MatchedFrom(st: FuzzyState, reqs: seq<string>) {
    NoDups(st.matched) && forall x :: x in st.matched ==> x in reqs
  }

  /** The remaining pool and the paired resume skills split the initial pool. */
  ghost predicate PoolSplit(st: FuzzyState, pool0: seq<string>) {
    && NoDups(st.pool) && NoDups(Resumes(st.pairs))
    && (forall x :: x in pool0 <==> x in st.pool || x in Resumes(st.pairs))
    && (forall x :: x in st.pool ==> x !in Resumes(st.pairs))
    && |st.pool| + |st.pairs| == |pool0|
  }

  lemma RemoveAtFacts(s: seq<string>, i: nat)
    requires i < |s| && NoDups(s)
    ensures NoDups(RemoveAt(s, i))
    ensures forall x :: x in RemoveAt(s, i) <==> x in s && x != s[i]
    ensures |RemoveAt(s, i)| == |s| - 1
  {
    var r := RemoveAt(s, i);
    forall x | x in s && x != s[i] ensures x in r {
      var k :| 0 <= k < |s| && s[k] == x;
      if k < i { assert r[k] == x; } else { assert r[k - 1] == x; }
    }
    forall a, b | 0 <= a < b < |r| ensures r[a] != r[b] {
      var a', b' := if a < i then a else a + 1, if b < i then b else b + 1;
      assert r[a] == s[a'] && r[b] == s[b'];
    }
  }

  lemma FuzzyStepScored(st: FuzzyState, req: string, threshold: int, ratio: Ratio)
    requires PairsScored(st, threshold, ratio)
    ensures PairsScored(FuzzyStep(st, req, threshold, ratio), threshold, ratio)
  {
    var st' := FuzzyStep(st, req, threshold, ratio);
    forall i | 0 <= i < |st'.pairs|
      ensures st'.pairs[i].required == st'.matched[i] && st'.pairs[i].score >= threshold && st'.pairs[i].score > 0
        && st'.pairs[i].score == ratio(st'.matched[i], st'.pairs[i].resume) && st'.pairs[i].resume != ""
    {
      if i < |st.pairs| {
        assert st'.pairs[i] == st.pairs[i] && st'.matched[i] == st.matched[i];
      }
    }
  }

  lemma FuzzyStepMatched(st: FuzzyState, reqs: seq<string>, threshold: int, ratio: Ratio)
    requires |reqs| > 0 && NoDups(reqs)
    requires MatchedFrom(st, reqs[..|reqs| - 1])
    ensures MatchedFrom(FuzzyStep(st, reqs[|reqs| - 1], threshold, ratio), reqs)
  {
    var req, init := reqs[|reqs| - 1], reqs[..|reqs| - 1];
    assert reqs == init + [req];
    forall k | 0 <= k < |init| ensures init[k] != req {
      assert init[k] == reqs[k];
    }
    if FuzzyStep(st, req, threshold, ratio) != st {
      NoDupsSnoc(st.matched, req);
    }
  }

  lemma FuzzyStepPool(st: FuzzyState, req: string, pool0: seq<string>, threshold: int, ratio: Ratio)
    requires PoolSplit(st, pool0)
    ensures PoolSplit(FuzzyStep(st, req, threshold, ratio), pool0)
  {
    var b := BestCandidate(req, st.pool, |st.pool|, threshold, ratio);
    if b.1 >= 0 && st.pool[b.1] != "" {
      var st' := FuzzyStep(st, req, threshold, ratio);
      var m := st.pool[b.1];
      RemoveAtFacts(st.pool, b.1);
      assert st'.pairs[..|st'.pairs| - 1] == st.pairs;
      assert Resumes(st'.pairs) == Resumes(st.pairs) + [m];
      NoDupsSnoc(Resumes(st.pairs), m);
    }
  }

  /** What the fuzzy pass keeps true after every round. */
  ghost predicate FuzzyInv(st: FuzzyState, reqs: seq<string>, pool0: seq<string>, threshold: int, ratio: Ratio) {
    PairsScored(st, threshold, ratio) && MatchedFrom(st, reqs) && PoolSplit(st, pool0)
  }

  lemma {:induction false} FuzzyRunInv(reqs: seq<string>, pool0: seq<string>, threshold: int, ratio: Ratio)
    requires NoDups(reqs) && NoDups(pool0)
    ensures FuzzyInv(FuzzyRun(reqs, FuzzyState([], [], pool0), threshold, ratio), reqs, pool0, threshold, ratio)
    decreases |reqs|
  {
    if reqs != [] {
      var init := reqs[..|reqs| - 1];
      assert NoDups(init) by {
        forall i, j | 0 <= i < j < |init| ensures init[i] != init[j] {
          assert init[i] == reqs[i] && init[j] == reqs[j];
        }
      }
      FuzzyRunInv(init, pool0, threshold, ratio);
      var st := FuzzyRun(init, FuzzyState([], [], pool0), threshold, ratio);
      FuzzyStepScored(st, reqs[|reqs| - 1], threshold, ratio);
      FuzzyStepMatched(st, reqs, threshold, ratio);
      FuzzyStepPool(st, reqs[|reqs| - 1], pool0, threshold, ratio);
    }
  }

  /**
   * The matching once both lists are normalised: `required` keeps its duplicates, `resumeSet`
   * is the resume's set of names.
   */
  function MatchSets(required: seq<string>, resumeSet: seq<string>, threshold: int, ratio: Ratio): MatchResult {
    var requiredSet := Dedup(required);
    var exact := Keep(requiredSet, resumeSet);
    var unmatchedRequired := Drop(requiredSet, exact);
    var st := FuzzyRun(unmatchedRequired, FuzzyState([], [], Drop(resumeSet, exact)), threshold, ratio);
    var total := |exact| + |st.matched|;
    MatchResult(exact, st.matched, st.pairs, Drop(unmatchedRequired, st.matched), st.pool,
      |required|, total, Percentage(total, |required|))
  }

  /** `match_skills`: what the source computes, as a function of its inputs. */
  function Match(resumeSkills: seq<string>, requiredSkills: seq<string>, threshold: int, ratio: Ratio): MatchResult {
    MatchSets(NormalizeSkills(requiredSkills), Dedup(NormalizeSkills(resumeSkills)), threshold, ratio)
  }

  /**
   * The inner loop of `match_skills`: scans the unused resume skills for the first one with
   * the highest score reaching the threshold.
   */
  method FindBest(req: string, pool: seq<string>, t: int, ratio: Ratio) returns (bestScore: int, bestIdx: int)
    ensures (bestScore, bestIdx) == BestCandidate(req, pool, |pool|, t, ratio)
  {
    bestScore, bestIdx := 0, -1;
    var j := 0;
    while j < |pool|
      invariant 0 <= j <= |pool|
      invariant (bestScore, bestIdx) == BestCandidate(req, pool, j, t, ratio)
    {
      var score := ratio(req, pool[j]);
      if score >= t && score > bestScore {
        bestScore, bestIdx := score, j;
      }
      j := j + 1;
    }
  }

  /**
   * The outer loop of `match_skills`: pairs each unmatched required skill with its best unused
   * resume skill and discards that one.
   */
  method FuzzyPass(reqs: seq<string>, pool0: seq<string>, t: int, ratio: Ratio) returns (st: FuzzyState)
    ensures st == FuzzyRun(reqs, FuzzyState([], [], pool0), t, ratio)
  {
    var pool := pool0;
    var matchedFuzzy: seq<string> := [];
    var pairs: seq<FuzzyPair> := [];
    var i := 0;
    while i < |reqs|
      invariant 0 <= i <= |reqs|
      invariant FuzzyState(matchedFuzzy, pairs, pool) == FuzzyRun(reqs[..i], FuzzyState([], [], pool0), t, ratio)
    {
      var req := reqs[i];
      var bestScore, bestIdx := FindBest(req, pool, t, ratio);
      if bestIdx >= 0 && pool[bestIdx] != "" {
        matchedFuzzy := matchedFuzzy + [req];
        pairs := pairs + [FuzzyPair(req, pool[bestIdx], bestScore)];
        pool := pool[..bestIdx] + pool[bestIdx + 1..];
      }
      assert reqs[..i + 1][..i] == reqs[..i];
      i := i + 1;
    }
    assert reqs[..i] == reqs;
    st := FuzzyState(matchedFuzzy, pairs, pool);
  }

  /** The body of `match_skills` after normalisation. */
  method MatchNormalized(required: seq<string>, resumeSet: seq<string>, t: int, ratio: Ratio) returns (r: MatchResult)
    ensures r == MatchSets(required, resumeSet, t, ratio)
  {
    var requiredSet := Dedup(required);
    var exact := Keep(requiredSet, resumeSet);
    var unmatchedRequired := Drop(requiredSet, exact);
    var st := FuzzyPass(unmatchedRequired, Drop(resumeSet, exact), t, ratio);
    var total := |exact| + |st.matched|;
    var percentage := Percentage(total, |required|);
    r := MatchResult(exact, st.matched, st.pairs, Drop(unmatchedRequired, st.matched), st.pool,
      |required|, total, percentage);
  }

  /**
   * `SimilarityMatcher.match_skills`: exact intersection of the normalised skill sets, then for
   * each unmatched required skill the greedy choice of the best unused resume skill.
   */
  method MatchSkills(resumeSkills: seq<string>, requiredSkills: seq<string>, threshold: Option<int>, ratio: Ratio)
    returns (r: MatchResult)
    ensures r == Match(resumeSkills, requiredSkills, ResolveThreshold(threshold, DefaultThreshold), ratio)
  {
    var t := ResolveThreshold(threshold, DefaultThreshold);
    r := MatchNormalized(NormalizeSkills(requiredSkills), Dedup(NormalizeSkills(resumeSkills)), t, ratio);
  }

  lemma MatchSetsPartition(required: seq<string>, resumeSet: seq<string>, threshold: int, ratio: Ratio)
    requires NoDups(resumeSet)
    ensures var r := MatchSets(required, resumeSet, threshold, ratio);
      && NoDups(r.matchedExact) && NoDups(r.matchedFuzzy) && NoDups(r.missing)
      && (forall x :: x in required <==> x in r.matchedExact || x in r.matchedFuzzy || x in r.missing)
      && (forall x :: x in r.matchedExact ==> x !in r.matchedFuzzy && x !in r.missing && x in resumeSet)
      && (forall x :: x in r.matchedFuzzy ==> x !in r.missing && x !in resumeSet)
      && (forall x :: x in r.missing ==> x !in resumeSet)
      && |r.matchedExact| + |r.matchedFuzzy| + |r.missing| == |Dedup(required)|
  {
    var requiredSet := Dedup(required);
    var exact := Keep(requiredSet, resumeSet);
    var unmatched := Drop(requiredSet, exact);
    var pool0 := Drop(resumeSet, exact);
    var st := FuzzyRun(unmatched, FuzzyState([], [], pool0), threshold, ratio);
    var missing := Drop(unmatched, st.matched);
    DedupNoDups(required);
    KeepDropNoDups(requiredSet, resumeSet);
    KeepDropNoDups(requiredSet, exact);
    KeepDropNoDups(resumeSet, exact);
    FuzzyRunInv(unmatched, pool0, threshold, ratio);
    assert MatchedFrom(st, unmatched);
    forall x | x in exact ensures x in requiredSet {
      KeepMember(requiredSet, resumeSet, x);
    }
    DropCount(requiredSet, exact);
    DropCount(unmatched, st.matched);
    forall x
      ensures (x in required <==> x in exact || x in st.matched || x in missing)
      ensures x in exact ==> x !in st.matched && x !in missing && x in resumeSet
      ensures x in st.matched ==> x !in missing && x !in resumeSet
      ensures x in missing ==> x !in resumeSet
    {
      DedupMember(required, x);
      KeepMember(requiredSet, resumeSet, x);
      DropMember(requiredSet, exact, x);
      DropMember(unmatched, st.matched, x);
    }
  }

  lemma MatchSetsPairs(required: seq<string>, resumeSet: seq<string>, threshold: int, ratio: Ratio)
    requires NoDups(resumeSet)
    ensures var r := MatchSets(required, resumeSet, threshold, ratio);
      && |r.fuzzyPairs| == |r.matchedFuzzy|
      && (forall i :: 0 <= i < |r.fuzzyPairs| ==>
            r.fuzzyPairs[i].required == r.matchedFuzzy[i]
            && threshold <= r.fuzzyPairs[i].score && 0 < r.fuzzyPairs[i].score
            && r.fuzzyPairs[i].score == ratio(r.matchedFuzzy[i], r.fuzzyPairs[i].resume)
            && r.fuzzyPairs[i].resume in resumeSet && r.fuzzyPairs[i].resume !in required
            && r.fuzzyPairs[i].resume !in r.extra)
      && NoDups(Resumes(r.fuzzyPairs)) && NoDups(r.extra)
      && (forall x :: x in r.extra ==> x in resumeSet && x !in required)
      && |r.extra| + |r.matchedFuzzy| + |r.matchedExact| == |resumeSet|
  {
    var requiredSet := Dedup(required);
    var exact := Keep(requiredSet, resumeSet);
    var unmatched := Drop(requiredSet, exact);
    var pool0 := Drop(resumeSet, exact);
    var st := FuzzyRun(unmatched, FuzzyState([], [], pool0), threshold, ratio);
    DedupNoDups(required);
    KeepDropNoDups(requiredSet, resumeSet);
    KeepDropNoDups(requiredSet, exact);
    KeepDropNoDups(resumeSet, exact);
    FuzzyRunInv(unmatched, pool0, threshold, ratio);
    assert PairsScored(st, threshold, ratio) && PoolSplit(st, pool0);
    forall x | x in exact ensures x in resumeSet {
      KeepMember(requiredSet, resumeSet, x);
    }
    DropCount(resumeSet, exact);
    forall x | x in pool0 ensures x in resumeSet && x !in required {
      DropMember(resumeSet, exact, x);
      KeepMember(requiredSet, resumeSet, x);
      DedupMember(required, x);
    }
    forall i | 0 <= i < |st.pairs|
      ensures st.pairs[i].resume in resumeSet && st.pairs[i].resume !in required && st.pairs[i].resume !in st.pool
    {
      assert Resumes(st.pairs)[i] == st.pairs[i].resume;
    }
  }

  /** Each normalised required skill lands in exactly one of exact, fuzzy and missing. */
  lemma MatchPartition(resumeSkills: seq<string>, requiredSkills: seq<string>, threshold: int, ratio: Ratio)
    ensures var r := Match(resumeSkills, requiredSkills, threshold, ratio);
      && NoDups(r.matchedExact) && NoDups(r.matchedFuzzy) && NoDups(r.missing)
      && (forall x :: x in NormalizeSkills(requiredSkills) <==> x in r.matchedExact || x in r.matchedFuzzy || x in r.missing)
      && (forall x :: x in r.matchedExact ==> x !in r.matchedFuzzy && x !in r.missing && x in NormalizeSkills(resumeSkills))
      && (forall x :: x in r.matchedFuzzy ==> x !in r.missing && x !in NormalizeSkills(resumeSkills))
      && (forall x :: x in r.missing ==> x !in NormalizeSkills(resumeSkills))
      && |r.matchedExact| + |r.matchedFuzzy| + |r.missing| == |Dedup(NormalizeSkills(requiredSkills))|
  {
    var resumeSet := Dedup(NormalizeSkills(resumeSkills));
    DedupNoDups(NormalizeSkills(resumeSkills));
    MatchSetsPartition(NormalizeSkills(requiredSkills), resumeSet, threshold, ratio);
    forall x ensures x in resumeSet <==> x in NormalizeSkills(resumeSkills) {
      DedupMember(NormalizeSkills(resumeSkills), x);
    }
  }

  /** The exact matches are precisely the skills on both normalised lists. */
  lemma MatchExactIsIntersection(resumeSkills: seq<string>, requiredSkills: seq<string>, threshold: int, ratio: Ratio)
    ensures forall x :: x in Match(resumeSkills, requiredSkills, threshold, ratio).matchedExact <==>
      x in NormalizeSkills(resumeSkills) && x in NormalizeSkills(requiredSkills)
  {
    forall x
      ensures x in Match(resumeSkills, requiredSkills, threshold, ratio).matchedExact <==>
        x in NormalizeSkills(resumeSkills) && x in NormalizeSkills(requiredSkills)
    {
      DedupMember(NormalizeSkills(resumeSkills), x);
      DedupMember(NormalizeSkills(requiredSkills), x);
      KeepMember(Dedup(NormalizeSkills(requiredSkills)), Dedup(NormalizeSkills(resumeSkills)), x);
    }
  }

  /**
   * Every fuzzy pair joins a required skill to a distinct resume skill that is not an exact
   * match, with a positive score at or above the threshold; the unused resume skills are
   * `extra`, and none of them is a fuzzy partner.
   */
  lemma MatchFuzzyPairs(resumeSkills: seq<string>, requiredSkills: seq<string>, threshold: int, ratio: Ratio)
    ensures var r := Match(resumeSkills, requiredSkills, threshold, ratio);
      && |r.fuzzyPairs| == |r.matchedFuzzy|
      && (forall i :: 0 <= i < |r.fuzzyPairs| ==>
            r.fuzzyPairs[i].required == r.matchedFuzzy[i]
            && threshold <= r.fuzzyPairs[i].score && 0 < r.fuzzyPairs[i].score
            && r.fuzzyPairs[i].score == ratio(r.matchedFuzzy[i], r.fuzzyPairs[i].resume)
            && r.fuzzyPairs[i].resume in NormalizeSkills(resumeSkills)
            && r.fuzzyPairs[i].resume !in NormalizeSkills(requiredSkills)
            && r.fuzzyPairs[i].resume !in r.extra)
      && NoDups(Resumes(r.fuzzyPairs))
      && NoDups(r.extra)
      && (forall x :: x in r.extra ==> x in NormalizeSkills(resumeSkills) && x !in NormalizeSkills(requiredSkills))
      && |r.extra| + |r.matchedFuzzy| + |r.matchedExact| == |Dedup(NormalizeSkills(resumeSkills))|
  {
    var resumeSet := Dedup(NormalizeSkills(resumeSkills));
    DedupNoDups(NormalizeSkills(resumeSkills));
    MatchSetsPairs(NormalizeSkills(requiredSkills), resumeSet, threshold, ratio);
    forall x {
      DedupMember(NormalizeSkills(resumeSkills), x);
    }
  }

  /** The percentage lies in [0, 100] and is 0 for an empty requirement list. */
  lemma MatchPercentageBounds(resumeSkills: seq<string>, requiredSkills: seq<string>, threshold: int, ratio: Ratio)
    ensures var r := Match(resumeSkills, requiredSkills, threshold, ratio);
      && 0.0 <= r.matchPercentage <= 100.0
      && (r.totalRequired == 0 <==> NormalizeSkills(requiredSkills) == [])
      && (r.totalRequired == 0 ==> r.matchPercentage == 0.0)
      && r.totalMatched == |r.matchedExact| + |r.matchedFuzzy|
  {
    var required := NormalizeSkills(requiredSkills);
    var resumeSet := Dedup(NormalizeSkills(resumeSkills));
    DedupNoDups(NormalizeSkills(resumeSkills));
    MatchSetsPartition(required, resumeSet, threshold, ratio);
  }

  /**
   * `total_required` counts the normalised list, duplicates included, while matches count
   * distinct names: a required skill listed twice (say "Python" and "python") caps the
   * percentage at 50 even when the resume has it.
   */
  lemma DuplicateRequiredHalvesPercentage(a: string, b: string, threshold: int, ratio: Ratio)
    requires a != "" && b != "" && NormalizeSkill(a) == NormalizeSkill(b)
    ensures Match([a], [a, b], threshold, ratio).matchPercentage == 50.0
  {
    var n := NormalizeSkill(a);
    assert [a, b][..1] == [a] && [a][..0] == [];
    assert NormalizeSkills([a]) == [n];
    assert NormalizeSkills([a, b]) == [n, n];
    assert Dedup([n]) == [n];
    assert [n, n][..1] == [n];
    assert Dedup([n, n]) == [n];
    assert Keep([n], [n]) == [n];
    assert Drop([n], [n]) == [];
    var r := MatchSets([n, n], [n], threshold, ratio);
    assert Match([a], [a, b], threshold, ratio) == r;
    assert r.totalMatched == 1 && r.totalRequired == 2;
    assert Percentage(1, 2) == 50.0;
  }

  /** `calculate_skill_similarity`: `fuzz.ratio` of the normalised names. */
  function SkillSimilarity(skill1: string, skill2: string, ratio: Ratio): Percent {
    ratio(NormalizeSkill(skill1), NormalizeSkill(skill2))
  }

  /** Letter case never changes a similarity score. */
  lemma SkillSimilarityIgnoresCase(skill1: string, skill2: string, ratio: Ratio)
    ensures SkillSimilarity(LowerStr(skill1), LowerStr(skill2), ratio) == SkillSimilarity(skill1, skill2, ratio)
  {
    LowerStrIdempotent(skill1);
    LowerStrIdempotent(skill2);
  }

  datatype SkillScore = SkillScore(skill: string, score: int)

  /** The candidates whose similarity reaches the threshold, in candidate order. */
  function Qualifying(skill: string, candidates: seq<string>, threshold: int, ratio: Ratio): (r: seq<SkillScore>)
    ensures |r| <= |candidates|
  {
    if candidates == [] then [] else
      var init := Qualifying(skill, candidates[..|candidates| - 1], threshold, ratio);
      var c := candidates[|candidates| - 1];
      var score := SkillSimilarity(skill, c, ratio);
      if score >= threshold then init + [SkillScore(c, score)] else init
  }

  /** Every qualifying entry is a candidate with its own score, at or above the threshold. */
  lemma {:induction false} QualifyingSound(skill: string, candidates: seq<string>, threshold: int, ratio: Ratio, m: SkillScore)
    requires m in Qualifying(skill, candidates, threshold, ratio)
    ensures m.score >= threshold && m.score == SkillSimilarity(skill, m.skill, ratio) && m.skill in candidates
    decreases |candidates|
  {
    var init := candidates[..|candidates| - 1];
    if m in Qualifying(skill, init, threshold, ratio) {
      QualifyingSound(skill, init, threshold, ratio, m);
      assert init[..] == candidates[..|candidates| - 1];
    }
  }

  function ScoreKey(m: SkillScore): real {
    m.score as real
  }

  /** The result of `find_similar_skills` for a resolved threshold. */
  function SimilarSkills(skill: string, candidates: seq<string>, threshold: int, topN: int, ratio: Ratio): seq<SkillScore> {
    Take(Sorting.SortDesc(Qualifying(skill, candidates, threshold, ratio), ScoreKey), topN)
  }

  /**
   * At most `top_n` entries, best first, each a candidate scoring at least the threshold;
   * when nothing is cut, every qualifying candidate is there.
   */
  lemma SimilarSkillsSpec(skill: string, candidates: seq<string>, threshold: int, topN: int, ratio: Ratio)
    ensures var r := SimilarSkills(skill, candidates, threshold, topN, ratio);
      && (topN >= 0 ==> |r| <= topN)
      && (forall i :: 0 <= i < |r| ==>
            r[i].score >= threshold && r[i].score == SkillSimilarity(skill, r[i].skill, ratio) && r[i].skill in candidates)
      && (forall i, j :: 0 <= i < j < |r| ==> r[i].score >= r[j].score)
      && (topN >= |Qualifying(skill, candidates, threshold, ratio)| ==>
            multiset(r) == multiset(Qualifying(skill, candidates, threshold, ratio)))
  {
    var q := Qualifying(skill, candidates, threshold, ratio);
    var sorted := Sorting.SortDesc(q, ScoreKey);
    Sorting.SortDescSpec(q, ScoreKey);
    var r := Take(sorted, topN);
    assert r == sorted[..|r|];
    PrefixSound(skill, candidates, threshold, ratio, sorted, |r|);
    PrefixOrdered(sorted, |r|);
    if topN >= |q| {
      assert r == sorted;
    }
  }

  /** Every entry of a prefix of a reordering of the qualifying candidates qualifies. */
  lemma PrefixSound(skill: string, candidates: seq<string>, threshold: int, ratio: Ratio, sorted: seq<SkillScore>, n: nat)
    requires multiset(sorted) == multiset(Qualifying(skill, candidates, threshold, ratio)) && n <= |sorted|
    ensures forall i :: 0 <= i < n ==>
      sorted[..n][i].score >= threshold && sorted[..n][i].score == SkillSimilarity(skill, sorted[..n][i].skill, ratio)
      && sorted[..n][i].skill in candidates
  {
    forall i | 0 <= i < n
      ensures sorted[..n][i].score >= threshold && sorted[..n][i].score == SkillSimilarity(skill, sorted[..n][i].skill, ratio)
        && sorted[..n][i].skill in candidates
    {
      var m := sorted[i];
      assert m in multiset(sorted);
      QualifyingSound(skill, candidates, threshold, ratio, m);
    }
  }

  /** A prefix of a list sorted by non-increasing score is sorted the same way. */
  lemma PrefixOrdered(sorted: seq<SkillScore>, n: nat)
    requires n <= |sorted|
    requires forall i, j :: 0 <= i < j < |sorted| ==> ScoreKey(sorted[i]) >= ScoreKey(sorted[j])
    ensures forall i, j :: 0 <= i < j < n ==> sorted[..n][i].score >= sorted[..n][j].score
  {
    forall i, j | 0 <= i < j < n ensures sorted[..n][i].score >= sorted[..n][j].score {
      assert ScoreKey(sorted[i]) >= ScoreKey(sorted[j]);
    }
  }

  /** Extending the candidate prefix by one candidate appends it when it qualifies. */
  lemma QualifyingStep(skill: string, candidates: seq<string>, threshold: int, ratio: Ratio, k: nat)
    requires k < |candidates|
    ensures var score := SkillSimilarity(skill, candidates[k], ratio);
      Qualifying(skill, candidates[..k + 1], threshold, ratio) ==
        if score >= threshold then Qualifying(skill, candidates[..k], threshold, ratio) + [SkillScore(candidates[k], score)]
        else Qualifying(skill, candidates[..k], threshold, ratio)
  {
    assert candidates[..k + 1][..k] == candidates[..k];
  }

  /**
   * `find_similar_skills`: the candidates scoring at least the threshold, best first (ties in
   * candidate order), cut to `top_n` with Python slice semantics.
   */
  method FindSimilarSkills(skill: string, candidates: seq<string>, threshold: Option<int>, topN: int, ratio: Ratio)
    returns (r: seq<SkillScore>)
    ensures r == SimilarSkills(skill, candidates, ResolveThreshold(threshold, DefaultThreshold), topN, ratio)
  {
    var t := ResolveThreshold(threshold, DefaultThreshold);
    var matches: seq<SkillScore> := [];
    var k := 0;
    while k < |candidates|
      invariant 0 <= k <= |candidates|
      invariant matches == Qualifying(skill, candidates[..k], t, ratio)
    {
      var score := SkillSimilarity(skill, candidates[k], ratio);
      QualifyingStep(skill, candidates, t, ratio, k);
      if score >= t {
        matches := matches + [SkillScore(candidates[k], score)];
      }
      k := k + 1;
    }
    assert candidates[..k] == candidates;
    r := Take(Sorting.SortDesc(matches, ScoreKey), topN);
  }

  datatype MatchStats = MatchStats(
    totalRequired: nat, exactMatches: nat, fuzzyMatches: nat, totalMatched: nat,
    missingCount: nat, extraCount: nat, matchPercentage: real, coverage: string)

  /** The coverage band of `get_match_statistics`. */
  function Coverage(percentage: real): string {
    if percentage >= 80.0 then "Excellent"
    else if percentage >= 60.0 then "Good"
    else if percentage >= 40.0 then "Fair"
    else "Poor"
  }

  function CoverageRank(band: string): nat {
    if band == "Excellent" then 3 else if band == "Good" then 2 else if band == "Fair" then 1 else 0
  }

  /** A higher percentage never gets a lower coverage band. */
  lemma CoverageMonotone(p: real, q: real)
    requires p <= q
    ensures CoverageRank(Coverage(p)) <= CoverageRank(Coverage(q))
  {
  }

  /** `get_match_statistics`. */
  function MatchStatistics(r: MatchResult): MatchStats {
    MatchStats(r.totalRequired, |r.matchedExact|, |r.matchedFuzzy|, r.totalMatched,
      |r.missing|, |r.extra|, r.matchPercentage, Coverage(r.matchPercentage))
  }

  /**
   * On a result of `match_skills` the counts add up: exact and fuzzy make the total, and
   * total plus missing is the number of distinct required skills.
   */
  lemma MatchStatisticsCounts(resumeSkills: seq<string>, requiredSkills: seq<string>, threshold: int, ratio: Ratio)
    ensures var s := MatchStatistics(Match(resumeSkills, requiredSkills, threshold, ratio));
      && s.totalMatched == s.exactMatches + s.fuzzyMatches
      && s.totalMatched + s.missingCount == |Dedup(NormalizeSkills(requiredSkills))| <= s.totalRequired
      && (s.coverage == "Excellent" <==> s.matchPercentage >= 80.0)
  {
    var resumeSet := Dedup(NormalizeSkills(resumeSkills));
    var r := Match(resumeSkills, requiredSkills, threshold, ratio);
    assert r == MatchSets(NormalizeSkills(requiredSkills), resumeSet, threshold, ratio);
    DedupNoDups(NormalizeSkills(resumeSkills));
    MatchSetsSizes(NormalizeSkills(requiredSkills), resumeSet, threshold, ratio);
    CoverageExcellent(r.matchPercentage);
  }

  /** The top band is given exactly from 80 percent on. */
  lemma CoverageExcellent(p: real)
    ensures Coverage(p) == "Excellent" <==> p >= 80.0
  {
    assert "Good" != "Excellent" by { assert "Good"[0] != "Excellent"[0]; }
    assert "Fair" != "Excellent" by { assert "Fair"[0] != "Excellent"[0]; }
    assert "Poor" != "Excellent" by { assert "Poor"[0] != "Excellent"[0]; }
  }

  /** The sizes of the three parts of the required set, and the counts the result reports. */
  lemma MatchSetsSizes(required: seq<string>, resumeSet: seq<string>, threshold: int, ratio: Ratio)
    requires NoDups(resumeSet)
    ensures var r := MatchSets(required, resumeSet, threshold, ratio);
      && r.totalMatched == |r.matchedExact| + |r.matchedFuzzy|
      && r.totalRequired == |required|
      && |r.matchedExact| + |r.matchedFuzzy| + |r.missing| == |Dedup(required)|
  {
    MatchSetsPartition(required, resumeSet, threshold, ratio);
  }

  /** `match_skills` with its threshold and similarity fixed. */
  type Matcher = (seq<string>, seq<string>) -> MatchResult

  function MatcherFor(threshold: int, ratio: Ratio): Matcher {
    (resumeSkills: seq<string>, requiredSkills: seq<string>) => Match(resumeSkills, requiredSkills, threshold, ratio)
  }

  /** The result of `match_with_categories`: one entry per required category, in order. */
  function MatchCategories(resume: seq<(string, seq<string>)>, required: seq<(string, seq<string>)>, matcher: Matcher): (r: seq<(string, MatchResult)>)
    ensures |r| == |required|
  {
    if required == [] then [] else
      var last := required[|required| - 1];
      MatchCategories(resume, required[..|required| - 1], matcher) + [(last.0, matcher(Get(resume, last.0, []), last.1))]
  }

  /** Every required category gets an entry under its own name, in the same order. */
  lemma {:induction false} MatchCategoriesKeys(resume: seq<(string, seq<string>)>, required: seq<(string, seq<string>)>, matcher: Matcher)
    ensures Keys(MatchCategories(resume, required, matcher)) == Keys(required)
    decreases |required|
  {
    if required != [] {
      var init := required[..|required| - 1];
      MatchCategoriesKeys(resume, init, matcher);
      var r := MatchCategories(resume, required, matcher);
      forall i | 0 <= i < |r| ensures Keys(r)[i] == Keys(required)[i] {
        if i < |init| {
          assert Keys(r)[i] == Keys(MatchCategories(resume, init, matcher))[i];
          assert Keys(required)[i] == Keys(init)[i];
        }
      }
    }
  }

  /**
   * The entry of every required category holds the match of its skills against the resume's
   * skills of that category, or against none when the resume lacks it.
   */
  lemma {:induction false} MatchCategoriesAt(resume: seq<(string, seq<string>)>, required: seq<(string, seq<string>)>, matcher: Matcher, i: nat)
    requires i < |required|
    ensures MatchCategories(resume, required, matcher)[i]
      == (required[i].0, matcher(Get(resume, required[i].0, []), required[i].1))
    decreases |required|
  {
    var init := required[..|required| - 1];
    if i < |init| {
      MatchCategoriesAt(resume, init, matcher, i);
      assert init[i] == required[i];
    }
  }

  /** The body of the loop of `match_with_categories`: one category's `match_skills` call. */
  method MatchCategory(resumeSkills: seq<string>, requiredSkills: seq<string>, t: int, ratio: Ratio) returns (m: MatchResult)
    ensures m == MatcherFor(t, ratio)(resumeSkills, requiredSkills)
  {
    m := MatchSkills(resumeSkills, requiredSkills, Some(t), ratio);
  }

  /**
   * `match_with_categories`: every required category is matched against the resume's
   * skills of the same category (none when the resume lacks it).
   */
  method MatchWithCategories(resume: seq<(string, seq<string>)>, required: seq<(string, seq<string>)>, threshold: Option<int>, ratio: Ratio)
    returns (r: seq<(string, MatchResult)>)
    ensures r == MatchCategories(resume, required, MatcherFor(ResolveThreshold(threshold, DefaultThreshold), ratio))
  {
    var t := ResolveThreshold(threshold, DefaultThreshold);
    ghost var matcher := MatcherFor(t, ratio);
    r := [];
    var i := 0;
    while i < |required|
      invariant 0 <= i <= |required|
      invariant r == MatchCategories(resume, required[..i], matcher)
    {
      var entry := required[i];
      var m := MatchCategory(Get(resume, entry.0, []), entry.1, t, ratio);
      assert required[..i + 1][..i] == required[..i];
      r := r + [(entry.0, m)];
      i := i + 1;
    }
    assert required[..i] == required;
  }

  datatype GapClass = Critical | Important | NiceToHave

  const CriticalKeywords: seq<string> := ["required", "must", "essential"]
  const ImportantKeywords: seq<string> := ["python", "java", "sql", "aws", "docker"]

  /** The bucket `identify_skill_gaps` puts a missing skill in. */
  function ClassifyGap(skill: string): GapClass {
    var lower := LowerStr(skill);
    if ContainsAny(lower, CriticalKeywords) then Critical
    else if ContainsAny(lower, ImportantKeywords) then Important
    else NiceToHave
  }

  /** The skills of one bucket, in the order they are missing. */
  function OfClass(skills: seq<string>, g: GapClass): (r: seq<string>)
    ensures |r| <= |skills|
  {
    if skills == [] then [] else
      var init := OfClass(skills[..|skills| - 1], g);
      if ClassifyGap(skills[|skills| - 1]) == g then init + [skills[|skills| - 1]] else init
  }

  /** The three buckets split the missing skills exactly, duplicates included. */
  lemma {:induction false} GapClassesPartition(skills: seq<string>)
    ensures multiset(OfClass(skills, Critical)) + multiset(OfClass(skills, Important))
      + multiset(OfClass(skills, NiceToHave)) == multiset(skills)
    decreases |skills|
  {
    if skills != [] {
      var init := skills[..|skills| - 1];
      assert skills == init + [skills[|skills| - 1]];
      GapClassesPartition(init);
    }
  }

  const GoodMatchMessage: string := "Good match! " + "Consider highlighting relevant projects and experience."

  /** The advice line for the critical bucket: its first three skills. */
  function CriticalAdvice(critical: seq<string>): string {
    "Priority: Acquire critical skills: " + Join(Take(critical, 3), ", ")
  }

  /** The advice line for the important bucket: its first three skills. */
  function ImportantAdvice(important: seq<string>): string {
    "Strengthen key technical skills: " + Join(Take(important, 3), ", ")
  }

  /** The advice lines of `_generate_gap_recommendations`, in the order they are appended. */
  function GapAdvice(critical: seq<string>, important: seq<string>): seq<string> {
    (if critical != [] then [CriticalAdvice(critical)] else [])
    + (if important != [] then [ImportantAdvice(important)] else [])
    + (if critical == [] && important == [] then [GoodMatchMessage] else [])
  }

  /** `_generate_gap_recommendations`. */
  method GapRecommendations(critical: seq<string>, important: seq<string>) returns (recs: seq<string>)
    ensures recs == GapAdvice(critical, important)
    ensures 1 <= |recs| <= 2
    ensures GoodMatchMessage in recs <==> critical == [] && important == []
    ensures critical != [] ==> recs[0] == CriticalAdvice(critical)
    ensures important != [] ==>
      recs[|recs| - 1] == ImportantAdvice(important)
  {
    var first := CriticalAdvice(critical);
    var second := ImportantAdvice(important);
    assert first[0] == 'P' && second[0] == 'S' && GoodMatchMessage[0] == 'G';
    recs := [];
    if critical != [] {
      recs := recs + [first];
    }
    if important != [] {
      recs := recs + [second];
    }
    if critical == [] && important == [] {
      recs := recs + [GoodMatchMessage];
    }
  }

  datatype Severity = High | Medium | Low

  datatype SkillGaps = SkillGaps(
    critical: seq<string>, important: seq<string>, niceToHave: seq<string>,
    totalGaps: nat, severity: Severity, recommendations: seq<string>)

  /** The loop of `identify_skill_gaps` that sorts the missing skills into the three buckets. */
  method ClassifyGaps(missing: seq<string>) returns (critical: seq<string>, important: seq<string>, nice: seq<string>)
    ensures critical == OfClass(missing, Critical)
    ensures important == OfClass(missing, Important)
    ensures nice == OfClass(missing, NiceToHave)
  {
    critical, important, nice := [], [], [];
    var i := 0;
    while i < |missing|
      invariant 0 <= i <= |missing|
      invariant critical == OfClass(missing[..i], Critical)
      invariant important == OfClass(missing[..i], Important)
      invariant nice == OfClass(missing[..i], NiceToHave)
    {
      var skill := missing[i];
      var lower := LowerStr(skill);
      if ContainsAny(lower, CriticalKeywords) {
        critical := critical + [skill];
      } else if ContainsAny(lower, ImportantKeywords) {
        important := important + [skill];
      } else {
        nice := nice + [skill];
      }
      assert missing[..i + 1][..i] == missing[..i];
      i := i + 1;
    }
    assert missing[..i] == missing;
  }

  /**
   * `identify_skill_gaps`: the skills `match_skills` reports missing, sorted into critical,
   * important and nice-to-have buckets, with a severity and advice.
   */
  method IdentifySkillGaps(resumeSkills: seq<string>, requiredSkills: seq<string>, threshold: Option<int>, ratio: Ratio)
    returns (g: SkillGaps)
    ensures var missing := Match(resumeSkills, requiredSkills, ResolveThreshold(threshold, DefaultThreshold), ratio).missing;
      && g.critical == OfClass(missing, Critical)
      && g.important == OfClass(missing, Important)
      && g.niceToHave == OfClass(missing, NiceToHave)
      && g.totalGaps == |missing|
      && |g.critical| + |g.important| + |g.niceToHave| == |missing|
    ensures g.severity == (if g.critical != [] then High else if g.important != [] then Medium else Low)
    ensures g.recommendations == GapAdvice(g.critical, g.important)
    ensures 1 <= |g.recommendations| <= 2
    ensures GoodMatchMessage in g.recommendations <==> g.severity == Low
  {
    var result := MatchSkills(resumeSkills, requiredSkills, threshold, ratio);
    var missing := result.missing;
    var critical, important, nice := ClassifyGaps(missing);
    GapClassesPartition(missing);
    assert |multiset(missing)| == |missing|;
    var severity := if critical != [] then High else if important != [] then Medium else Low;
    var recs := GapRecommendations(critical, important);
    g := SkillGaps(critical, important, nice, |missing|, severity, recs);
  }
}
