/**
 * The deterministic parts of `Embedder` (src/processing/embedder.py): input cleaning, the
 * empty-input guards, and the greedy one-to-one assignment of `semantic_skill_match`.
 * The sentence-transformer model and KMeans stay outside: cosine similarities and cluster
 * labels are given to the model as function parameters.
 */
module Embedder {
  import opened TextUtil
  import Sorting

  /** Cosine similarity between cleaned resume skill `r` and cleaned JD skill `j`: `similarity_matrix[r][j]`. */
  type SimMatrix = (nat, nat) -> real

  const DefaultSemanticThreshold: real := 0.7

  /** `[str(t).strip() for t in texts if t and str(t).strip()]`. */
  function CleanTexts(texts: seq<string>): (r: seq<string>)
    ensures |r| <= |texts|
  {
    if texts == [] then [] else
      var init := CleanTexts(texts[..|texts| - 1]);
      var t := texts[|texts| - 1];
      if t != [] && Strip(t) != [] then init + [Strip(t)] else init
  }

  /** Cleaning keeps exactly the texts that are not all whitespace, stripped. */
  lemma {:induction false} CleanTextsSpec(texts: seq<string>)
    ensures forall i :: 0 <= i < |CleanTexts(texts)| ==>
      CleanTexts(texts)[i] != [] && !IsSpace(CleanTexts(texts)[i][0]) && !IsSpace(CleanTexts(texts)[i][|CleanTexts(texts)[i]| - 1])
    ensures CleanTexts(texts) == [] <==> forall i :: 0 <= i < |texts| ==> AllSpace(texts[i])
  {
    var r := CleanTexts(texts);
    forall k | 0 <= k < |r| ensures r[k] != [] && !IsSpace(r[k][0]) && !IsSpace(r[k][|r[k]| - 1]) {
      CleanTextsTrimmed(texts, r[k]);
    }
    CleanTextsEmpty(texts);
  }

  /** Every kept text is a non-empty stripped text. */
  lemma {:induction false} CleanTextsTrimmed(texts: seq<string>, t: string)
    requires t in CleanTexts(texts)
    ensures t != [] && !IsSpace(t[0]) && !IsSpace(t[|t| - 1])
    decreases |texts|
  {
    var init, last := texts[..|texts| - 1], texts[|texts| - 1];
    if t in CleanTexts(init) {
      CleanTextsTrimmed(init, t);
    } else {
      StripSpec(last);
    }
  }

  /** Nothing is kept exactly when every text is blank. */
  lemma {:induction false} CleanTextsEmpty(texts: seq<string>)
    ensures CleanTexts(texts) == [] <==> forall i :: 0 <= i < |texts| ==> AllSpace(texts[i])
    decreases |texts|
  {
    if texts != [] {
      var n := |texts| - 1;
      var init, last := texts[..n], texts[n];
      CleanTextsEmpty(init);
      StripSpec(last);
      assert (forall i :: 0 <= i < |texts| ==> AllSpace(texts[i])) <==>
        (forall i :: 0 <= i < n ==> AllSpace(init[i])) && AllSpace(last) by {
        forall i | 0 <= i < n ensures init[i] == texts[i] {
        }
      }
    }
  }

  /**
   * `calculate_similarity`: 0.0 when either text is empty or all whitespace (its embedding
   * is empty); otherwise the cosine similarity of the stripped texts.
   */
  function CalculateSimilarity(text1: string, text2: string, cosine: (string, string) -> real): (s: real)
    ensures text1 == [] || text2 == [] ==> s == 0.0
  {
    if text1 == [] || text2 == [] then 0.0
    else if Strip(text1) == [] || Strip(text2) == [] then 0.0
    else cosine(Strip(text1), Strip(text2))
  }

  /** Whitespace-only texts also have similarity 0.0; any other pair is scored by the model. */
  lemma CalculateSimilarityGuard(text1: string, text2: string, cosine: (string, string) -> real)
    ensures AllSpace(text1) || AllSpace(text2) ==> CalculateSimilarity(text1, text2, cosine) == 0.0
    ensures !AllSpace(text1) && !AllSpace(text2) ==>
      CalculateSimilarity(text1, text2, cosine) == cosine(Strip(text1), Strip(text2))
  {
    StripSpec(text1);
    StripSpec(text2);
  }

  // ---------------------------------------------------------------------------------------
  // semantic_skill_match

  datatype SemanticPair = SemanticPair(jdSkill: string, resumeSkill: string, similarity: real)

  datatype SemanticResult = SemanticResult(
    matched: seq<string>, semanticPairs: seq<SemanticPair>,
    unmatchedJd: seq<string>, unmatchedResume: seq<string>)

  /** Resume skill `r` is not yet taken and may be paired with JD skill `j`. */
  predicate Eligible(sim: SimMatrix, used: set<nat>, threshold: real, r: nat, j: nat) {
    r !in used && sim(r, j) >= threshold && sim(r, j) > 0.0
  }

  /**
   * `(best_score, best_resume_idx)` after the inner loop has looked at resume indices
   * `0 .. k-1` for JD skill `j`; the start value is `(0, -1)`.
   */
  function BestResume(sim: SimMatrix, used: set<nat>, threshold: real, j: nat, k: nat): (b: (real, int))
    ensures -1 <= b.1 < k
  {
    if k == 0 then (0.0, -1)
    else
      var prev := BestResume(sim, used, threshold, j, k - 1);
      var s := sim(k - 1, j);
      if k - 1 !in used && s >= threshold && s > prev.0 then (s, k - 1) else prev
  }

  /**
   * The inner loop picks nothing exactly when no resume index is eligible; otherwise it picks
   * an eligible index of maximal similarity, and the lowest such index (the comparison is strict).
   */
  lemma {:induction false} BestResumeSpec(sim: SimMatrix, used: set<nat>, threshold: real, j: nat, k: nat)
    ensures var b := BestResume(sim, used, threshold, j, k);
      && (b.1 == -1 <==> forall r :: 0 <= r < k ==> !Eligible(sim, used, threshold, r, j))
      && (b.1 == -1 ==> b.0 == 0.0)
      && (b.1 >= 0 ==> Eligible(sim, used, threshold, b.1, j) && b.0 == sim(b.1, j))
      && (b.1 >= 0 ==> forall r :: 0 <= r < k && Eligible(sim, used, threshold, r, j) ==> sim(r, j) <= b.0)
      && (b.1 >= 0 ==> forall r :: 0 <= r < b.1 && Eligible(sim, used, threshold, r, j) ==> sim(r, j) < b.0)
    decreases k
  {
    if k > 0 {
      BestResumeSpec(sim, used, threshold, j, k - 1);
      var prev := BestResume(sim, used, threshold, j, k - 1);
      if prev.1 == -1 && !Eligible(sim, used, threshold, k - 1, j) {
        assert forall r :: 0 <= r < k ==> !Eligible(sim, used, threshold, r, j);
      }
    }
  }

  /** The bookkeeping of the outer loop: `matched`, `semantic_pairs` and the two index sets. */
  datatype AssignState = AssignState(
    matched: seq<string>, pairs: seq<SemanticPair>, usedResume: set<nat>, usedJd: set<nat>)

  /** One iteration of the outer loop, for JD skill `j`. */
  function AssignStep(st: AssignState, resume: seq<string>, jd: seq<string>, sim: SimMatrix, threshold: real, j: nat): AssignState
    requires j < |jd|
  {
    var b := BestResume(sim, st.usedResume, threshold, j, |resume|);
    if b.1 >= 0 then
      AssignState(st.matched + [jd[j]], st.pairs + [SemanticPair(jd[j], resume[b.1], b.0)],
        st.usedResume + {b.1}, st.usedJd + {j})
    else st
  }

  /** The state after the outer loop has handled JD skills `0 .. k-1`. */
  function Assign(resume: seq<string>, jd: seq<string>, sim: SimMatrix, threshold: real, k: nat): AssignState
    requires k <= |jd|
  {
    if k == 0 then AssignState([], [], {}, {})
    else AssignStep(Assign(resume, jd, sim, threshold, k - 1), resume, jd, sim, threshold, k - 1)
  }

  /** The elements of `s` whose index is in `used`, in order. */
  function Picked<T>(s: seq<T>, used: set<nat>): (r: seq<T>)
    ensures |r| <= |s|
  {
    if s == [] then [] else
      Picked(s[..|s| - 1], used) + (if |s| - 1 in used then [s[|s| - 1]] else [])
  }

  /** `[x for idx, x in enumerate(s) if idx not in used]`. */
  function Unpicked<T>(s: seq<T>, used: set<nat>): (r: seq<T>)
    ensures |r| <= |s|
  {
    if s == [] then [] else
      Unpicked(s[..|s| - 1], used) + (if |s| - 1 !in used then [s[|s| - 1]] else [])
  }

  /** Only the indices below `|s|` matter to `Picked` and `Unpicked`. */
  lemma {:induction false} PickedAgree<T>(s: seq<T>, u: set<nat>, v: set<nat>)
    requires forall i: nat :: i < |s| ==> (i in u <==> i in v)
    ensures Picked(s, u) == Picked(s, v) && Unpicked(s, u) == Unpicked(s, v)
    decreases |s|
  {
    if s != [] {
      PickedAgree(s[..|s| - 1], u, v);
    }
  }

  /** Picked and unpicked elements together account for all of `s`. */
  lemma {:induction false} PickedCount<T>(s: seq<T>, used: set<nat>)
    requires forall i :: i in used ==> i < |s|
    ensures |Picked(s, used)| == |used|
    ensures |Picked(s, used)| + |Unpicked(s, used)| == |s|
    decreases |s|
  {
    if s != [] {
      var n := |s| - 1;
      var rest := used - {n};
      PickedAgree(s[..n], used, rest);
      PickedCount(s[..n], rest);
      if n in used {
        assert used == rest + {n};
      } else {
        assert used == rest;
      }
    }
  }

  /** What stays true across the outer loop. */
  ghost predicate AssignInv(st: AssignState, resume: seq<string>, jd: seq<string>, threshold: real, k: nat)
    requires k <= |jd|
  {
    && (forall r :: r in st.usedResume ==> r < |resume|)
    && (forall j :: j in st.usedJd ==> j < k)
    && |st.usedResume| == |st.matched|
    && st.matched == Picked(jd[..k], st.usedJd)
    && |st.pairs| == |st.matched|
    && (forall i :: 0 <= i < |st.pairs| ==>
          st.pairs[i].jdSkill == st.matched[i] && st.pairs[i].similarity >= threshold && st.pairs[i].similarity > 0.0)
  }

  /** One iteration of the outer loop keeps the invariant. */
  lemma AssignStepInv(st: AssignState, resume: seq<string>, jd: seq<string>, sim: SimMatrix, threshold: real, k: nat)
    requires k < |jd| && AssignInv(st, resume, jd, threshold, k)
    ensures AssignInv(AssignStep(st, resume, jd, sim, threshold, k), resume, jd, threshold, k + 1)
  {
    var b := BestResume(sim, st.usedResume, threshold, k, |resume|);
    BestResumeSpec(sim, st.usedResume, threshold, k, |resume|);
    assert jd[..k + 1][..k] == jd[..k];
    if b.1 >= 0 {
      PickedAgree(jd[..k], st.usedJd, st.usedJd + {k});
    } else {
      PickedAgree(jd[..k], st.usedJd, st.usedJd);
    }
  }

  lemma {:induction false} AssignInvariant(resume: seq<string>, jd: seq<string>, sim: SimMatrix, threshold: real, k: nat)
    requires k <= |jd|
    ensures AssignInv(Assign(resume, jd, sim, threshold, k), resume, jd, threshold, k)
    decreases k
  {
    if k > 0 {
      AssignInvariant(resume, jd, sim, threshold, k - 1);
      AssignStepInv(Assign(resume, jd, sim, threshold, k - 1), resume, jd, sim, threshold, k - 1);
    }
  }

  /** The whole of `semantic_skill_match`, given the similarity matrix of the cleaned lists. */
  function SemanticMatch(resumeSkills: seq<string>, jdSkills: seq<string>, threshold: real, sim: SimMatrix): SemanticResult {
    if resumeSkills == [] || jdSkills == [] then SemanticResult([], [], jdSkills, resumeSkills)
    else
      var resume, jd := CleanTexts(resumeSkills), CleanTexts(jdSkills);
      if resume == [] || jd == [] then SemanticResult([], [], jd, resume)
      else
        var st := Assign(resume, jd, sim, threshold, |jd|);
        SemanticResult(st.matched, st.pairs, Unpicked(jd, st.usedJd), Unpicked(resume, st.usedResume))
  }

  /** With an empty list (before or after cleaning) nothing is matched and the inputs come back unmatched. */
  lemma SemanticMatchEmpty(resumeSkills: seq<string>, jdSkills: seq<string>, threshold: real, sim: SimMatrix)
    ensures resumeSkills == [] || jdSkills == [] ==>
      SemanticMatch(resumeSkills, jdSkills, threshold, sim) == SemanticResult([], [], jdSkills, resumeSkills)
    ensures CleanTexts(resumeSkills) == [] || CleanTexts(jdSkills) == [] ==>
      var r := SemanticMatch(resumeSkills, jdSkills, threshold, sim);
      r.matched == [] && r.semanticPairs == []
  {
  }

  /**
   * Over the cleaned lists: every resume skill is used at most once, `matched` and
   * `unmatched_jd` split the JD skills by one index set, `unmatched_resume` holds the resume
   * skills whose index was never used, and every pair scores at least the threshold and above 0.
   */
  lemma SemanticMatchSpec(resumeSkills: seq<string>, jdSkills: seq<string>, threshold: real, sim: SimMatrix)
    requires CleanTexts(resumeSkills) != [] && CleanTexts(jdSkills) != []
    ensures var r := SemanticMatch(resumeSkills, jdSkills, threshold, sim);
      var resume, jd := CleanTexts(resumeSkills), CleanTexts(jdSkills);
      var st := Assign(resume, jd, sim, threshold, |jd|);
      && (forall i :: i in st.usedResume ==> i < |resume|)
      && |st.usedResume| == |r.matched|
      && r.matched == Picked(jd, st.usedJd)
      && r.unmatchedJd == Unpicked(jd, st.usedJd)
      && |r.matched| + |r.unmatchedJd| == |jd|
      && r.unmatchedResume == Unpicked(resume, st.usedResume)
      && |r.matched| + |r.unmatchedResume| == |resume|
      && |r.semanticPairs| == |r.matched|
      && (forall i :: 0 <= i < |r.semanticPairs| ==>
            r.semanticPairs[i].jdSkill == r.matched[i]
            && r.semanticPairs[i].similarity >= threshold && r.semanticPairs[i].similarity > 0.0)
  {
    var resume, jd := CleanTexts(resumeSkills), CleanTexts(jdSkills);
    var st := Assign(resume, jd, sim, threshold, |jd|);
    AssignInvariant(resume, jd, sim, threshold, |jd|);
    assert jd[..|jd|] == jd;
    PickedCount(jd, st.usedJd);
    PickedCount(resume, st.usedResume);
  }

  /** The inner loop of `semantic_skill_match` for JD skill `j`. */
  method FindBestResume(sim: SimMatrix, used: set<nat>, threshold: real, j: nat, n: nat)
    returns (bestScore: real, bestIdx: int)
    ensures (bestScore, bestIdx) == BestResume(sim, used, threshold, j, n)
  {
    bestScore, bestIdx := 0.0, -1;
    var r := 0;
    while r < n
      invariant r <= n
      invariant (bestScore, bestIdx) == BestResume(sim, used, threshold, j, r)
    {
      if r !in used {
        var score := sim(r, j);
        if score >= threshold && score > bestScore {
          bestScore, bestIdx := score, r;
        }
      }
      r := r + 1;
    }
  }

  /** The greedy outer loop over the cleaned lists. */
  method AssignLoop(resume: seq<string>, jd: seq<string>, sim: SimMatrix, threshold: real)
    returns (matched: seq<string>, pairs: seq<SemanticPair>, usedResume: set<nat>, usedJd: set<nat>)
    ensures AssignState(matched, pairs, usedResume, usedJd) == Assign(resume, jd, sim, threshold, |jd|)
  {
    matched, pairs, usedResume, usedJd := [], [], {}, {};
    var j := 0;
    while j < |jd|
      invariant j <= |jd|
      invariant AssignState(matched, pairs, usedResume, usedJd) == Assign(resume, jd, sim, threshold, j)
    {
      var bestScore, bestIdx := FindBestResume(sim, usedResume, threshold, j, |resume|);
      if bestIdx >= 0 {
        matched := matched + [jd[j]];
        pairs := pairs + [SemanticPair(jd[j], resume[bestIdx], bestScore)];
        usedResume := usedResume + {bestIdx};
        usedJd := usedJd + {j};
      }
      j := j + 1;
    }
  }

  /** `semantic_skill_match`. */
  method SemanticSkillMatch(resumeSkills: seq<string>, jdSkills: seq<string>, threshold: real, sim: SimMatrix)
    returns (r: SemanticResult)
    ensures r == SemanticMatch(resumeSkills, jdSkills, threshold, sim)
  {
    if resumeSkills == [] || jdSkills == [] {
      return SemanticResult([], [], jdSkills, resumeSkills);
    }
    var resume, jd := CleanTexts(resumeSkills), CleanTexts(jdSkills);
    if resume == [] || jd == [] {
      return SemanticResult([], [], jd, resume);
    }
    var matched, pairs, usedResume, usedJd := AssignLoop(resume, jd, sim, threshold);
    r := SemanticResult(matched, pairs, Unpicked(jd, usedJd), Unpicked(resume, usedResume));
  }

  // ---------------------------------------------------------------------------------------
  // find_similar_texts, batch_similarity, cluster_texts

  datatype TextScore = TextScore(text: string, score: real)

  function TextScoreKey(t: TextScore): real {
    t.score
  }

  /** The unsorted `top_results` list: every cleaned corpus text with its similarity to the query. */
  function Scored(corpus: seq<string>, sim: nat -> real): (r: seq<TextScore>)
    ensures |r| == |corpus|
    ensures forall i :: 0 <= i < |r| ==> r[i] == TextScore(corpus[i], sim(i))
  {
    seq(|corpus|, i requires 0 <= i < |corpus| => TextScore(corpus[i], sim(i)))
  }

  /**
   * `find_similar_texts`: [] for an empty query or corpus, or when the query or every corpus
   * text is whitespace; otherwise the scored cleaned corpus sorted best first and cut to `top_k`.
   * `sim(i)` is the cosine similarity of the query and the `i`-th cleaned corpus text.
   */
  function SimilarTexts(query: string, corpus: seq<string>, topK: int, sim: nat -> real): seq<TextScore> {
    if query == [] || corpus == [] then []
    else
      var c := CleanTexts(corpus);
      if c == [] || Strip(query) == [] then []
      else Take(Sorting.SortDesc(Scored(c, sim), TextScoreKey), topK)
  }

  /** At most `top_k` results, each a cleaned corpus text with its own score, in non-increasing score order. */
  lemma SimilarTextsSpec(query: string, corpus: seq<string>, topK: int, sim: nat -> real)
    ensures var r := SimilarTexts(query, corpus, topK, sim);
      && (query == [] || corpus == [] ==> r == [])
      && (topK >= 0 ==> |r| <= topK)
      && (forall i :: 0 <= i < |r| ==> exists k :: 0 <= k < |CleanTexts(corpus)| && r[i] == TextScore(CleanTexts(corpus)[k], sim(k)))
      && (forall i, j :: 0 <= i < j < |r| ==> r[i].score >= r[j].score)
  {
    var r := SimilarTexts(query, corpus, topK, sim);
    if r != [] {
      var s := Scored(CleanTexts(corpus), sim);
      var sorted := Sorting.SortDesc(s, TextScoreKey);
      Sorting.SortDescSpec(s, TextScoreKey);
      assert r == sorted[..|r|];
      forall i | 0 <= i < |r|
        ensures exists k :: 0 <= k < |CleanTexts(corpus)| && r[i] == TextScore(CleanTexts(corpus)[k], sim(k))
      {
        assert r[i] == sorted[i];
        assert r[i] in multiset(s);
        var k :| 0 <= k < |s| && s[k] == r[i];
      }
      forall i, j | 0 <= i < j < |r| ensures r[i].score >= r[j].score {
        assert TextScoreKey(sorted[i]) >= TextScoreKey(sorted[j]);
      }
    }
  }

  /** `find_similar_texts`: collects the scores in a loop, then sorts and cuts. */
  method FindSimilarTexts(query: string, corpus: seq<string>, topK: int, sim: nat -> real) returns (r: seq<TextScore>)
    ensures r == SimilarTexts(query, corpus, topK, sim)
  {
    if query == [] || corpus == [] {
      return [];
    }
    var c := CleanTexts(corpus);
    if c == [] || Strip(query) == [] {
      return [];
    }
    var results := ScoreAll(c, sim);
    r := Take(Sorting.SortDesc(results, TextScoreKey), topK);
  }

  /** The scoring loop of `find_similar_texts`: one entry per cleaned corpus text, in order. */
  method ScoreAll(c: seq<string>, sim: nat -> real) returns (results: seq<TextScore>)
    ensures results == Scored(c, sim)
  {
    results := [];
    var k := 0;
    while k < |c|
      invariant k <= |c|
      invariant results == Scored(c[..k], sim)
    {
      results := results + [TextScore(c[k], sim(k))];
      k := k + 1;
    }
    assert c[..k] == c;
  }

  /**
   * `batch_similarity`: the empty array when either list is empty after cleaning, else the
   * `len(texts1) x len(texts2)` matrix of the cleaned lists.
   */
  function BatchSimilarity(texts1: seq<string>, texts2: seq<string>, sim: SimMatrix): (m: seq<seq<real>>)
    ensures m == [] <==> CleanTexts(texts1) == [] || CleanTexts(texts2) == []
    ensures m != [] ==> |m| == |CleanTexts(texts1)|
    ensures forall i :: 0 <= i < |m| ==> |m[i]| == |CleanTexts(texts2)|
    ensures forall i, j :: 0 <= i < |m| && 0 <= j < |m[i]| ==> m[i][j] == sim(i, j)
  {
    if texts1 == [] || texts2 == [] then []
    else
      var a, b := CleanTexts(texts1), CleanTexts(texts2);
      if a == [] || b == [] then []
      else seq(|a|, i requires 0 <= i < |a| => seq(|b|, j requires 0 <= j < |b| => sim(i, j)))
  }

  datatype Clustering = Clustering(clusters: seq<(int, seq<string>)>, labels: seq<int>)

  /** `clusters[labelOf].append(texts[idx])` for every text in order. */
  function GroupByLabel<T>(texts: seq<T>, labelOf: nat -> int): (m: seq<(int, seq<T>)>)
  {
    if texts == [] then []
    else AppendToKey(GroupByLabel(texts[..|texts| - 1], labelOf), labelOf(|texts| - 1), texts[|texts| - 1])
  }

  /** Every text lands in exactly one cluster: the clusters hold the texts, counted with multiplicity. */
  lemma {:induction false} GroupByLabelContents<T>(texts: seq<T>, labelOf: nat -> int)
    ensures multiset(Flatten(GroupByLabel(texts, labelOf))) == multiset(texts)
    decreases |texts|
  {
    if texts != [] {
      var init, last := texts[..|texts| - 1], texts[|texts| - 1];
      assert texts == init + [last];
      var g := GroupByLabel(init, labelOf);
      GroupByLabelContents(init, labelOf);
      AppendToKeyContents(g, labelOf(|texts| - 1), last);
      calc {
        multiset(Flatten(GroupByLabel(texts, labelOf)));
        multiset(Flatten(AppendToKey(g, labelOf(|texts| - 1), last)));
        multiset(Flatten(g)) + multiset{last};
        multiset(init) + multiset{last};
        multiset(init + [last]);
      }
    }
  }

  /**
   * `cluster_texts`: empty clusters and labels when there are fewer texts than clusters (before
   * or after cleaning) or no clusters at all (KMeans rejects that, and the error is caught);
   * otherwise the cleaned texts grouped by their KMeans `labelOf`.
   */
  function ClusterTexts(texts: seq<string>, nClusters: int, labelOf: nat -> int): (c: Clustering)
    ensures |CleanTexts(texts)| < nClusters ==> c == Clustering([], [])
    ensures c.labels != [] ==> |c.labels| == |CleanTexts(texts)|
  {
    if texts == [] || |texts| < nClusters then Clustering([], [])
    else
      var t := CleanTexts(texts);
      if |t| < nClusters || t == [] || nClusters <= 0 then Clustering([], [])
      else Clustering(GroupByLabel(t, labelOf), seq(|t|, i requires 0 <= i < |t| => labelOf(i)))
  }

  /** When clustering happens, the clusters hold exactly the cleaned texts. */
  lemma ClusterTextsContents(texts: seq<string>, nClusters: int, labelOf: nat -> int)
    ensures var c := ClusterTexts(texts, nClusters, labelOf);
      c.labels != [] ==> multiset(Flatten(c.clusters)) == multiset(CleanTexts(texts))
  {
    GroupByLabelContents(CleanTexts(texts), labelOf);
  }
}
