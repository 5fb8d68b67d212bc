/**
 * `HFSkillExtractor` (src/processing/hf_skill_extractor.py): skill
 * extraction around a token-classification pipeline. The model itself is
 * outside the model: the pipeline is a parameter that maps a chunk of text
 * to its entities, or to `None` when it raises. What is modelled is the
 * code around it: sentence-based chunking, the confidence filter,
 * de-duplication, the technical-label filter, context windows, taxonomy
 * categorisation and batching.
 */
module HFSkillExtractor {
  import opened TextUtil
  import opened Taxonomy

  // ------------------------------------------------------------ chunking

  /** A character of the class `[.!?\n]`. */
  predicate IsTerminator(c: char) {
    c == '.' || c == '!' || c == '?' || c == '\n'
  }

  /** The text after the run of terminators it starts with. */
  function SkipTerminators(s: string): (r: string)
    ensures |r| <= |s| && r == s[|s| - |r|..]
    ensures r == [] || !IsTerminator(r[0])
    decreases |s|
  {
    if s != [] && IsTerminator(s[0]) then SkipTerminators(s[1..]) else s
  }

  /** `re.split(r'[.!?\n]+', text)`: the pieces between maximal runs of terminators. */
  function SplitSentences(s: string): (r: seq<string>)
    ensures |r| >= 1
    decreases |s|
  {
    if s == [] then [[]]
    else if IsTerminator(s[0]) then [[]] + SplitSentences(SkipTerminators(s[1..]))
    else
      var rest := SplitSentences(s[1..]);
      [[s[0]] + rest[0]] + rest[1..]
  }

  /** A string without any of the characters `[.!?\n]`. */
  predicate NoTerminator(s: string) {
    forall j :: 0 <= j < |s| ==> !IsTerminator(s[j])
  }

  /** No piece holds a terminator, and text without one is a single piece. */
  lemma {:induction false} SplitSentencesSpec(s: string)
    ensures var r := SplitSentences(s);
      && (forall k, j :: 0 <= k < |r| && 0 <= j < |r[k]| ==> !IsTerminator(r[k][j]))
      && ((forall j :: 0 <= j < |s| ==> !IsTerminator(s[j])) ==> r == [s])
  {
    var r := SplitSentences(s);
    forall k | 0 <= k < |r| ensures NoTerminator(r[k]) {
      PiecesHaveNoTerminator(s, k);
    }
    if NoTerminator(s) {
      SplitPlain(s);
    }
  }

  /** Each piece of the split is free of terminators. */
  lemma {:induction false} PiecesHaveNoTerminator(s: string, k: nat)
    requires k < |SplitSentences(s)|
    ensures NoTerminator(SplitSentences(s)[k])
    decreases |s|
  {
    if s != [] {
      if IsTerminator(s[0]) {
        if k > 0 {
          PiecesHaveNoTerminator(SkipTerminators(s[1..]), k - 1);
        }
      } else {
        var rest := SplitSentences(s[1..]);
        PiecesHaveNoTerminator(s[1..], k);
        if k == 0 {
          PiecesHaveNoTerminator(s[1..], 0);
          var x := [s[0]] + rest[0];
          forall j | 0 <= j < |x| ensures !IsTerminator(x[j]) {
            if j > 0 {
              assert x[j] == rest[0][j - 1];
            }
          }
        }
      }
    }
  }

  /** Text without a terminator is split into itself alone. */
  lemma {:induction false} SplitPlain(s: string)
    requires NoTerminator(s)
    ensures SplitSentences(s) == [s]
    decreases |s|
  {
    if s != [] {
      assert !IsTerminator(s[0]);
      assert NoTerminator(s[1..]) by {
        forall j | 0 <= j < |s| - 1 ensures !IsTerminator(s[1..][j]) {
          assert s[1..][j] == s[j + 1];
        }
      }
      SplitPlain(s[1..]);
      SplitFirst(s);
    }
  }

  /** The rough token estimate of one sentence: a token per four characters. */
  function TokenEstimate(sentence: string): nat {
    |sentence| / 4
  }

  /** The estimate of a chunk: the sum over its sentences. */
  function EstimateSum(group: seq<string>): nat {
    if group == [] then 0 else EstimateSum(group[..|group| - 1]) + TokenEstimate(group[|group| - 1])
  }

  /** The sentences `_split_text` keeps: stripped, and non-empty once stripped, in order. */
  function KeptSentences(sentences: seq<string>): seq<string> {
    if sentences == [] then []
    else
      var s := Strip(sentences[|sentences| - 1]);
      KeptSentences(sentences[..|sentences| - 1]) + if s != [] then [s] else []
  }

  /** The loop state of `_split_text`: finished chunks, the open chunk and its estimate. */
  datatype Packing = Packing(chunks: seq<seq<string>>, current: seq<string>, length: nat)

  /** The loop of `_split_text` after the given sentences. */
  function Pack(sentences: seq<string>, maxLength: int): Packing {
    if sentences == [] then Packing([], [], 0)
    else
      var s := Strip(sentences[|sentences| - 1]);
      if s == [] then Pack(sentences[..|sentences| - 1], maxLength)
      else PackSentence(Pack(sentences[..|sentences| - 1], maxLength), s, maxLength)
  }

  /**
   * One non-empty sentence read by `_split_text`: when it would push the
   * open chunk over `maxLength` the chunk is closed and the sentence opens a
   * new one; otherwise it joins the open chunk.
   */
  function PackSentence(p: Packing, s: string, maxLength: int): Packing {
    if p.length + TokenEstimate(s) > maxLength then
      Packing(if p.current != [] then p.chunks + [p.current] else p.chunks, [s], TokenEstimate(s))
    else Packing(p.chunks, p.current + [s], p.length + TokenEstimate(s))
  }

  /** The sentence groups `_split_text` joins into chunks: the finished ones and the open one, if any. */
  function Groups(sentences: seq<string>, maxLength: int): seq<seq<string>> {
    var p := Pack(sentences, maxLength);
    if p.current != [] then p.chunks + [p.current] else p.chunks
  }

  /** `' '.join(group)` for each group. */
  function JoinEach(groups: seq<seq<string>>): (r: seq<string>)
    ensures |r| == |groups|
  {
    if groups == [] then [] else JoinEach(groups[..|groups| - 1]) + [Join(groups[|groups| - 1], " ")]
  }

  /** A chunk's group: not empty, of non-empty sentences, and within the budget unless it is one sentence. */
  predicate GoodGroup(g: seq<string>, maxLength: int) {
    && g != []
    && (EstimateSum(g) <= maxLength || |g| == 1)
    && forall j :: 0 <= j < |g| ==> g[j] != []
  }

  predicate PackingInvariant(p: Packing, kept: seq<string>, maxLength: int) {
    && Concat(p.chunks) + p.current == kept
    && p.length == EstimateSum(p.current)
    && (forall k :: 0 <= k < |p.chunks| ==> GoodGroup(p.chunks[k], maxLength))
    && (p.current == [] || GoodGroup(p.current, maxLength))
  }

  lemma ConcatSnoc<T>(lists: seq<seq<T>>, l: seq<T>)
    ensures Concat(lists + [l]) == Concat(lists) + l
  {
    assert (lists + [l])[..|lists|] == lists;
  }

  lemma EstimateSumSnoc(g: seq<string>, s: string)
    ensures EstimateSum(g + [s]) == EstimateSum(g) + TokenEstimate(s)
  {
    assert (g + [s])[..|g|] == g;
  }

  /** Closing the open chunk and opening one with `s` keeps the invariant. */
  lemma PackOverflow(p: Packing, kept: seq<string>, s: string, maxLength: int)
    requires PackingInvariant(p, kept, maxLength) && s != []
    ensures PackingInvariant(Packing(if p.current != [] then p.chunks + [p.current] else p.chunks, [s], TokenEstimate(s)),
      kept + [s], maxLength)
  {
    if p.current != [] {
      ConcatSnoc(p.chunks, p.current);
    }
    EstimateSumSnoc([], s);
  }

  /** Adding `s` to the open chunk within the budget keeps the invariant. */
  lemma PackAppend(p: Packing, kept: seq<string>, s: string, maxLength: int)
    requires PackingInvariant(p, kept, maxLength) && s != []
    requires p.length + TokenEstimate(s) <= maxLength
    ensures PackingInvariant(Packing(p.chunks, p.current + [s], p.length + TokenEstimate(s)), kept + [s], maxLength)
  {
    EstimateSumSnoc(p.current, s);
    var c := p.current + [s];
    assert forall j :: 0 <= j < |p.current| ==> c[j] == p.current[j];
  }

  /** The chunking loop keeps its invariant. */
  lemma {:induction false} PackInvariant(sentences: seq<string>, maxLength: int)
    ensures PackingInvariant(Pack(sentences, maxLength), KeptSentences(sentences), maxLength)
  {
    if sentences != [] {
      var init := sentences[..|sentences| - 1];
      PackInvariant(init, maxLength);
      var p := Pack(init, maxLength);
      var s := Strip(sentences[|sentences| - 1]);
      if s != [] {
        if p.length + TokenEstimate(s) > maxLength {
          PackOverflow(p, KeptSentences(init), s, maxLength);
        } else {
          PackAppend(p, KeptSentences(init), s, maxLength);
        }
      }
    }
  }

  /**
   * The chunks of `_split_text`, split back into their sentences, are the
   * stripped non-empty sentences in their original order; no chunk is
   * empty, and each one's estimate is within `maxLength` unless it holds a
   * single sentence.
   */
  lemma GroupsSpec(sentences: seq<string>, maxLength: int)
    ensures Concat(Groups(sentences, maxLength)) == KeptSentences(sentences)
    ensures forall k :: 0 <= k < |Groups(sentences, maxLength)| ==> GoodGroup(Groups(sentences, maxLength)[k], maxLength)
  {
    PackInvariant(sentences, maxLength);
    var p := Pack(sentences, maxLength);
    if p.current != [] {
      ConcatSnoc(p.chunks, p.current);
    }
  }

  /** A group whose first sentence is non-empty joins into a non-empty chunk. */
  lemma JoinNonEmpty(g: seq<string>)
    requires g != [] && g[0] != []
    ensures Join(g, " ") != []
  {
    if |g| >= 2 {
      JoinCons(g, " ");
    }
  }

  /** `_split_text` never yields an empty chunk. */
  lemma ChunksNonEmpty(text: string, maxLength: int)
    ensures forall k :: 0 <= k < |JoinEach(Groups(SplitSentences(text), maxLength))| ==>
      JoinEach(Groups(SplitSentences(text), maxLength))[k] != []
  {
    var gs := Groups(SplitSentences(text), maxLength);
    GroupsSpec(SplitSentences(text), maxLength);
    forall k | 0 <= k < |gs| ensures JoinEach(gs)[k] != [] {
      JoinNonEmpty(gs[k]);
      JoinEachIndex(gs, k);
    }
  }

  lemma {:induction false} JoinEachIndex(groups: seq<seq<string>>, k: nat)
    requires k < |groups|
    ensures JoinEach(groups)[k] == Join(groups[k], " ")
  {
    if k < |groups| - 1 {
      JoinEachIndex(groups[..|groups| - 1], k);
    }
  }

  lemma JoinEachSnoc(groups: seq<seq<string>>, g: seq<string>)
    ensures JoinEach(groups + [g]) == JoinEach(groups) + [Join(g, " ")]
  {
    assert (groups + [g])[..|groups|] == groups;
  }

  /** `Pack` after one more sentence. */
  lemma PackStep(sentences: seq<string>, i: nat, maxLength: int)
    requires i < |sentences|
    ensures Pack(sentences[..i + 1], maxLength) ==
      var s := Strip(sentences[i]);
      if s == [] then Pack(sentences[..i], maxLength) else PackSentence(Pack(sentences[..i], maxLength), s, maxLength)
  {
    assert sentences[..i + 1][..i] == sentences[..i];
  }

  /** The body of the loop of `_split_text` for one non-empty sentence. */
  method AddSentence(chunks: seq<string>, ghost done: seq<seq<string>>, currentChunk: seq<string>, currentLength: nat,
                     sentence: string, maxLength: int)
    returns (chunks': seq<string>, ghost done': seq<seq<string>>, currentChunk': seq<string>, currentLength': nat)
    requires chunks == JoinEach(done)
    ensures Packing(done', currentChunk', currentLength') == PackSentence(Packing(done, currentChunk, currentLength), sentence, maxLength)
    ensures chunks' == JoinEach(done')
  {
    chunks', done' := chunks, done;
    var sentenceLength := |sentence| / 4;
    if currentLength + sentenceLength > maxLength {
      if currentChunk != [] {
        JoinEachSnoc(done, currentChunk);
        chunks' := chunks + [Join(currentChunk, " ")];
        done' := done + [currentChunk];
      }
      currentChunk' := [sentence];
      currentLength' := sentenceLength;
    } else {
      currentChunk' := currentChunk + [sentence];
      currentLength' := currentLength + sentenceLength;
    }
  }

  /** `_split_text`: the greedy packing of sentences into chunks of about `maxLength` tokens. */
  method SplitText(text: string, maxLength: int) returns (chunks: seq<string>)
    ensures chunks == JoinEach(Groups(SplitSentences(text), maxLength))
  {
    var sentences := SplitSentences(text);
    chunks := PackSentences(sentences, maxLength);
  }

  /** The chunking loop of `_split_text` over the sentences of the text. */
  method PackSentences(sentences: seq<string>, maxLength: int) returns (chunks: seq<string>)
    ensures chunks == JoinEach(Groups(sentences, maxLength))
  {
    chunks := [];
    var currentChunk: seq<string> := [];
    var currentLength: nat := 0;
    ghost var done: seq<seq<string>> := [];
    for i := 0 to |sentences|
      invariant Pack(sentences[..i], maxLength) == Packing(done, currentChunk, currentLength)
      invariant chunks == JoinEach(done)
    {
      PackStep(sentences, i, maxLength);
      var sentence := Strip(sentences[i]);
      if sentence != [] {
        chunks, done, currentChunk, currentLength := AddSentence(chunks, done, currentChunk, currentLength, sentence, maxLength);
      }
    }
    assert sentences[..|sentences|] == sentences;
    if currentChunk != [] {
      JoinEachSnoc(done, currentChunk);
      chunks := chunks + [Join(currentChunk, " ")];
    }
  }

  // ------------------------------------------------------------ entities

  /** One aggregated entity from the pipeline; `start` and `end` may be missing. */
  datatype NerEntity = NerEntity(word: string, entityGroup: string, score: real, start: Option<int>, end: Option<int>)

  /** The pipeline applied to one chunk: its entities, or `None` when it raises. */
  type Pipeline = string -> Option<seq<NerEntity>>

  /** One entity record of `extract_skills`. */
  datatype Entity = Entity(text: string, tag: string, score: real, start: int, end: int)

  /** The chunk length `extract_skills` passes to `_split_text`. */
  const ChunkTokens: int := 512

  /** The default `confidence_threshold`. */
  const DefaultThreshold: real := 0.7

  /** The record built from a pipeline entity; a missing offset becomes 0. */
  function ToEntity(e: NerEntity): (r: Entity)
    ensures r.text == e.word && r.tag == e.entityGroup && r.score == e.score
  {
    Entity(e.word, e.entityGroup, e.score,
      if e.start.Some? then e.start.value else 0,
      if e.end.Some? then e.end.value else 0)
  }

  /** The records of the entities of one chunk whose score reaches the threshold, in order. */
  function Confident(es: seq<NerEntity>, threshold: real): seq<Entity> {
    if es == [] then []
    else
      var last := es[|es| - 1];
      Confident(es[..|es| - 1], threshold) + if last.score >= threshold then [ToEntity(last)] else []
  }

  /** The confident records of all chunks, chunk by chunk; a chunk whose pipeline call raises adds none. */
  function Detected(chunks: seq<string>, ner: Pipeline, threshold: real): seq<Entity> {
    if chunks == [] then []
    else
      var found := ner(chunks[|chunks| - 1]);
      Detected(chunks[..|chunks| - 1], ner, threshold) + if found.Some? then Confident(found.value, threshold) else []
  }

  /** `entity['text'].lower().strip()`, the de-duplication key. */
  function KeyOf(e: Entity): string {
    Strip(LowerStr(e.text))
  }

  /** The first record per key, when the key is longer than two characters, in input order. */
  function UniqueBy<T>(es: seq<T>, key: T -> string): seq<T> {
    if es == [] then []
    else
      var kept := UniqueBy(es[..|es| - 1], key);
      var last := es[|es| - 1];
      if key(last) !in MapAll(kept, key) && |key(last)| > 2 then kept + [last] else kept
  }

  /** `_deduplicate_entities`. */
  function UniqueEntities(es: seq<Entity>): seq<Entity> {
    UniqueBy(es, KeyOf)
  }

  /** What `extract_skills` returns for a text. */
  function ExtractedSkills(text: string, threshold: real, ner: Pipeline): seq<Entity> {
    UniqueEntities(Detected(JoinEach(Groups(SplitSentences(text), ChunkTokens)), ner, threshold))
  }

  /** Every record that passes the confidence filter reaches the threshold. */
  lemma {:induction false} ConfidentSpec(es: seq<NerEntity>, threshold: real, e: Entity)
    ensures e in Confident(es, threshold) <==> exists x :: x in es && x.score >= threshold && e == ToEntity(x)
  {
    if es != [] {
      var init, last := es[..|es| - 1], es[|es| - 1];
      assert es == init + [last];
      ConfidentSpec(init, threshold, e);
    }
  }

  /** The records detected over all chunks are exactly the confident entities of chunks whose call succeeded. */
  lemma {:induction false} DetectedSpec(chunks: seq<string>, ner: Pipeline, threshold: real, e: Entity)
    ensures e in Detected(chunks, ner, threshold) <==>
      exists k :: 0 <= k < |chunks| && ner(chunks[k]).Some? && e in Confident(ner(chunks[k]).value, threshold)
  {
    if chunks != [] {
      var init := chunks[..|chunks| - 1];
      DetectedSpec(init, ner, threshold, e);
      assert forall k :: 0 <= k < |init| ==> init[k] == chunks[k];
    }
  }

  /** `_deduplicate_entities` returns a subsequence of its input. */
  lemma {:induction false} UniqueByOrder<T>(es: seq<T>, key: T -> string)
    ensures IsSubsequence(UniqueBy(es, key), es)
  {
    if es != [] {
      var init, last := es[..|es| - 1], es[|es| - 1];
      assert es == init + [last];
      UniqueByOrder(init, key);
      var kept := UniqueBy(init, key);
      if UniqueBy(es, key) == kept {
        SubsequenceExtend(kept, init, last);
      } else {
        SubsequenceSnoc(kept, init, last);
      }
    }
  }

  /** The keys `_deduplicate_entities` keeps are distinct. */
  lemma {:induction false} UniqueByKeys<T>(es: seq<T>, key: T -> string)
    ensures NoDups(MapAll(UniqueBy(es, key), key))
  {
    if es != [] {
      var init, last := es[..|es| - 1], es[|es| - 1];
      UniqueByKeys(init, key);
      var kept := UniqueBy(init, key);
      if key(last) !in MapAll(kept, key) && |key(last)| > 2 {
        MapAllSnoc(kept, key, last);
        NoDupsSnoc(MapAll(kept, key), key(last));
      }
    }
  }

  /** Every key `_deduplicate_entities` keeps is longer than two characters. */
  lemma {:induction false} UniqueByLongKeys<T>(es: seq<T>, key: T -> string)
    ensures forall k :: 0 <= k < |UniqueBy(es, key)| ==> |MapAll(UniqueBy(es, key), key)[k]| > 2
  {
    if es != [] {
      var init, last := es[..|es| - 1], es[|es| - 1];
      UniqueByLongKeys(init, key);
      var kept := UniqueBy(init, key);
      if key(last) !in MapAll(kept, key) && |key(last)| > 2 {
        MapAllSnoc(kept, key, last);
      }
    }
  }

  /** Every input key longer than two characters is the key of some record kept. */
  lemma {:induction false} UniqueByCover<T>(es: seq<T>, key: T -> string, e: T)
    requires e in es && |key(e)| > 2
    ensures key(e) in MapAll(UniqueBy(es, key), key)
  {
    var init, last := es[..|es| - 1], es[|es| - 1];
    var kept := UniqueBy(init, key);
    if key(last) !in MapAll(kept, key) && |key(last)| > 2 {
      MapAllSnoc(kept, key, last);
    }
    if e != last {
      assert e in init by {
        assert es == init + [last];
      }
      UniqueByCover(init, key, e);
    }
  }

  /**
   * `_deduplicate_entities` keeps a subsequence of its input whose keys
   * (lowercased, stripped text) are distinct and longer than two characters,
   * and every input key longer than two characters is among them.
   */
  lemma UniqueEntitiesSpec(es: seq<Entity>)
    ensures var r := UniqueEntities(es);
      && IsSubsequence(r, es)
      && NoDups(MapAll(r, KeyOf))
      && (forall k :: 0 <= k < |r| ==> |KeyOf(r[k])| > 2)
      && (forall e :: e in es && |KeyOf(e)| > 2 ==> KeyOf(e) in MapAll(r, KeyOf))
  {
    var r := UniqueEntities(es);
    UniqueByOrder(es, KeyOf);
    UniqueByKeys(es, KeyOf);
    UniqueByLongKeys(es, KeyOf);
    forall k | 0 <= k < |r| ensures |KeyOf(r[k])| > 2 {
      MapAllIndex(r, KeyOf, k);
    }
    forall e | e in es && |KeyOf(e)| > 2 ensures KeyOf(e) in MapAll(r, KeyOf) {
      UniqueByCover(es, KeyOf, e);
    }
  }

  /** Every record `extract_skills` returns reaches the threshold. */
  lemma ExtractedConfident(text: string, threshold: real, ner: Pipeline)
    ensures forall e :: e in ExtractedSkills(text, threshold, ner) ==> e.score >= threshold
  {
    var chunks := JoinEach(Groups(SplitSentences(text), ChunkTokens));
    var all := Detected(chunks, ner, threshold);
    UniqueByOrder(all, KeyOf);
    forall e | e in ExtractedSkills(text, threshold, ner) ensures e.score >= threshold {
      SubsequenceMember(UniqueEntities(all), all, e);
      DetectedSpec(chunks, ner, threshold, e);
      var k :| 0 <= k < |chunks| && ner(chunks[k]).Some? && e in Confident(ner(chunks[k]).value, threshold);
      ConfidentSpec(ner(chunks[k]).value, threshold, e);
    }
  }

  /** A member of a subsequence is a member of the sequence. */
  lemma {:induction false} SubsequenceMember<T>(t: seq<T>, s: seq<T>, x: T)
    requires IsSubsequence(t, s) && x in t
    ensures x in s
    decreases |s|
  {
    if t[|t| - 1] == s[|s| - 1] {
      if x != t[|t| - 1] {
        assert x in t[..|t| - 1];
        SubsequenceMember(t[..|t| - 1], s[..|s| - 1], x);
      }
    } else {
      SubsequenceMember(t, s[..|s| - 1], x);
    }
  }

  /** `_deduplicate_entities`. */
  method DeduplicateEntities(entities: seq<Entity>) returns (unique: seq<Entity>)
    ensures unique == UniqueEntities(entities)
  {
    var seen: set<string> := {};
    unique := [];
    for i := 0 to |entities|
      invariant unique == UniqueEntities(entities[..i])
      invariant forall x :: x in seen <==> x in MapAll(unique, KeyOf)
    {
      assert entities[..i + 1][..i] == entities[..i];
      var textLower := Strip(LowerStr(entities[i].text));
      assert textLower == KeyOf(entities[i]);
      if textLower !in seen && |textLower| > 2 {
        MapAllSnoc(unique, KeyOf, entities[i]);
        seen := seen + {textLower};
        unique := unique + [entities[i]];
      }
    }
    assert entities[..|entities|] == entities;
  }

  /** The confident entities of one chunk appended to `all`. */
  method AddConfident(all: seq<Entity>, es: seq<NerEntity>, threshold: real) returns (all': seq<Entity>)
    ensures all' == all + Confident(es, threshold)
  {
    all' := all;
    for j := 0 to |es|
      invariant all' == all + Confident(es[..j], threshold)
    {
      assert es[..j + 1][..j] == es[..j];
      if es[j].score >= threshold {
        all' := all' + [ToEntity(es[j])];
      }
    }
    assert es[..|es|] == es;
  }

  /** `extract_skills`: confident entities of every chunk, then de-duplicated. */
  method ExtractSkills(text: string, threshold: real, ner: Pipeline) returns (entities: seq<Entity>)
    ensures entities == ExtractedSkills(text, threshold, ner)
  {
    var chunks := SplitText(text, ChunkTokens);
    var all: seq<Entity> := [];
    for i := 0 to |chunks|
      invariant all == Detected(chunks[..i], ner, threshold)
    {
      assert chunks[..i + 1][..i] == chunks[..i];
      var found := ner(chunks[i]);
      if found.Some? {
        all := AddConfident(all, found.value, threshold);
      }
    }
    assert chunks[..|chunks|] == chunks;
    entities := DeduplicateEntities(all);
  }

  // ------------------------------------------------------- technical skills

  /** The labels `extract_technical_skills` keeps. */
  const TechnicalLabels: seq<string> := ["SKILL", "TECH", "ORG", "PRODUCT"]

  /** The texts of the records with a technical label, in order. */
  function TechnicalTexts(es: seq<Entity>): seq<string> {
    if es == [] then []
    else
      var last := es[|es| - 1];
      TechnicalTexts(es[..|es| - 1]) + if last.tag in TechnicalLabels then [last.text] else []
  }

  lemma {:induction false} TechnicalTextsMember(es: seq<Entity>, x: string)
    ensures x in TechnicalTexts(es) <==> exists e :: e in es && e.tag in TechnicalLabels && e.text == x
  {
    if es != [] {
      var init, last := es[..|es| - 1], es[|es| - 1];
      assert es == init + [last];
      TechnicalTextsMember(init, x);
    }
  }

  /**
   * `extract_technical_skills` returns each text of a technical-label
   * record exactly once, and nothing else.
   */
  lemma TechnicalSkillsSpec(es: seq<Entity>, x: string)
    ensures NoDups(Dedup(TechnicalTexts(es)))
    ensures x in Dedup(TechnicalTexts(es)) <==> exists e :: e in es && e.tag in TechnicalLabels && e.text == x
  {
    DedupNoDups(TechnicalTexts(es));
    DedupMember(TechnicalTexts(es), x);
    TechnicalTextsMember(es, x);
  }

  /** `extract_technical_skills`, with `list(set(...))` listing each text at its first occurrence. */
  method ExtractTechnicalSkills(text: string, ner: Pipeline) returns (skills: seq<string>)
    ensures skills == Dedup(TechnicalTexts(ExtractedSkills(text, DefaultThreshold, ner)))
  {
    var entities := ExtractSkills(text, DefaultThreshold, ner);
    var technical := CollectTechnical(entities);
    skills := Dedup(technical);
  }

  /** The loop of `extract_technical_skills`: the texts of the entities with a technical label. */
  method CollectTechnical(entities: seq<Entity>) returns (technical: seq<string>)
    ensures technical == TechnicalTexts(entities)
  {
    technical := [];
    for i := 0 to |entities|
      invariant technical == TechnicalTexts(entities[..i])
    {
      assert entities[..i + 1][..i] == entities[..i];
      if entities[i].tag in TechnicalLabels {
        technical := technical + [entities[i].text];
      }
    }
    assert entities[..|entities|] == entities;
  }

  // ---------------------------------------------------------------- context

  /** One record of `extract_with_context`. */
  datatype SkillContext = SkillContext(skill: string, tag: string, score: real, context: string)

  /** `max(0, start - window_size)`. */
  function ContextStart(start: int, windowSize: int): int {
    if start - windowSize > 0 then start - windowSize else 0
  }

  /** `min(len(text), end + window_size)`. */
  function ContextEnd(end: int, windowSize: int, n: nat): int {
    if end + windowSize < n then end + windowSize else n
  }

  /** The record for one entity: the stripped text around it, `window_size` characters each side. */
  function ContextOf(text: string, e: Entity, windowSize: int): SkillContext {
    var window := PySlice(text, ContextStart(e.start, windowSize), ContextEnd(e.end, windowSize, |text|));
    SkillContext(e.text, e.tag, e.score, Strip(window))
  }

  /** A stripped string is a piece of the original. */
  lemma StripIsPiece(w: string)
    ensures exists a, b :: 0 <= a <= b <= |w| && Strip(w) == w[a..b]
  {
    var t := TrimStart(w);
    var a := |w| - |t|;
    assert Strip(w) == w[a..a + |Strip(w)|];
  }

  /** A Python slice of a string is a piece of it. */
  lemma PySliceIsPiece(text: string, i: int, j: int)
    ensures exists a, b :: 0 <= a <= b <= |text| && PySlice(text, i, j) == text[a..b]
  {
    if PySlice(text, i, j) == [] {
      assert PySlice(text, i, j) == text[0..0];
    }
  }

  /** A piece of a piece is a piece. */
  lemma PieceOfPiece(text: string, w: string, r: string)
    requires exists a, b :: 0 <= a <= b <= |text| && w == text[a..b]
    requires exists a, b :: 0 <= a <= b <= |w| && r == w[a..b]
    ensures exists a, b :: 0 <= a <= b <= |text| && r == text[a..b]
  {
    var a1, b1 :| 0 <= a1 <= b1 <= |text| && w == text[a1..b1];
    var a2, b2 :| 0 <= a2 <= b2 <= |w| && r == w[a2..b2];
    assert forall k :: 0 <= k < |r| ==> r[k] == w[a2 + k] == text[a1 + a2 + k];
    assert r == text[a1 + a2..a1 + b2];
  }

  /**
   * The window never starts before the text nor ends after it, and the
   * context is a piece of the text; the entity's own fields are carried over.
   */
  lemma ContextWindowSpec(text: string, e: Entity, windowSize: int)
    ensures 0 <= ContextStart(e.start, windowSize)
    ensures ContextEnd(e.end, windowSize, |text|) <= |text|
    ensures var c := ContextOf(text, e, windowSize);
      && c.skill == e.text && c.tag == e.tag && c.score == e.score
      && exists i, j :: 0 <= i <= j <= |text| && c.context == text[i..j]
  {
    var window := PySlice(text, ContextStart(e.start, windowSize), ContextEnd(e.end, windowSize, |text|));
    PySliceIsPiece(text, ContextStart(e.start, windowSize), ContextEnd(e.end, windowSize, |text|));
    StripIsPiece(window);
    PieceOfPiece(text, window, Strip(window));
  }

  /** `ContextOf` for a fixed text and window, as one function value. */
  function ContextFn(text: string, windowSize: int): Entity -> SkillContext {
    e => ContextOf(text, e, windowSize)
  }

  /** The records of `extract_with_context` for the given entities, in order. */
  function ContextsOf(text: string, es: seq<Entity>, windowSize: int): (r: seq<SkillContext>)
    ensures |r| == |es|
  {
    MapAll(es, ContextFn(text, windowSize))
  }

  /** Record `k` is the one for entity `k`, and its context is a piece of the text around it. */
  lemma ContextsOfSpec(text: string, es: seq<Entity>, windowSize: int, k: nat)
    requires k < |es|
    ensures var c := ContextsOf(text, es, windowSize)[k];
      && c == ContextOf(text, es[k], windowSize)
      && c.skill == es[k].text && c.tag == es[k].tag && c.score == es[k].score
      && exists i, j :: 0 <= i <= j <= |text| && c.context == text[i..j]
  {
    MapAllIndex(es, ContextFn(text, windowSize), k);
    ContextWindowSpec(text, es[k], windowSize);
  }

  /** `extract_with_context`: one record per extracted entity, in order. */
  method ExtractWithContext(text: string, windowSize: int, ner: Pipeline) returns (result: seq<SkillContext>)
    ensures result == ContextsOf(text, ExtractedSkills(text, DefaultThreshold, ner), windowSize)
  {
    var entities := ExtractSkills(text, DefaultThreshold, ner);
    result := [];
    for i := 0 to |entities|
      invariant result == ContextsOf(text, entities[..i], windowSize)
    {
      var e := entities[i];
      var contextStart := ContextStart(e.start, windowSize);
      var contextEnd := ContextEnd(e.end, windowSize, |text|);
      var context := Strip(PySlice(text, contextStart, contextEnd));
      MapAllStep(entities, ContextFn(text, windowSize), i);
      result := result + [SkillContext(e.text, e.tag, e.score, context)];
    }
    assert entities[..|entities|] == entities;
  }

  // --------------------------------------------------------- categorisation

  /** The key `categorize_extracted_skills` adds for entities no category matches. */
  const Uncategorized: string := "uncategorized"

  /** `d[k] = v` for each key in turn. */
  function PutAll<K(==), V>(m: seq<(K, V)>, keys: seq<K>, v: V): seq<(K, V)> {
    if keys == [] then m
    else Put(PutAll(m, keys[..|keys| - 1], v), keys[|keys| - 1], v)
  }

  /** Putting one more key of the list. */
  lemma PutAllStep<K, V>(m: seq<(K, V)>, keys: seq<K>, j: nat, v: V)
    requires j < |keys|
    ensures PutAll(m, keys[..j + 1], v) == Put(PutAll(m, keys[..j], v), keys[j], v)
  {
    assert keys[..j + 1][..j] == keys[..j];
  }

  /**
   * `taxonomy_map`: each lowercased skill name to its category. A name
   * listed under two categories keeps its first position with the later
   * category, as a dict assignment does.
   */
  function TaxonomyMap(tax: Skills): seq<(string, string)> {
    if tax == [] then []
    else PutAll(TaxonomyMap(tax[..|tax| - 1]), LowerAll(tax[|tax| - 1].1), tax[|tax| - 1].0)
  }

  /** `known_skill in skill_lower or skill_lower in known_skill`. */
  predicate Related(known: string, lowered: string) {
    Contains(lowered, known) || Contains(known, lowered)
  }

  /** The category of the first `taxonomy_map` entry related to the lowercased name. */
  function MatchCategory(m: seq<(string, string)>, lowered: string): (r: Option<string>)
    ensures r.Some? ==> exists k :: 0 <= k < |m| && Related(m[k].0, lowered) && m[k].1 == r.value
    ensures r.None? <==> forall k :: 0 <= k < |m| ==> !Related(m[k].0, lowered)
  {
    if m == [] then None
    else if Related(m[0].0, lowered) then Some(m[0].1)
    else
      var r := MatchCategory(m[1..], lowered);
      assert forall k :: 1 <= k < |m| ==> m[k] == m[1..][k - 1];
      r
  }

  /** The categorised names and the uncategorised ones after the given names. */
  function Sorted(m: seq<(string, string)>, names: seq<string>): (seq<(string, seq<string>)>, seq<string>) {
    if names == [] then ([], [])
    else
      var prev := Sorted(m, names[..|names| - 1]);
      var name := names[|names| - 1];
      var c := MatchCategory(m, LowerStr(name));
      if c.Some? then (AppendToKey(prev.0, c.value, name), prev.1) else (prev.0, prev.1 + [name])
  }

  /** The texts of the entities, in order. */
  function TextsOf(es: seq<Entity>): (r: seq<string>)
    ensures |r| == |es|
  {
    if es == [] then [] else TextsOf(es[..|es| - 1]) + [es[|es| - 1].text]
  }

  /** What `categorize_extracted_skills` returns. */
  function Categorized(es: seq<Entity>, tax: Skills): seq<(string, seq<string>)> {
    var sorted := Sorted(TaxonomyMap(tax), TextsOf(es));
    if sorted.1 != [] then Put(sorted.0, Uncategorized, sorted.1) else sorted.0
  }

  /** Every `taxonomy_map` entry pairs a lowercased listed skill with the category listing it. */
  lemma {:induction false} TaxonomyMapEntries(tax: Skills, e: (string, string))
    ensures e in TaxonomyMap(tax) ==>
      exists i, j :: 0 <= i < |tax| && 0 <= j < |tax[i].1| && e.1 == tax[i].0 && e.0 == LowerStr(tax[i].1[j])
    decreases |tax|
  {
    if tax != [] && e in TaxonomyMap(tax) {
      var n := |tax| - 1;
      TaxonomyMapEntries(tax[..n], e);
      PutAllEntries(TaxonomyMap(tax[..n]), LowerAll(tax[n].1), tax[n].0, e);
      if e !in TaxonomyMap(tax[..n]) {
        var j :| 0 <= j < |tax[n].1| && e == (LowerAll(tax[n].1)[j], tax[n].0);
      } else {
        var i, j :| 0 <= i < n && 0 <= j < |tax[..n][i].1| && e.1 == tax[..n][i].0 && e.0 == LowerStr(tax[..n][i].1[j]);
        assert tax[..n][i] == tax[i];
      }
    }
  }

  /** Every entry after putting several keys is an old one or pairs one of the keys with the value. */
  lemma {:induction false} PutAllEntries<K, V>(m: seq<(K, V)>, keys: seq<K>, v: V, e: (K, V))
    ensures e in PutAll(m, keys, v) ==> e in m || exists j :: 0 <= j < |keys| && e == (keys[j], v)
    decreases |keys|
  {
    if keys != [] {
      var n := |keys| - 1;
      PutAllEntries(m, keys[..n], v, e);
      PutEntries(PutAll(m, keys[..n], v), keys[n], v, e);
      if e in PutAll(m, keys[..n], v) && e !in m {
        var j :| 0 <= j < n && e == (keys[..n][j], v);
        assert keys[..n][j] == keys[j];
      }
    }
  }

  /** No key of `taxonomy_map` is repeated. */
  lemma {:induction false} TaxonomyMapDistinct(tax: Skills)
    ensures DistinctKeys(TaxonomyMap(tax))
    decreases |tax|
  {
    if tax != [] {
      var n := |tax| - 1;
      TaxonomyMapDistinct(tax[..n]);
      PutAllDistinct(TaxonomyMap(tax[..n]), LowerAll(tax[n].1), tax[n].0);
    }
  }

  /** Every listed skill, lowercased, is a key of `taxonomy_map`. */
  lemma {:induction false} TaxonomyMapCovers(tax: Skills)
    ensures forall i, j :: 0 <= i < |tax| && 0 <= j < |tax[i].1| ==> LowerStr(tax[i].1[j]) in Keys(TaxonomyMap(tax))
    decreases |tax|
  {
    if tax != [] {
      var n := |tax| - 1;
      var prev := TaxonomyMap(tax[..n]);
      var lowered := LowerAll(tax[n].1);
      TaxonomyMapCovers(tax[..n]);
      PutAllHasKeys(prev, lowered, tax[n].0);
      assert TaxonomyMap(tax) == PutAll(prev, lowered, tax[n].0);
      forall i, j | 0 <= i < |tax| && 0 <= j < |tax[i].1|
        ensures LowerStr(tax[i].1[j]) in Keys(TaxonomyMap(tax))
      {
        if i < n {
          assert tax[..n][i] == tax[i];
          assert LowerStr(tax[i].1[j]) in Keys(prev);
        } else {
          assert lowered[j] in lowered;
        }
      }
    }
  }

  /** Putting several keys keeps the keys distinct. */
  lemma {:induction false} PutAllDistinct<K, V>(m: seq<(K, V)>, keys: seq<K>, v: V)
    requires DistinctKeys(m)
    ensures DistinctKeys(PutAll(m, keys, v))
    decreases |keys|
  {
    if keys != [] {
      var n := |keys| - 1;
      var prev := PutAll(m, keys[..n], v);
      PutAllDistinct(m, keys[..n], v);
      if keys[n] !in Keys(prev) {
        NoDupsSnoc(Keys(prev), keys[n]);
      }
    }
  }

  /** Putting several keys keeps every old key and adds every new one. */
  lemma {:induction false} PutAllHasKeys<K, V>(m: seq<(K, V)>, keys: seq<K>, v: V)
    ensures forall x :: x in Keys(m) ==> x in Keys(PutAll(m, keys, v))
    ensures forall x :: x in keys ==> x in Keys(PutAll(m, keys, v))
    decreases |keys|
  {
    if keys != [] {
      var n := |keys| - 1;
      var prev := PutAll(m, keys[..n], v);
      PutAllHasKeys(m, keys[..n], v);
      var kp, kr := Keys(prev), Keys(PutAll(m, keys, v));
      assert kr == kp || kr == kp + [keys[n]];
      assert keys == keys[..n] + [keys[n]];
      forall x | x in keys ensures x in kr {
        if x != keys[n] {
          InGrown(kp, kr, keys[n], x);
        }
      }
    }
  }

  /** A member of a key list is still a member once the list is kept or extended. */
  lemma InGrown<K>(kp: seq<K>, kr: seq<K>, k: K, x: K)
    requires kr == kp || kr == kp + [k]
    requires x in kp
    ensures x in kr
  {
  }

  /** `taxonomy_map` built with the two nested loops of `categorize_extracted_skills`. */
  method BuildTaxonomyMap(tax: Skills) returns (m: seq<(string, string)>)
    ensures m == TaxonomyMap(tax)
  {
    m := [];
    for i := 0 to |tax|
      invariant m == TaxonomyMap(tax[..i])
    {
      assert tax[..i + 1][..i] == tax[..i];
      m := PutCategory(m, tax[i].1, tax[i].0);
    }
    assert tax[..|tax|] == tax;
  }

  /** The inner loop of `taxonomy_map`: every lowercased skill of a category maps to it. */
  method PutCategory(m0: seq<(string, string)>, skills: seq<string>, category: string) returns (m: seq<(string, string)>)
    ensures m == PutAll(m0, LowerAll(skills), category)
  {
    m := m0;
    ghost var lowered := LowerAll(skills);
    for j := 0 to |skills|
      invariant m == PutAll(m0, lowered[..j], category)
    {
      PutAllStep(m0, lowered, j, category);
      m := Put(m, LowerStr(skills[j]), category);
    }
    assert lowered[..|skills|] == lowered;
  }

  /** The inner loop over `taxonomy_map.items()` that stops at the first related entry. */
  method FindCategory(m: seq<(string, string)>, lowered: string) returns (c: Option<string>)
    ensures c == MatchCategory(m, lowered)
  {
    c := None;
    var k := 0;
    while k < |m|
      invariant 0 <= k <= |m|
      invariant MatchCategory(m, lowered) == MatchCategory(m[k..], lowered)
      invariant c.None?
    {
      assert m[k..][1..] == m[k + 1..];
      if Related(m[k].0, lowered) {
        c := Some(m[k].1);
        return;
      }
      k := k + 1;
    }
  }

  /** The names end up in the categories or in the uncategorised list, each exactly once. */
  lemma {:induction false} SortedContents(m: seq<(string, string)>, names: seq<string>)
    ensures multiset(Flatten(Sorted(m, names).0)) + multiset(Sorted(m, names).1) == multiset(names)
  {
    if names != [] {
      var n := |names| - 1;
      SplitLast(names);
      var prev := Sorted(m, names[..n]);
      SortedContents(m, names[..n]);
      var c := MatchCategory(m, LowerStr(names[n]));
      if c.Some? {
        AppendToKeyContents(prev.0, c.value, names[n]);
      }
    }
  }

  /**
   * A name is uncategorised exactly when no `taxonomy_map` entry is related
   * to it, and every name listed under a category matches that category first.
   */
  lemma {:induction false} SortedPlacement(m: seq<(string, string)>, names: seq<string>, cat: string)
    ensures forall x :: x in Sorted(m, names).1 <==> x in names && MatchCategory(m, LowerStr(x)).None?
    ensures Lookup(Sorted(m, names).0, cat).Some? ==>
      forall x :: x in Lookup(Sorted(m, names).0, cat).value ==> MatchCategory(m, LowerStr(x)) == Some(cat)
  {
    if names != [] {
      var n := |names| - 1;
      var prev := Sorted(m, names[..n]);
      SortedPlacement(m, names[..n], cat);
      assert names == names[..n] + [names[n]];
      var c := MatchCategory(m, LowerStr(names[n]));
      if c.Some? {
        AppendToKeyLookup(prev.0, c.value, names[n], cat);
      }
    }
  }

  /** The categories used are categories of `taxonomy_map`, each listed once. */
  lemma {:induction false} SortedKeys(m: seq<(string, string)>, names: seq<string>)
    ensures DistinctKeys(Sorted(m, names).0)
    ensures forall c :: c in Keys(Sorted(m, names).0) ==> exists k :: 0 <= k < |m| && m[k].1 == c
  {
    if names != [] {
      var n := |names| - 1;
      var prev := Sorted(m, names[..n]);
      SortedKeys(m, names[..n]);
      var c := MatchCategory(m, LowerStr(names[n]));
      if c.Some? && c.value !in Keys(prev.0) {
        NoDupsSnoc(Keys(prev.0), c.value);
      }
    }
  }

  /** The texts of a prefix of entities grow by one per entity. */
  lemma TextsOfPrefix(es: seq<Entity>, i: nat)
    requires i < |es|
    ensures TextsOf(es[..i + 1]) == TextsOf(es[..i]) + [es[i].text]
  {
    assert es[..i + 1][..i] == es[..i];
  }

  /** The categories the names are sorted into are categories of the taxonomy. */
  lemma SortedCategories(names: seq<string>, tax: Skills)
    ensures forall c :: c in Keys(Sorted(TaxonomyMap(tax), names).0) ==> exists i :: 0 <= i < |tax| && tax[i].0 == c
  {
    var m := TaxonomyMap(tax);
    SortedKeys(m, names);
    forall c | c in Keys(Sorted(m, names).0) ensures exists i :: 0 <= i < |tax| && tax[i].0 == c {
      var k :| 0 <= k < |m| && m[k].1 == c;
      assert m[k] in m;
      TaxonomyMapEntries(tax, m[k]);
    }
  }

  /**
   * When no category of the taxonomy is called "uncategorized", every
   * entity's text is placed exactly once.
   */
  lemma CategorizedContents(es: seq<Entity>, tax: Skills)
    requires forall i :: 0 <= i < |tax| ==> tax[i].0 != Uncategorized
    ensures multiset(Flatten(Categorized(es, tax))) == multiset(TextsOf(es))
  {
    var sorted := Sorted(TaxonomyMap(tax), TextsOf(es));
    SortedContents(TaxonomyMap(tax), TextsOf(es));
    SortedCategories(TextsOf(es), tax);
    if sorted.1 != [] {
      PutNew(sorted.0, Uncategorized, sorted.1);
      FlattenAppend(sorted.0, [(Uncategorized, sorted.1)]);
      assert Flatten([(Uncategorized, sorted.1)]) == sorted.1;
    }
  }

  /**
   * When no category of the taxonomy is called "uncategorized", the keys are
   * distinct, each a category of the taxonomy or "uncategorized".
   */
  lemma CategorizedKeys(es: seq<Entity>, tax: Skills)
    requires forall i :: 0 <= i < |tax| ==> tax[i].0 != Uncategorized
    ensures DistinctKeys(Categorized(es, tax))
    ensures forall c :: c in Keys(Categorized(es, tax)) ==> c == Uncategorized || exists i :: 0 <= i < |tax| && tax[i].0 == c
  {
    var sorted := Sorted(TaxonomyMap(tax), TextsOf(es));
    SortedKeys(TaxonomyMap(tax), TextsOf(es));
    SortedCategories(TextsOf(es), tax);
    if sorted.1 != [] {
      NoDupsSnoc(Keys(sorted.0), Uncategorized);
    }
  }

  /** Some name is left uncategorised exactly when some name is related to no entry. */
  lemma SortedLeftOver(m: seq<(string, string)>, names: seq<string>)
    ensures Sorted(m, names).1 != [] <==> exists k :: 0 <= k < |names| && MatchCategory(m, LowerStr(names[k])).None?
  {
    var left := Sorted(m, names).1;
    SortedPlacement(m, names, Uncategorized);
    if left != [] {
      assert left[0] in left;
    } else {
      forall k | 0 <= k < |names| ensures MatchCategory(m, LowerStr(names[k])).Some? {
        assert names[k] !in left;
      }
    }
  }

  /**
   * When no category of the taxonomy is called "uncategorized", that key is
   * present exactly when some entity is related to no listed skill.
   */
  lemma CategorizedUncategorized(es: seq<Entity>, tax: Skills)
    requires forall i :: 0 <= i < |tax| ==> tax[i].0 != Uncategorized
    ensures Uncategorized in Keys(Categorized(es, tax)) <==>
      exists k :: 0 <= k < |es| && MatchCategory(TaxonomyMap(tax), LowerStr(es[k].text)).None?
  {
    var m := TaxonomyMap(tax);
    var names := TextsOf(es);
    SortedCategories(names, tax);
    assert Uncategorized in Keys(Categorized(es, tax)) <==> Sorted(m, names).1 != [];
    SortedLeftOver(m, names);
    TextsOfIndex(es);
  }

  /** Entity `k`'s text is the `k`-th name. */
  lemma {:induction false} TextsOfIndex(es: seq<Entity>)
    ensures forall k :: 0 <= k < |es| ==> TextsOf(es)[k] == es[k].text
  {
    if es != [] {
      TextsOfIndex(es[..|es| - 1]);
    }
  }

  /** `categorize_extracted_skills`. */
  method CategorizeExtractedSkills(entities: seq<Entity>, tax: Skills) returns (categorized: seq<(string, seq<string>)>)
    ensures categorized == Categorized(entities, tax)
  {
    var m := BuildTaxonomyMap(tax);
    categorized := [];
    var uncategorized: seq<string> := [];
    for i := 0 to |entities|
      invariant (categorized, uncategorized) == Sorted(m, TextsOf(entities[..i]))
    {
      var name := entities[i].text;
      TextsOfPrefix(entities, i);
      var c := FindCategory(m, LowerStr(name));
      if c.Some? {
        categorized := AppendToKey(categorized, c.value, name);
      } else {
        uncategorized := uncategorized + [name];
      }
    }
    assert entities[..|entities|] == entities;
    if uncategorized != [] {
      categorized := Put(categorized, Uncategorized, uncategorized);
    }
  }

  // ------------------------------------------------------------ batching

  /** `batch_extract`: `extract_skills` on each text, in order. */
  method BatchExtract(texts: seq<string>, ner: Pipeline) returns (results: seq<seq<Entity>>)
    ensures |results| == |texts|
    ensures forall k :: 0 <= k < |texts| ==> results[k] == ExtractedSkills(texts[k], DefaultThreshold, ner)
  {
    results := [];
    for i := 0 to |texts|
      invariant results == MapAll(texts[..i], ExtractFn(ner))
    {
      var skills := ExtractSkills(texts[i], DefaultThreshold, ner);
      MapAllStep(texts, ExtractFn(ner), i);
      results := results + [skills];
    }
    assert texts[..|texts|] == texts;
    forall k | 0 <= k < |texts| ensures results[k] == ExtractedSkills(texts[k], DefaultThreshold, ner) {
      MapAllIndex(texts, ExtractFn(ner), k);
    }
  }

  /** `extract_skills` at the default threshold, as a function value. */
  function ExtractFn(ner: Pipeline): string -> seq<Entity> {
    t => ExtractedSkills(t, DefaultThreshold, ner)
  }
}
