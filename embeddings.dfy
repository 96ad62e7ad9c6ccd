/** Text chunking and similarity search of apps/web/server/utils/embeddings.ts. `chunkText`
    either groups the sentences of a text into chunks of bounded token count, carrying the
    last sentences of each chunk over into the next, or cuts the text into fixed-size
    character windows that overlap. */
module Embeddings {
  import opened Wrappers
  import opened Collections
  import opened Strings
  import Cleaner
  import Llm

  datatype TextChunk = TextChunk(content: string, tokens: nat, startIndex: int, endIndex: int)

  /** The token estimates of the sentences, added up. */
  function SumTokens(ss: seq<string>): nat
    decreases |ss|
  {
    if ss == [] then 0 else Llm.EstimateTokens(ss[0]) + SumTokens(ss[1..])
  }

  lemma {:induction false} SumTokensAppend(a: seq<string>, b: seq<string>)
    ensures SumTokens(a + b) == SumTokens(a) + SumTokens(b)
    decreases |a|
  {
    if a == [] {
      assert a + b == b;
    } else {
      assert (a + b)[1..] == a[1..] + b;
      SumTokensAppend(a[1..], b);
    }
  }

  predicate AllNonEmpty(ss: seq<string>) {
    forall k :: 0 <= k < |ss| ==> ss[k] != []
  }

  lemma JoinNonEmpty(parts: seq<string>, sep: string)
    requires parts != [] && parts[0] != []
    ensures Join(parts, sep) != []
  {
  }

  // ---------------------------------------------------------------------------
  // The overlap carried into the next chunk

  /** The tokens of the last `k` sentences. */
  function SuffixTokens(cur: seq<string>, k: nat): nat
    requires k <= |cur|
  {
    SumTokens(cur[|cur| - k..])
  }

  /** How many sentences the overlap loop has taken when it stops, once `k` are taken: it
      stops when all are taken or when their tokens reach the limit. */
  function OverlapCount(cur: seq<string>, limit: int, k: nat): (n: nat)
    requires k <= |cur|
    ensures k <= n <= |cur|
    decreases |cur| - k
  {
    if k == |cur| || SuffixTokens(cur, k) >= limit then k else OverlapCount(cur, limit, k + 1)
  }

  /** The sentences carried from the end of a chunk into the next one. */
  function Overlap(cur: seq<string>, limit: int): (o: seq<string>)
    ensures |o| <= |cur| && o == cur[|cur| - |o|..]
  {
    cur[|cur| - OverlapCount(cur, limit, 0)..]
  }

  lemma {:induction false} OverlapCountFacts(cur: seq<string>, limit: int, k: nat)
    requires k <= |cur|
    requires forall j :: 0 <= j < k ==> SuffixTokens(cur, j) < limit
    ensures OverlapCount(cur, limit, k) == |cur| || SuffixTokens(cur, OverlapCount(cur, limit, k)) >= limit
    ensures forall j :: 0 <= j < OverlapCount(cur, limit, k) ==> SuffixTokens(cur, j) < limit
    decreases |cur| - k
  {
    if !(k == |cur| || SuffixTokens(cur, k) >= limit) {
      OverlapCountFacts(cur, limit, k + 1);
    }
  }

  /** The overlap is the shortest suffix of the chunk whose tokens reach the limit, or the
      whole chunk when no suffix does. */
  lemma OverlapShortest(cur: seq<string>, limit: int)
    ensures Overlap(cur, limit) == cur || SumTokens(Overlap(cur, limit)) >= limit
    ensures forall j :: 0 <= j < |Overlap(cur, limit)| ==> SuffixTokens(cur, j) < limit
  {
    OverlapCountFacts(cur, limit, 0);
    assert cur[0..] == cur;
  }

  /** The loop that unshifts sentences from the end of the chunk until their tokens reach
      `overlapTokens`. */
  method TakeOverlap(current: seq<string>, overlapTokens: int) returns (overlap: seq<string>, count: nat)
    ensures overlap == Overlap(current, overlapTokens) && count == SumTokens(overlap)
  {
    overlap := [];
    count := 0;
    var i := |current| - 1;
    while i >= 0 && count < overlapTokens
      invariant -1 <= i < |current|
      invariant overlap == current[i + 1..] && count == SumTokens(overlap) && count == SuffixTokens(current, |overlap|)
      invariant OverlapCount(current, overlapTokens, |overlap|) == OverlapCount(current, overlapTokens, 0)
      decreases i + 1
    {
      assert current[i..][1..] == current[i + 1..];
      overlap := [current[i]] + overlap;
      count := count + Llm.EstimateTokens(current[i]);
      i := i - 1;
    }
    assert current[0..] == current;
  }

  // ---------------------------------------------------------------------------
  // Sentence mode

  /** The state of the sentence loop: the chunks pushed so far, `currentChunk`,
      `currentTokens` and `startIndex`. For the proofs it also records the sentences of
      each pushed chunk, how many of them were carried over from the chunk before, and how
      many carried-over sentences start `currentChunk`. */
  datatype Grouping = Grouping(chunks: seq<TextChunk>, current: seq<string>, tokens: nat, start: int,
                               groups: seq<seq<string>>, carriedOf: seq<nat>, carried: nat)

  const Initial: Grouping := Grouping([], [], 0, 0, [], [], 0)

  /** The chunk pushed for a group of sentences. */
  function ChunkOf(group: seq<string>, tokens: nat, start: int): TextChunk {
    var content := Join(group, " ");
    TextChunk(content, tokens, start, start + |content|)
  }

  /** One sentence of the loop: when it would take the chunk past `maxTokens` and the chunk
      is not empty, the chunk is pushed and the next one starts with the overlap. */
  function Step(g: Grouping, sentence: string, maxTokens: int, overlapTokens: int): Grouping {
    var st := Llm.EstimateTokens(sentence);
    if g.tokens + st > maxTokens && |g.current| > 0 then
      var chunk := ChunkOf(g.current, g.tokens, g.start);
      var overlap := Overlap(g.current, overlapTokens);
      Grouping(g.chunks + [chunk], overlap + [sentence], SumTokens(overlap) + st,
               g.start + |chunk.content| - |Join(overlap, " ")|,
               g.groups + [g.current], g.carriedOf + [g.carried], |overlap|)
    else
      Grouping(g.chunks, g.current + [sentence], g.tokens + st, g.start, g.groups, g.carriedOf, g.carried)
  }

  function FeedAll(g: Grouping, ss: seq<string>, maxTokens: int, overlapTokens: int): Grouping
    decreases |ss|
  {
    if ss == [] then g else FeedAll(Step(g, ss[0], maxTokens, overlapTokens), ss[1..], maxTokens, overlapTokens)
  }

  lemma FeedAllUnfold(g: Grouping, ss: seq<string>, maxTokens: int, overlapTokens: int)
    ensures ss == [] ==> FeedAll(g, ss, maxTokens, overlapTokens) == g
    ensures ss != [] ==> FeedAll(g, ss, maxTokens, overlapTokens) ==
                         FeedAll(Step(g, ss[0], maxTokens, overlapTokens), ss[1..], maxTokens, overlapTokens)
  {
  }

  /** The last chunk is pushed when the current one is not empty. */
  function Finish(g: Grouping): seq<TextChunk> {
    if |g.current| > 0 then g.chunks + [ChunkOf(g.current, g.tokens, g.start)] else g.chunks
  }

  function FinalGroups(g: Grouping): seq<seq<string>> {
    if |g.current| > 0 then g.groups + [g.current] else g.groups
  }

  function FinalCarried(g: Grouping): seq<nat> {
    if |g.current| > 0 then g.carriedOf + [g.carried] else g.carriedOf
  }

  /** The chunks of the sentence mode. */
  function SentenceChunks(sentences: seq<string>, maxTokens: int, overlapTokens: int): seq<TextChunk> {
    Finish(FeedAll(Initial, sentences, maxTokens, overlapTokens))
  }

  /** The sentences of each chunk. */
  function SentenceGroups(sentences: seq<string>, maxTokens: int, overlapTokens: int): seq<seq<string>> {
    FinalGroups(FeedAll(Initial, sentences, maxTokens, overlapTokens))
  }

  /** How many carried-over sentences start each chunk. */
  function SentenceCarried(sentences: seq<string>, maxTokens: int, overlapTokens: int): seq<nat> {
    FinalCarried(FeedAll(Initial, sentences, maxTokens, overlapTokens))
  }

  /** The sentence loop of `chunkText`. */
  method ChunkSentences(sentences: seq<string>, maxTokens: int, overlapTokens: int) returns (chunks: seq<TextChunk>)
    ensures chunks == SentenceChunks(sentences, maxTokens, overlapTokens)
  {
    hide Join, Overlap, SumTokens, Llm.EstimateTokens, FeedAll;
    chunks := [];
    var currentChunk: seq<string> := [];
    var currentTokens: nat := 0;
    var startIndex := 0;
    ghost var groups: seq<seq<string>> := [];
    ghost var carriedOf: seq<nat> := [];
    ghost var carried: nat := 0;
    for n := 0 to |sentences|
      invariant FeedAll(Grouping(chunks, currentChunk, currentTokens, startIndex, groups, carriedOf, carried),
                        sentences[n..], maxTokens, overlapTokens)
             == FeedAll(Initial, sentences, maxTokens, overlapTokens)
    {
      ghost var g := Grouping(chunks, currentChunk, currentTokens, startIndex, groups, carriedOf, carried);
      var sentence := sentences[n];
      var sentenceTokens := Llm.EstimateTokens(sentence);
      if currentTokens + sentenceTokens > maxTokens && |currentChunk| > 0 {
        var content := Join(currentChunk, " ");
        chunks := chunks + [TextChunk(content, currentTokens, startIndex, startIndex + |content|)];
        var overlapSentences, overlapTokenCount := TakeOverlap(currentChunk, overlapTokens);
        startIndex := startIndex + |content| - |Join(overlapSentences, " ")|;
        groups := groups + [currentChunk];
        carriedOf := carriedOf + [carried];
        carried := |overlapSentences|;
        currentChunk := overlapSentences;
        currentTokens := overlapTokenCount;
      }
      currentChunk := currentChunk + [sentence];
      currentTokens := currentTokens + sentenceTokens;
      assert Grouping(chunks, currentChunk, currentTokens, startIndex, groups, carriedOf, carried)
          == Step(g, sentence, maxTokens, overlapTokens);
      FeedAllUnfold(g, sentences[n..], maxTokens, overlapTokens);
      assert sentences[n..][1..] == sentences[n + 1..];
    }
    FeedAllUnfold(Grouping(chunks, currentChunk, currentTokens, startIndex, groups, carriedOf, carried),
                  sentences[|sentences|..], maxTokens, overlapTokens);
    if |currentChunk| > 0 {
      var content := Join(currentChunk, " ");
      chunks := chunks + [TextChunk(content, currentTokens, startIndex, startIndex + |content|)];
    }
  }

  // Invariants of the sentence loop, each proved for one step and then for the whole fold.

  predicate ChunkMatches(c: TextChunk, group: seq<string>) {
    c.content == Join(group, " ") && c.tokens == SumTokens(group) && c.endIndex == c.startIndex + |c.content|
  }

  /** Each pushed chunk is its sentences joined by spaces, with their tokens; `currentTokens`
      counts `currentChunk`. */
  predicate Shaped(g: Grouping) {
    Sized(g) &&
    (forall i :: 0 <= i < |g.chunks| ==> ChunkMatches(g.chunks[i], g.groups[i]) && AllNonEmpty(g.groups[i])) &&
    g.tokens == SumTokens(g.current) && AllNonEmpty(g.current)
  }

  /** The bookkeeping fields line up with the chunks, and the carried-over sentences of a
      group never make up all of it. */
  predicate Sized(g: Grouping) {
    |g.groups| == |g.chunks| && |g.carriedOf| == |g.chunks| &&
    (forall i :: 0 <= i < |g.chunks| ==> g.carriedOf[i] < |g.groups[i]|) &&
    (g.current == [] ==> g.chunks == [] && g.carried == 0) &&
    (g.current != [] ==> g.carried < |g.current|)
  }

  lemma StepSized(g: Grouping, s: string, maxTokens: int, overlapTokens: int)
    requires Sized(g)
    ensures Sized(Step(g, s, maxTokens, overlapTokens))
    ensures Step(g, s, maxTokens, overlapTokens).current != []
  {
  }

  lemma StepShaped(g: Grouping, s: string, maxTokens: int, overlapTokens: int)
    requires Shaped(g) && s != []
    ensures Shaped(Step(g, s, maxTokens, overlapTokens))
    ensures Step(g, s, maxTokens, overlapTokens).current != []
  {
    hide Llm.EstimateTokens, Join, ChunkOf, SumTokens, Shaped;
    var st := Llm.EstimateTokens(s);
    if g.tokens + st > maxTokens && |g.current| > 0 {
      var overlap := Overlap(g.current, overlapTokens);
      var chunk := ChunkOf(g.current, g.tokens, g.start);
      PushShaped(g, s, st, chunk, overlap, Step(g, s, maxTokens, overlapTokens));
    } else {
      ExtendShaped(g, s, st);
    }
  }

  /** A push keeps the chunks shaped: the pushed chunk is the current group's. */
  lemma PushShaped(g: Grouping, s: string, st: nat, chunk: TextChunk, overlap: seq<string>, g': Grouping)
    requires Shaped(g) && s != [] && g.current != [] && st == Llm.EstimateTokens(s)
    requires chunk == ChunkOf(g.current, g.tokens, g.start)
    requires |overlap| <= |g.current| && overlap == g.current[|g.current| - |overlap|..]
    requires g'.chunks == g.chunks + [chunk] && g'.current == overlap + [s] && g'.tokens == SumTokens(overlap) + st
    requires g'.groups == g.groups + [g.current] && g'.carriedOf == g.carriedOf + [g.carried] && g'.carried == |overlap|
    ensures Shaped(g')
  {
    hide Llm.EstimateTokens, Join;
    assert SumTokens([s]) == st;
    SumTokensAppend(overlap, [s]);
    assert ChunkMatches(chunk, g.current);
    hide SumTokens, ChunkOf, ChunkMatches, AllNonEmpty;
    NonEmptySuffix(g.current, |overlap|);
    NonEmptySnoc(overlap, s);
    ChunksPushed(g.chunks, g.groups, chunk, g.current);
    CarriedPushed(g.carriedOf, g.groups, g.carried, g.current);
  }

  /** Appending a sentence to the current chunk keeps the chunks shaped. */
  lemma ExtendShaped(g: Grouping, s: string, st: nat)
    requires Shaped(g) && s != [] && st == Llm.EstimateTokens(s)
    ensures Shaped(Grouping(g.chunks, g.current + [s], g.tokens + st, g.start, g.groups, g.carriedOf, g.carried))
  {
    hide Llm.EstimateTokens, Join;
    assert SumTokens([s]) == st;
    SumTokensAppend(g.current, [s]);
    hide SumTokens, AllNonEmpty;
    NonEmptySnoc(g.current, s);
  }

  lemma NonEmptySnoc(ss: seq<string>, s: string)
    requires AllNonEmpty(ss) && s != []
    ensures AllNonEmpty(ss + [s])
  {
    forall k | 0 <= k < |ss| + 1 ensures (ss + [s])[k] != [] {
      if k < |ss| {
        assert (ss + [s])[k] == ss[k];
      }
    }
  }

  lemma NonEmptySuffix(ss: seq<string>, n: nat)
    requires AllNonEmpty(ss) && n <= |ss|
    ensures AllNonEmpty(ss[|ss| - n..])
  {
    var suffix := ss[|ss| - n..];
    forall k | 0 <= k < |suffix| ensures suffix[k] != [] {
      assert suffix[k] == ss[|ss| - n + k];
    }
  }

  lemma ChunksPushed(chunks: seq<TextChunk>, groups: seq<seq<string>>, chunk: TextChunk, group: seq<string>)
    requires |groups| == |chunks| && ChunkMatches(chunk, group) && AllNonEmpty(group)
    requires forall i :: 0 <= i < |chunks| ==> ChunkMatches(chunks[i], groups[i]) && AllNonEmpty(groups[i])
    ensures forall i :: 0 <= i < |chunks| + 1 ==>
      ChunkMatches((chunks + [chunk])[i], (groups + [group])[i]) && AllNonEmpty((groups + [group])[i])
  {
    hide ChunkMatches, AllNonEmpty;
    forall i | 0 <= i < |chunks| + 1
      ensures ChunkMatches((chunks + [chunk])[i], (groups + [group])[i]) && AllNonEmpty((groups + [group])[i])
    {
      if i < |chunks| {
        assert (chunks + [chunk])[i] == chunks[i] && (groups + [group])[i] == groups[i];
      } else {
        assert (chunks + [chunk])[i] == chunk && (groups + [group])[i] == group;
      }
    }
  }

  lemma CarriedPushed(carriedOf: seq<nat>, groups: seq<seq<string>>, c: nat, group: seq<string>)
    requires |carriedOf| == |groups| && c < |group|
    requires forall i :: 0 <= i < |groups| ==> carriedOf[i] < |groups[i]|
    ensures forall i :: 0 <= i < |groups| + 1 ==> (carriedOf + [c])[i] < |(groups + [group])[i]|
  {
    forall i | 0 <= i < |groups| + 1 ensures (carriedOf + [c])[i] < |(groups + [group])[i]| {
      if i < |groups| {
        assert (carriedOf + [c])[i] == carriedOf[i] && (groups + [group])[i] == groups[i];
      }
    }
  }

  lemma {:induction false} FeedShaped(g: Grouping, ss: seq<string>, maxTokens: int, overlapTokens: int)
    requires Shaped(g) && AllNonEmpty(ss)
    ensures Shaped(FeedAll(g, ss, maxTokens, overlapTokens))
    ensures ss != [] ==> FeedAll(g, ss, maxTokens, overlapTokens).current != []
    decreases |ss|
  {
    if ss != [] {
      StepShaped(g, ss[0], maxTokens, overlapTokens);
      var g' := Step(g, ss[0], maxTokens, overlapTokens);
      FeedShaped(g', ss[1..], maxTokens, overlapTokens);
      if ss[1..] == [] {
        assert FeedAll(g', ss[1..], maxTokens, overlapTokens) == g';
      }
    }
  }

  /** Every chunk is its sentences joined by spaces, is not empty, and has as tokens the
      sum of its sentences' estimates; the final chunk is pushed exactly when there are
      sentences. */
  lemma ChunksShape(sentences: seq<string>, maxTokens: int, overlapTokens: int)
    requires AllNonEmpty(sentences)
    ensures var r := SentenceChunks(sentences, maxTokens, overlapTokens);
      var groups := SentenceGroups(sentences, maxTokens, overlapTokens);
      var carried := SentenceCarried(sentences, maxTokens, overlapTokens);
      |groups| == |r| && |carried| == |r| &&
      (forall i :: 0 <= i < |r| ==> ChunkMatches(r[i], groups[i]) && r[i].content != [] && carried[i] < |groups[i]|) &&
      (|r| > 0 <==> sentences != [])
  {
    FeedShaped(Initial, sentences, maxTokens, overlapTokens);
    var g := FeedAll(Initial, sentences, maxTokens, overlapTokens);
    var r := SentenceChunks(sentences, maxTokens, overlapTokens);
    var groups := SentenceGroups(sentences, maxTokens, overlapTokens);
    forall i | 0 <= i < |r| ensures r[i].content != [] {
      JoinNonEmpty(groups[i], " ");
    }
  }

  /** The chunks' start indices: the first chunk starts at 0, and each next one where the
      chunk before ends, less the joined length of the sentences it carries over. */
  predicate Started(g: Grouping) {
    Shaped(g) &&
    (g.chunks == [] ==> g.start == 0) &&
    (g.chunks != [] ==>
       g.chunks[0].startIndex == 0 && g.start == g.chunks[|g.chunks| - 1].endIndex - |Join(g.current[..g.carried], " ")|) &&
    forall i :: 0 < i < |g.chunks| ==>
      g.chunks[i].startIndex == g.chunks[i - 1].endIndex - |Join(g.groups[i][..g.carriedOf[i]], " ")|
  }

  lemma StepStarted(g: Grouping, s: string, maxTokens: int, overlapTokens: int)
    requires Started(g) && s != []
    ensures Started(Step(g, s, maxTokens, overlapTokens))
  {
    hide Llm.EstimateTokens;
    StepShaped(g, s, maxTokens, overlapTokens);
    var st := Llm.EstimateTokens(s);
    var g' := Step(g, s, maxTokens, overlapTokens);
    if g.tokens + st > maxTokens && |g.current| > 0 {
      var overlap := Overlap(g.current, overlapTokens);
      assert g'.current[..g'.carried] == overlap;
      assert g'.chunks[|g.chunks|].startIndex == g.start;
    } else {
      if g.current != [] {
        assert g'.current[..g.carried] == g.current[..g.carried];
      }
    }
  }

  lemma {:induction false} FeedStarted(g: Grouping, ss: seq<string>, maxTokens: int, overlapTokens: int)
    requires Started(g) && AllNonEmpty(ss)
    ensures Started(FeedAll(g, ss, maxTokens, overlapTokens))
    decreases |ss|
  {
    if ss != [] {
      StepStarted(g, ss[0], maxTokens, overlapTokens);
      FeedStarted(Step(g, ss[0], maxTokens, overlapTokens), ss[1..], maxTokens, overlapTokens);
    }
  }

  /** The first chunk starts at 0; each next chunk starts where the one before ends, less
      the joined length of the sentences it carries over. */
  lemma ChunksStart(sentences: seq<string>, maxTokens: int, overlapTokens: int)
    requires AllNonEmpty(sentences)
    ensures var r := SentenceChunks(sentences, maxTokens, overlapTokens);
      var groups := SentenceGroups(sentences, maxTokens, overlapTokens);
      var carried := SentenceCarried(sentences, maxTokens, overlapTokens);
      |groups| == |r| && |carried| == |r| &&
      (r != [] ==> r[0].startIndex == 0) &&
      forall i :: 0 < i < |r| ==>
        carried[i] <= |groups[i]| && r[i].startIndex == r[i - 1].endIndex - |Join(groups[i][..carried[i]], " ")|
  {
    FeedStarted(Initial, sentences, maxTokens, overlapTokens);
    ChunksShape(sentences, maxTokens, overlapTokens);
  }

  /** Why chunks end: each pushed chunk was closed because the next sentence would have taken
      it past `maxTokens`, and a chunk exceeds `maxTokens` only when all it has besides its
      carried-over sentences is one sentence. */
  predicate Flushed(g: Grouping, maxTokens: int) {
    Sized(g) &&
    (forall i :: 0 < i < |g.chunks| ==> g.chunks[i - 1].tokens + Llm.EstimateTokens(g.groups[i][g.carriedOf[i]]) > maxTokens) &&
    (g.chunks != [] ==> g.chunks[|g.chunks| - 1].tokens + Llm.EstimateTokens(g.current[g.carried]) > maxTokens) &&
    (forall i :: 0 <= i < |g.chunks| ==> g.chunks[i].tokens <= maxTokens || |g.groups[i]| == g.carriedOf[i] + 1) &&
    (g.current == [] || g.tokens <= maxTokens || |g.current| == g.carried + 1)
  }

  /** A push keeps `Flushed`: the pushed chunk holds the tokens counted so far, and the new
      current chunk is the overlap and the sentence that did not fit. */
  lemma FlushedPush(g: Grouping, g': Grouping, c: TextChunk, s: string, maxTokens: int)
    requires Flushed(g, maxTokens) && Sized(g') && g.current != []
    requires g.tokens + Llm.EstimateTokens(s) > maxTokens
    requires g'.chunks == g.chunks + [c] && c.tokens == g.tokens
    requires g'.groups == g.groups + [g.current] && g'.carriedOf == g.carriedOf + [g.carried]
    requires |g'.current| == g'.carried + 1 && g'.current[g'.carried] == s
    ensures Flushed(g', maxTokens)
  {
    hide Llm.EstimateTokens;
    var n := |g.chunks|;
    forall i | 0 < i < n + 1
      ensures g'.chunks[i - 1].tokens + Llm.EstimateTokens(g'.groups[i][g'.carriedOf[i]]) > maxTokens
    {
      assert g'.chunks[i - 1] == g.chunks[i - 1];
      if i < n {
        assert g'.groups[i] == g.groups[i] && g'.carriedOf[i] == g.carriedOf[i];
      } else {
        assert g'.groups[n] == g.current && g'.carriedOf[n] == g.carried;
      }
    }
    forall i | 0 <= i < n + 1
      ensures g'.chunks[i].tokens <= maxTokens || |g'.groups[i]| == g'.carriedOf[i] + 1
    {
      if i < n {
        assert g'.chunks[i] == g.chunks[i] && g'.groups[i] == g.groups[i] && g'.carriedOf[i] == g.carriedOf[i];
      } else {
        assert g'.chunks[n] == c && g'.groups[n] == g.current && g'.carriedOf[n] == g.carried;
      }
    }
    assert g'.chunks[n] == c;
  }

  lemma StepFlushed(g: Grouping, s: string, maxTokens: int, overlapTokens: int)
    requires Flushed(g, maxTokens)
    ensures Flushed(Step(g, s, maxTokens, overlapTokens), maxTokens)
  {
    hide Llm.EstimateTokens;
    StepSized(g, s, maxTokens, overlapTokens);
    var st := Llm.EstimateTokens(s);
    var g' := Step(g, s, maxTokens, overlapTokens);
    if g.tokens + st > maxTokens && |g.current| > 0 {
      FlushedPush(g, g', ChunkOf(g.current, g.tokens, g.start), s, maxTokens);
    } else if g.current != [] {
      assert g'.current[g.carried] == g.current[g.carried];
    }
  }

  lemma {:induction false} FeedFlushed(g: Grouping, ss: seq<string>, maxTokens: int, overlapTokens: int)
    requires Flushed(g, maxTokens)
    ensures Flushed(FeedAll(g, ss, maxTokens, overlapTokens), maxTokens)
    decreases |ss|
  {
    if ss != [] {
      StepFlushed(g, ss[0], maxTokens, overlapTokens);
      FeedFlushed(Step(g, ss[0], maxTokens, overlapTokens), ss[1..], maxTokens, overlapTokens);
    }
  }

  /** A chunk is closed only when the next sentence would take it past `maxTokens`; a chunk
      over `maxTokens` holds one sentence beyond those it carries over. */
  lemma ChunksFlush(sentences: seq<string>, maxTokens: int, overlapTokens: int)
    ensures var r := SentenceChunks(sentences, maxTokens, overlapTokens);
      var groups := SentenceGroups(sentences, maxTokens, overlapTokens);
      var carried := SentenceCarried(sentences, maxTokens, overlapTokens);
      |groups| == |r| && |carried| == |r| &&
      (forall i :: 0 < i < |r| ==>
         carried[i] < |groups[i]| && r[i - 1].tokens + Llm.EstimateTokens(groups[i][carried[i]]) > maxTokens) &&
      (forall i :: 0 <= i < |r| ==> r[i].tokens <= maxTokens || |groups[i]| == carried[i] + 1)
  {
    hide Llm.EstimateTokens, FeedAll, Step, Join;
    FeedFlushed(Initial, sentences, maxTokens, overlapTokens);
  }

  /** Each chunk after the first starts with the overlap of the chunk before. */
  predicate Overlapped(g: Grouping, overlapTokens: int) {
    Sized(g) &&
    (forall i :: 0 < i < |g.chunks| ==> g.groups[i][..g.carriedOf[i]] == Overlap(g.groups[i - 1], overlapTokens)) &&
    (g.chunks != [] ==> g.current[..g.carried] == Overlap(g.groups[|g.chunks| - 1], overlapTokens))
  }

  lemma StepOverlapped(g: Grouping, s: string, maxTokens: int, overlapTokens: int)
    requires Overlapped(g, overlapTokens)
    ensures Overlapped(Step(g, s, maxTokens, overlapTokens), overlapTokens)
  {
    hide Llm.EstimateTokens, Join, ChunkOf, SumTokens, Overlap;
    StepSized(g, s, maxTokens, overlapTokens);
    var st := Llm.EstimateTokens(s);
    var g' := Step(g, s, maxTokens, overlapTokens);
    if g.tokens + st > maxTokens && |g.current| > 0 {
      var n := |g.chunks|;
      assert g'.current[..g'.carried] == Overlap(g.current, overlapTokens);
      forall i | 0 < i < n + 1
        ensures g'.groups[i][..g'.carriedOf[i]] == Overlap(g'.groups[i - 1], overlapTokens)
      {
        assert g'.groups[i - 1] == g.groups[i - 1];
        if i < n {
          assert g'.groups[i] == g.groups[i] && g'.carriedOf[i] == g.carriedOf[i];
        } else {
          assert g'.groups[n] == g.current && g'.carriedOf[n] == g.carried;
        }
      }
      assert g'.groups[n] == g.current;
    } else if g.current != [] {
      assert g'.current[..g.carried] == g.current[..g.carried];
    }
  }

  lemma {:induction false} FeedOverlapped(g: Grouping, ss: seq<string>, maxTokens: int, overlapTokens: int)
    requires Overlapped(g, overlapTokens)
    ensures Overlapped(FeedAll(g, ss, maxTokens, overlapTokens), overlapTokens)
    decreases |ss|
  {
    if ss != [] {
      StepOverlapped(g, ss[0], maxTokens, overlapTokens);
      FeedOverlapped(Step(g, ss[0], maxTokens, overlapTokens), ss[1..], maxTokens, overlapTokens);
    }
  }

  /** Each chunk after the first starts with the shortest suffix of the chunk before whose
      tokens reach `overlapTokens`, or with the whole chunk before when none does. */
  lemma ChunksOverlap(sentences: seq<string>, maxTokens: int, overlapTokens: int)
    ensures var groups := SentenceGroups(sentences, maxTokens, overlapTokens);
      var carried := SentenceCarried(sentences, maxTokens, overlapTokens);
      |carried| == |groups| &&
      forall i :: 0 < i < |groups| ==>
        carried[i] <= |groups[i]| && groups[i][..carried[i]] == Overlap(groups[i - 1], overlapTokens)
  {
    FeedOverlapped(Initial, sentences, maxTokens, overlapTokens);
  }

  /** The sentences of each group that were not carried over. */
  function Fresh(groups: seq<seq<string>>, carried: seq<nat>): seq<seq<string>>
    requires |carried| == |groups| && forall i :: 0 <= i < |groups| ==> carried[i] <= |groups[i]|
  {
    seq(|groups|, i requires 0 <= i < |groups| => groups[i][carried[i]..])
  }

  /** The sentences that are not carried over, chunk after chunk, are the sentences read. */
  predicate Covered(g: Grouping, fed: seq<string>) {
    Sized(g) && Flatten(Fresh(g.groups, g.carriedOf)) + g.current[g.carried..] == fed
  }

  lemma StepCovered(g: Grouping, fed: seq<string>, s: string, maxTokens: int, overlapTokens: int)
    requires Covered(g, fed)
    ensures Covered(Step(g, s, maxTokens, overlapTokens), fed + [s])
  {
    StepSized(g, s, maxTokens, overlapTokens);
    var st := Llm.EstimateTokens(s);
    var g' := Step(g, s, maxTokens, overlapTokens);
    var before := Fresh(g.groups, g.carriedOf);
    if g.tokens + st > maxTokens && |g.current| > 0 {
      assert Fresh(g'.groups, g'.carriedOf) == before + [g.current[g.carried..]];
      FlattenSnoc(before, g.current[g.carried..]);
      assert g'.current[g'.carried..] == [s];
    } else {
      assert Fresh(g'.groups, g'.carriedOf) == before;
      assert g'.current[g'.carried..] == g.current[g.carried..] + [s];
    }
  }

  lemma {:induction false} FeedCovered(g: Grouping, fed: seq<string>, ss: seq<string>, maxTokens: int, overlapTokens: int)
    requires Covered(g, fed)
    ensures Covered(FeedAll(g, ss, maxTokens, overlapTokens), fed + ss)
    decreases |ss|
  {
    if ss == [] {
      assert fed + ss == fed;
    } else {
      StepCovered(g, fed, ss[0], maxTokens, overlapTokens);
      FeedCovered(Step(g, ss[0], maxTokens, overlapTokens), fed + [ss[0]], ss[1..], maxTokens, overlapTokens);
      assert fed + [ss[0]] + ss[1..] == fed + ss;
    }
  }

  /** Every sentence appears in the chunks, in order: the sentences each chunk adds to those
      it carries over are, one chunk after the other, the sentences of the text. */
  lemma ChunksCover(sentences: seq<string>, maxTokens: int, overlapTokens: int)
    ensures var groups := SentenceGroups(sentences, maxTokens, overlapTokens);
      var carried := SentenceCarried(sentences, maxTokens, overlapTokens);
      |carried| == |groups| && (forall i :: 0 <= i < |groups| ==> carried[i] <= |groups[i]|) &&
      Flatten(Fresh(groups, carried)) == sentences
  {
    hide Llm.EstimateTokens, FeedAll, Step, Join, Covered, Fresh, Flatten, FinalGroups, FinalCarried;
    CoveredInitial();
    FeedCovered(Initial, [], sentences, maxTokens, overlapTokens);
    assert [] + sentences == sentences;
    CoveredFinal(FeedAll(Initial, sentences, maxTokens, overlapTokens), sentences);
  }

  lemma CoveredInitial()
    ensures Covered(Initial, [])
  {
    assert Fresh([], []) == [];
  }

  /** Pushing the last chunk keeps every sentence covered. */
  lemma CoveredFinal(g: Grouping, fed: seq<string>)
    requires Covered(g, fed)
    ensures var groups, carried := FinalGroups(g), FinalCarried(g);
      |carried| == |groups| && (forall i :: 0 <= i < |groups| ==> carried[i] <= |groups[i]|) &&
      Flatten(Fresh(groups, carried)) == fed
  {
    hide Llm.EstimateTokens, Join, Flatten, Fresh;
    var before := Fresh(g.groups, g.carriedOf);
    if |g.current| > 0 {
      FreshSnoc(g.groups, g.carriedOf, g.current, g.carried);
      FlattenSnoc(before, g.current[g.carried..]);
    } else {
      assert g.current[g.carried..] == [];
      assert Flatten(before) + [] == Flatten(before);
    }
  }

  lemma FreshSnoc(groups: seq<seq<string>>, carried: seq<nat>, group: seq<string>, c: nat)
    requires |carried| == |groups| && forall i :: 0 <= i < |groups| ==> carried[i] <= |groups[i]|
    requires c <= |group|
    ensures Fresh(groups + [group], carried + [c]) == Fresh(groups, carried) + [group[c..]]
  {
  }



  // ---------------------------------------------------------------------------
  // Character mode

  /** The chunk of `size` characters, or of the rest of the text, that starts at `s`. */
  function Window(text: string, s: int, size: int): TextChunk {
    var content := JsSubstring(text, s, s + size);
    TextChunk(content, Llm.EstimateTokens(content), s, s + |content|)
  }

  lemma WindowShape(text: string, s: int, size: int)
    requires 0 <= s < |text| && size >= 0
    ensures var w := Window(text, s, size);
      w.startIndex == s && w.content == text[s..if s + size < |text| then s + size else |text|] &&
      w.endIndex == s + |w.content| && w.tokens == Llm.EstimateTokens(w.content)
  {
  }

  /** The windows of `size` characters starting at `i`, `i + step`, … below the end. */
  function CharChunksFrom(text: string, i: nat, size: int, step: int): seq<TextChunk>
    requires step > 0
    decreases |text| - i
  {
    if i >= |text| then [] else [Window(text, i, size)] + CharChunksFrom(text, i + step, size, step)
  }

  /** The chunks of the character mode; the loop ends only for a positive step. */
  function CharChunks(text: string, size: int, step: int): seq<TextChunk>
    requires |text| == 0 || step > 0
  {
    if |text| == 0 then [] else CharChunksFrom(text, 0, size, step)
  }

  /** The character loop of `chunkText`. */
  method ChunkCharacters(text: string, chunkSize: int, overlapSize: int) returns (chunks: seq<TextChunk>)
    requires |text| == 0 || chunkSize - overlapSize > 0
    ensures chunks == CharChunks(text, chunkSize, chunkSize - overlapSize)
  {
    hide JsSubstring, Llm.EstimateTokens;
    chunks := [];
    var i: nat := 0;
    while i < |text|
      invariant |text| > 0 ==> chunks + CharChunksFrom(text, i, chunkSize, chunkSize - overlapSize)
                               == CharChunksFrom(text, 0, chunkSize, chunkSize - overlapSize)
      invariant |text| == 0 ==> chunks == []
      decreases |text| - i
    {
      var chunk := JsSubstring(text, i, i + chunkSize);
      assert TextChunk(chunk, Llm.EstimateTokens(chunk), i, i + |chunk|) == Window(text, i, chunkSize);
      ghost var before := chunks;
      chunks := chunks + [TextChunk(chunk, Llm.EstimateTokens(chunk), i, i + |chunk|)];
      ghost var rest := CharChunksFrom(text, i + (chunkSize - overlapSize), chunkSize, chunkSize - overlapSize);
      assert CharChunksFrom(text, i, chunkSize, chunkSize - overlapSize) == [Window(text, i, chunkSize)] + rest;
      AppendAssoc(before, [Window(text, i, chunkSize)], rest);
      i := i + (chunkSize - overlapSize);
    }
    assert |text| > 0 ==> CharChunksFrom(text, i, chunkSize, chunkSize - overlapSize) == [];
  }

  lemma MulSucc(a: int, b: int)
    ensures (a + 1) * b == a * b + b
  {
  }

  lemma ShiftStart(i: int, k: int, step: int)
    ensures (i + step) + (k - 1) * step == i + k * step
  {
    MulSucc(k - 1, step);
  }

  /** The `k`-th chunk is the window at `i + k * step`, which starts below the end of the
      text. */
  lemma {:induction false} CharChunksLayout(text: string, i: nat, size: int, step: int)
    requires step > 0
    ensures var r := CharChunksFrom(text, i, size, step);
      forall k :: 0 <= k < |r| ==> r[k] == Window(text, i + k * step, size) && i + k * step < |text|
    decreases |text| - i
  {
    hide Window;
    var r := CharChunksFrom(text, i, size, step);
    if i < |text| {
      CharChunksLayout(text, i + step, size, step);
      var rest := CharChunksFrom(text, i + step, size, step);
      assert r == [Window(text, i, size)] + rest;
      forall k | 0 <= k < |r|
        ensures r[k] == Window(text, i + k * step, size) && i + k * step < |text|
      {
        if k == 0 {
          assert r[0] == Window(text, i, size);
        } else {
          assert r[k] == rest[k - 1];
          ShiftStart(i, k, step);
        }
      }
    }
  }

  /** The start after the last window is past the end of the text. */
  lemma {:induction false} CharChunksEnd(text: string, i: nat, size: int, step: int)
    requires step > 0
    ensures i + |CharChunksFrom(text, i, size, step)| * step >= |text|
    decreases |text| - i
  {
    var r := CharChunksFrom(text, i, size, step);
    if i < |text| {
      CharChunksEnd(text, i + step, size, step);
      var rest := CharChunksFrom(text, i + step, size, step);
      assert |r| == |rest| + 1;
      MulSucc(|rest|, step);
      assert i + |r| * step == i + step + |rest| * step;
    } else {
      assert |r| == 0;
      assert |r| * step == 0;
    }
  }

  /** With a non-negative overlap every character of the text lies in some chunk. */
  lemma {:induction false} CharChunksCover(text: string, i: nat, size: int, step: int, j: int)
    requires 0 < step <= size && i <= j < |text|
    ensures exists c :: c in CharChunksFrom(text, i, size, step) && c.startIndex <= j < c.endIndex
    decreases |text| - i
  {
    hide Window, Llm.EstimateTokens;
    var r := CharChunksFrom(text, i, size, step);
    assert r == [Window(text, i, size)] + CharChunksFrom(text, i + step, size, step);
    if j < i + step {
      WindowShape(text, i, size);
      assert r[0] in r;
    } else {
      CharChunksCover(text, i + step, size, step, j);
      var c :| c in CharChunksFrom(text, i + step, size, step) && c.startIndex <= j < c.endIndex;
      assert c in r;
    }
  }

  // ---------------------------------------------------------------------------
  // chunkText

  /** `preserveSentences !== false`. */
  predicate SentenceMode(preserveSentences: Option<bool>) {
    preserveSentences != Some(false)
  }

  /** What `chunkText` returns, with `maxTokens || 512` and `overlapTokens || 128`. */
  function ChunkTextResult(text: string, maxTokens: Option<int>, overlapTokens: Option<int>, preserveSentences: Option<bool>): seq<TextChunk>
    requires !SentenceMode(preserveSentences) ==> |text| == 0 || OrDefault(maxTokens, 512) > OrDefault(overlapTokens, 128)
  {
    var maxT := OrDefault(maxTokens, 512);
    var overlapT := OrDefault(overlapTokens, 128);
    if SentenceMode(preserveSentences) then SentenceChunks(Cleaner.SplitIntoSentences(text), maxT, overlapT)
    else CharChunks(text, maxT * 4, maxT * 4 - overlapT * 4)
  }

  /** `chunkText`. In character mode the loop ends only when `maxTokens` exceeds
      `overlapTokens` or the text is empty, which is what this method requires. */
  method ChunkText(text: string, maxTokens: Option<int>, overlapTokens: Option<int>, preserveSentences: Option<bool>)
    returns (chunks: seq<TextChunk>)
    requires !SentenceMode(preserveSentences) ==> |text| == 0 || OrDefault(maxTokens, 512) > OrDefault(overlapTokens, 128)
    ensures chunks == ChunkTextResult(text, maxTokens, overlapTokens, preserveSentences)
  {
    var maxT := OrDefault(maxTokens, 512);
    var overlapT := OrDefault(overlapTokens, 128);
    if SentenceMode(preserveSentences) {
      var sentences := Cleaner.SplitIntoSentences(text);
      chunks := ChunkSentences(sentences, maxT, overlapT);
    } else {
      chunks := ChunkCharacters(text, maxT * 4, overlapT * 4);
    }
  }

  /** The sentences of a text are non-empty, so the sentence-mode lemmas apply to it. */
  lemma SentencesNonEmpty(text: string)
    ensures AllNonEmpty(Cleaner.SplitIntoSentences(text))
  {
    Cleaner.SentencesShape(text);
  }

  /** A chunk that holds position `j`. */
  ghost predicate Covers(chunks: seq<TextChunk>, j: int) {
    exists c :: c in chunks && c.startIndex <= j < c.endIndex
  }

  /** The windows start at 0, `step`, `2·step`, … below the end of the text, each holds the
      next `size` characters or the rest of the text, and the next start would be past the
      end. */
  lemma CharChunksWindows(text: string, size: int, step: int)
    requires step > 0 && size >= 0
    ensures var r := CharChunks(text, size, step);
      (forall k :: 0 <= k < |r| ==>
        r[k].startIndex == k * step && k * step < |text| &&
        r[k].content == text[k * step..if k * step + size < |text| then k * step + size else |text|] &&
        r[k].endIndex == r[k].startIndex + |r[k].content|) &&
      |r| * step >= |text|
  {
    if |text| > 0 {
      CharChunksLayout(text, 0, size, step);
      CharChunksEnd(text, 0, size, step);
      var r := CharChunks(text, size, step);
      forall k | 0 <= k < |r|
        ensures r[k].startIndex == k * step && k * step < |text| &&
          r[k].content == text[k * step..if k * step + size < |text| then k * step + size else |text|] &&
          r[k].endIndex == r[k].startIndex + |r[k].content|
      {
        assert 0 + k * step == k * step;
        WindowShape(text, k * step, size);
      }
    }
  }

  /** When windows overlap or touch, every character of the text lies in one. */
  lemma CharChunksCovering(text: string, size: int, step: int)
    requires 0 < step <= size
    ensures forall j :: 0 <= j < |text| ==> Covers(CharChunks(text, size, step), j)
  {
    forall j | 0 <= j < |text| ensures Covers(CharChunks(text, size, step), j) {
      CharChunksCover(text, 0, size, step, j);
    }
  }

  /** In character mode the windows are `4·maxTokens` characters long and start
      `4·maxTokens − 4·overlapTokens` apart; an empty text has none. */
  lemma CharacterMode(text: string, maxTokens: int, overlapTokens: int)
    requires maxTokens > overlapTokens > 0
    ensures ChunkTextResult(text, Some(maxTokens), Some(overlapTokens), Some(false))
         == CharChunks(text, 4 * maxTokens, 4 * maxTokens - 4 * overlapTokens)
    ensures |text| == 0 ==> ChunkTextResult(text, Some(maxTokens), Some(overlapTokens), Some(false)) == []
  {
    assert maxTokens * 4 == 4 * maxTokens && overlapTokens * 4 == 4 * overlapTokens;
  }

  // ---------------------------------------------------------------------------
  // cosineSimilarity

  function Dot(a: seq<real>, b: seq<real>): real
    requires |a| == |b|
    decreases |a|
  {
    if a == [] then 0.0 else Dot(a[..|a| - 1], b[..|b| - 1]) + a[|a| - 1] * b[|b| - 1]
  }

  lemma {:induction false} DotSymmetric(a: seq<real>, b: seq<real>)
    requires |a| == |b|
    ensures Dot(a, b) == Dot(b, a)
    decreases |a|
  {
    if a != [] {
      DotSymmetric(a[..|a| - 1], b[..|b| - 1]);
    }
  }

  lemma {:induction false} DotSelf(a: seq<real>)
    ensures Dot(a, a) >= 0.0
    decreases |a|
  {
    if a != [] {
      DotSelf(a[..|a| - 1]);
      var x := a[|a| - 1];
      assert x * x >= 0.0;
    }
  }

  /** `sqrt` is positive on positive numbers, as `Math.sqrt` is. */
  ghost predicate PositiveRoot(sqrt: real -> real) {
    forall x :: x > 0.0 ==> sqrt(x) > 0.0
  }

  /** `cosineSimilarity`, with `Math.sqrt` as the parameter `sqrt`: a length mismatch
      throws, a zero vector gives 0. */
  function Cosine(a: seq<real>, b: seq<real>, sqrt: real -> real): (r: Result<real>)
    requires PositiveRoot(sqrt)
    ensures r.Failure? <==> |a| != |b|
    ensures |a| != |b| ==> r.error == "Vectors must have the same length"
    ensures |a| == |b| && (Dot(a, a) == 0.0 || Dot(b, b) == 0.0) ==> r == Success(0.0)
  {
    if |a| != |b| then Failure("Vectors must have the same length")
    else
      var normA := Dot(a, a);
      var normB := Dot(b, b);
      if normA == 0.0 || normB == 0.0 then Success(0.0)
      else
        DotSelf(a);
        DotSelf(b);
        assert sqrt(normA) * sqrt(normB) > 0.0;
        Success(Dot(a, b) / (sqrt(normA) * sqrt(normB)))
  }

  /** The similarity does not depend on the order of the two vectors. */
  lemma CosineSymmetric(a: seq<real>, b: seq<real>, sqrt: real -> real)
    requires PositiveRoot(sqrt)
    ensures Cosine(a, b, sqrt) == Cosine(b, a, sqrt) || (|a| != |b| && Cosine(a, b, sqrt).Failure? && Cosine(b, a, sqrt).Failure?)
  {
    if |a| == |b| {
      DotSymmetric(a, b);
      DotSelf(a);
      DotSelf(b);
      if Dot(a, a) != 0.0 && Dot(b, b) != 0.0 {
        assert sqrt(Dot(a, a)) * sqrt(Dot(b, b)) == sqrt(Dot(b, b)) * sqrt(Dot(a, a));
      }
    }
  }

  /** A non-zero vector is fully similar to itself when `sqrt` is a square root. */
  lemma CosineSelf(a: seq<real>, sqrt: real -> real)
    requires PositiveRoot(sqrt) && forall x :: x > 0.0 ==> sqrt(x) * sqrt(x) == x
    requires Dot(a, a) != 0.0
    ensures Cosine(a, a, sqrt) == Success(1.0)
  {
    DotSelf(a);
    var n := Dot(a, a);
    assert n > 0.0;
    var q := sqrt(n);
    assert q * q == n;
    DivSelf(n);
    assert Cosine(a, a, sqrt).Success?;
    assert Cosine(a, a, sqrt).value == n / (q * q);
  }

  lemma DivSelf(x: real)
    requires x > 0.0
    ensures x / x == 1.0
  {
  }

  /** The accumulation loop of `cosineSimilarity`. */
  method CosineSimilarity(a: seq<real>, b: seq<real>, sqrt: real -> real) returns (r: Result<real>)
    requires PositiveRoot(sqrt)
    ensures r == Cosine(a, b, sqrt)
  {
    if |a| != |b| {
      return Failure("Vectors must have the same length");
    }
    var dotProduct := 0.0;
    var normA := 0.0;
    var normB := 0.0;
    for i := 0 to |a|
      invariant dotProduct == Dot(a[..i], b[..i])
      invariant normA == Dot(a[..i], a[..i])
      invariant normB == Dot(b[..i], b[..i])
    {
      assert a[..i + 1][..i] == a[..i] && b[..i + 1][..i] == b[..i];
      dotProduct := dotProduct + a[i] * b[i];
      normA := normA + a[i] * a[i];
      normB := normB + b[i] * b[i];
    }
    assert a[..|a|] == a && b[..|b|] == b;
    if normA == 0.0 || normB == 0.0 {
      return Success(0.0);
    }
    DotSelf(a);
    DotSelf(b);
    assert sqrt(normA) * sqrt(normB) > 0.0;
    r := Success(dotProduct / (sqrt(normA) * sqrt(normB)));
    assert Cosine(a, b, sqrt).Success?;
    assert Cosine(a, b, sqrt).value == r.value;
  }

  // ---------------------------------------------------------------------------
  // findSimilarChunks

  datatype EmbeddedChunk = EmbeddedChunk(chunk: TextChunk, embedding: seq<real>)

  datatype ScoredChunk = ScoredChunk(chunk: TextChunk, embedding: seq<real>, similarity: real)

  function Similarity(c: ScoredChunk): real {
    c.similarity
  }

  /** `chunks.map(...)` with the similarity to the query; it throws at the first chunk whose
      embedding has another length than the query. */
  function Scored(query: seq<real>, chunks: seq<EmbeddedChunk>, sqrt: real -> real): (r: Result<seq<ScoredChunk>>)
    requires PositiveRoot(sqrt)
    ensures r.Failure? <==> exists i :: 0 <= i < |chunks| && |chunks[i].embedding| != |query|
    ensures r.Success? ==> |r.value| == |chunks| && forall i :: 0 <= i < |chunks| ==>
      r.value[i] == ScoredChunk(chunks[i].chunk, chunks[i].embedding, Cosine(query, chunks[i].embedding, sqrt).value)
    decreases |chunks|
  {
    if chunks == [] then Success([])
    else
      assert forall i :: 1 <= i < |chunks| ==> chunks[i] == chunks[1..][i - 1];
      assert forall i :: 0 <= i < |chunks[1..]| ==> chunks[1..][i] == chunks[i + 1];
      match Cosine(query, chunks[0].embedding, sqrt)
      case Failure(e) => Failure(e)
      case Success(similarity) =>
        match Scored(query, chunks[1..], sqrt)
        case Failure(e) => Failure(e)
        case Success(rest) => Success([ScoredChunk(chunks[0].chunk, chunks[0].embedding, similarity)] + rest)
  }

  /** `findSimilarChunks`: the chunks by non-increasing similarity (a stable sort), cut to
      `topK` (5 when not given). */
  function FindSimilarChunks(query: seq<real>, chunks: seq<EmbeddedChunk>, topK: Option<int>, sqrt: real -> real): Result<seq<ScoredChunk>>
    requires PositiveRoot(sqrt)
  {
    var k := if topK.Some? then topK.value else 5;
    match Scored(query, chunks, sqrt)
    case Failure(e) => Failure(e)
    case Success(scored) => Success(Take(SortDesc(scored, Similarity), k))
  }

  /** The result is the `topK` most similar chunks: at most `topK` and exactly that many when
      there are enough, in non-increasing similarity, taken from the input, and no chunk left
      out is more similar than one kept. It fails exactly when an embedding's length differs
      from the query's. */
  lemma FindSimilarTopK(query: seq<real>, chunks: seq<EmbeddedChunk>, topK: nat, sqrt: real -> real)
    requires PositiveRoot(sqrt)
    ensures FindSimilarChunks(query, chunks, Some(topK), sqrt).Failure? <==>
              exists i :: 0 <= i < |chunks| && |chunks[i].embedding| != |query|
    ensures FindSimilarChunks(query, chunks, Some(topK), sqrt).Success? ==>
      var r := FindSimilarChunks(query, chunks, Some(topK), sqrt).value;
      var scored := Scored(query, chunks, sqrt).value;
      |r| == (if topK < |chunks| then topK else |chunks|) &&
      SortedDesc(r, Similarity) &&
      multiset(r) <= multiset(scored) &&
      forall x, y :: x in multiset(scored) - multiset(r) && y in r ==> x.similarity <= y.similarity
  {
    var s := Scored(query, chunks, sqrt);
    if s.Success? {
      var scored := s.value;
      SortDescPerm(scored, Similarity);
      SortDescSorted(scored, Similarity);
      TakeTop(SortDesc(scored, Similarity), scored, Similarity, topK);
    }
  }
}
