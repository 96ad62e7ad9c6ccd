/** Question answering over stored chunks, apps/web/server/utils/rag.ts: the conversion
    between similarity threshold and vector distance, the context assembly of
    `generateRAGAnswer`, its confidence formula, and the early answer of `askQuestion`.
    The embedding call, the database and the language model are parameters. */
module Rag {
  import opened Wrappers
  import opened Collections
  import opened Strings

  datatype RetrievedChunk = RetrievedChunk(id: string, content: string, sourceId: string, sourceUrl: Option<string>, similarity: real)

  /** An entry of `usedSources`. */
  datatype Source = Source(chunkId: string, sourceId: string, url: Option<string>, relevance: real)

  /** `confidence` is `None` where the source computes NaN (an average over no sources). */
  datatype RagResponse = RagResponse(answer: string, sources: seq<Source>, confidence: Option<real>)

  const ErrorAnswer := "Sorry, I encountered an error while generating the answer."
  const NoInformationAnswer := "No relevant information found for this question."
  const DefaultMaxContextLength := 4000

  // ---------------------------------------------------------------------------
  // retrieveRelevantChunks: threshold and distance

  /** `options.similarityThreshold || 0.7`. */
  function EffectiveThreshold(similarityThreshold: Option<real>): (t: real)
    ensures similarityThreshold.Some? && similarityThreshold.value != 0.0 ==> t == similarityThreshold.value
    ensures similarityThreshold.None? || similarityThreshold.value == 0.0 ==> t == 0.7
  {
    if similarityThreshold.None? || similarityThreshold.value == 0.0 then 0.7 else similarityThreshold.value
  }

  /** The `match_threshold` sent to `search_chunks`: a cosine distance. */
  function MatchThreshold(similarityThreshold: Option<real>): real {
    1.0 - EffectiveThreshold(similarityThreshold)
  }

  /** A row returned by `search_chunks`. */
  datatype Row = Row(id: string, content: string, sourceId: string, sourceUrl: Option<string>, distance: real)

  /** The `map` over the rows: similarity is one minus the distance. */
  function ChunkOfRow(row: Row): (c: RetrievedChunk)
    ensures c.similarity + row.distance == 1.0
    ensures c.id == row.id && c.content == row.content && c.sourceId == row.sourceId && c.sourceUrl == row.sourceUrl
  {
    RetrievedChunk(row.id, row.content, row.sourceId, row.sourceUrl, 1.0 - row.distance)
  }

  /** The `WHERE (c.embedding <=> query_embedding) < match_threshold` filter. */
  function Matching(rows: seq<Row>, matchThreshold: real): (r: seq<Row>)
    ensures forall x :: x in r ==> x in rows && x.distance < matchThreshold
    ensures forall x :: x in rows && x.distance < matchThreshold ==> x in r
    decreases |rows|
  {
    if rows == [] then []
    else (if rows[0].distance < matchThreshold then [rows[0]] else []) + Matching(rows[1..], matchThreshold)
  }

  function DistanceKey(row: Row): real {
    -row.distance
  }

  function SimilarityKey(c: RetrievedChunk): real {
    c.similarity
  }

  function ChunksOfRows(rows: seq<Row>): (r: seq<RetrievedChunk>)
    ensures |r| == |rows| && forall i :: 0 <= i < |rows| ==> r[i] == ChunkOfRow(rows[i])
  {
    seq(|rows|, i requires 0 <= i < |rows| => ChunkOfRow(rows[i]))
  }

  /** What `retrieveRelevantChunks` returns, given the rows of the event's chunks
      (`eventRows`, `None` when the embedding call or the query fails). The query keeps the
      rows under the distance threshold, orders them by distance, and keeps the first
      `limit` (`options.limit || 5`); a negative limit is rejected by the database. */
  function Retrieved(eventRows: Option<seq<Row>>, limit: Option<int>, similarityThreshold: Option<real>): seq<RetrievedChunk> {
    if eventRows.None? || OrDefault(limit, 5) < 0 then []
    else ChunksOfRows(Take(SortDesc(Matching(eventRows.value, MatchThreshold(similarityThreshold)), DistanceKey), OrDefault(limit, 5)))
  }

  /** The retrieved chunks are the nearest rows first, at most `limit` of them (five by
      default), and each is more similar than the threshold (0.7 by default). */
  lemma RetrievedProperties(eventRows: Option<seq<Row>>, limit: Option<int>, similarityThreshold: Option<real>)
    ensures var r := Retrieved(eventRows, limit, similarityThreshold);
      |r| <= (if OrDefault(limit, 5) < 0 then 0 else OrDefault(limit, 5)) &&
      SortedDesc(r, SimilarityKey) &&
      (forall i :: 0 <= i < |r| ==> r[i].similarity > EffectiveThreshold(similarityThreshold)) &&
      (forall i :: 0 <= i < |r| ==> exists row :: row in eventRows.value && r[i] == ChunkOfRow(row))
  {
    var r := Retrieved(eventRows, limit, similarityThreshold);
    if eventRows.Some? && OrDefault(limit, 5) >= 0 {
      var matching := Matching(eventRows.value, MatchThreshold(similarityThreshold));
      var sorted := SortDesc(matching, DistanceKey);
      var top := Take(sorted, OrDefault(limit, 5));
      SortDescPerm(matching, DistanceKey);
      SortDescSorted(matching, DistanceKey);
      forall i | 0 <= i < |r| ensures r[i].similarity > EffectiveThreshold(similarityThreshold) &&
                                      exists row :: row in eventRows.value && r[i] == ChunkOfRow(row) {
        assert top[i] == sorted[i];
        assert sorted[i] in multiset(matching);
        assert top[i] in matching;
      }
      forall i, j | 0 <= i < j < |r| ensures SimilarityKey(r[i]) >= SimilarityKey(r[j]) {
        assert top[i] == sorted[i] && top[j] == sorted[j];
        assert DistanceKey(sorted[i]) >= DistanceKey(sorted[j]);
      }
    }
  }

  // ---------------------------------------------------------------------------
  // generateRAGAnswer: context assembly

  /** The header written before the `n`-th chunk, counting from one. */
  function Header(n: nat): string {
    "\n\n[Source " + NatToString(n) + "]:\n"
  }

  /** The context after appending every chunk of `cs`, each under its numbered header. */
  function ContextOf(cs: seq<RetrievedChunk>): string
    decreases |cs|
  {
    if cs == [] then "" else ContextOf(cs[..|cs| - 1]) + Header(|cs|) + cs[|cs| - 1].content
  }

  function SourceOf(c: RetrievedChunk): Source {
    Source(c.id, c.sourceId, c.sourceUrl, c.similarity)
  }

  /** The `usedSources` entries of the chunks `cs`. */
  function SourcesOf(cs: seq<RetrievedChunk>): (r: seq<Source>)
    ensures |r| == |cs| && forall i :: 0 <= i < |cs| ==> r[i] == Source(cs[i].id, cs[i].sourceId, cs[i].sourceUrl, cs[i].similarity)
  {
    seq(|cs|, i requires 0 <= i < |cs| => SourceOf(cs[i]))
  }

  /** The loop uses the first `k` chunks: each of them fitted when it was reached (the
      context so far plus its content within `maxLen`, headers not counted), and the next
      one, if any, did not. */
  predicate StopsAt(chunks: seq<RetrievedChunk>, maxLen: int, k: nat) {
    k <= |chunks| &&
    (forall j :: 0 <= j < k ==> |ContextOf(chunks[..j])| + |chunks[j].content| <= maxLen) &&
    (k < |chunks| ==> |ContextOf(chunks[..k])| + |chunks[k].content| > maxLen)
  }

  /** The number of chunks the loop uses, searching from `i`. */
  function UsedFrom(chunks: seq<RetrievedChunk>, maxLen: int, i: nat): (k: nat)
    requires i <= |chunks|
    ensures i <= k <= |chunks|
    decreases |chunks| - i
  {
    if i == |chunks| || |ContextOf(chunks[..i])| + |chunks[i].content| > maxLen then i
    else UsedFrom(chunks, maxLen, i + 1)
  }

  function UsedCount(chunks: seq<RetrievedChunk>, maxLen: int): nat {
    UsedFrom(chunks, maxLen, 0)
  }

  lemma {:induction false} UsedFromStops(chunks: seq<RetrievedChunk>, maxLen: int, i: nat)
    requires i <= |chunks| && FitsBefore(chunks, maxLen, i)
    ensures StopsAt(chunks, maxLen, UsedFrom(chunks, maxLen, i))
    decreases |chunks| - i
  {
    if i < |chunks| && |ContextOf(chunks[..i])| + |chunks[i].content| <= maxLen {
      FitsExtend(chunks, maxLen, i);
      UsedFromStops(chunks, maxLen, i + 1);
    } else {
      StopsHere(chunks, maxLen, i);
    }
  }

  /** The stopping point exists and is unique: it is `UsedCount`. */
  lemma StopsAtUsedCount(chunks: seq<RetrievedChunk>, maxLen: int, k: nat)
    ensures StopsAt(chunks, maxLen, UsedCount(chunks, maxLen))
    ensures StopsAt(chunks, maxLen, k) ==> k == UsedCount(chunks, maxLen)
  {
    UsedFromStops(chunks, maxLen, 0);
  }

  lemma ContextSnoc(chunks: seq<RetrievedChunk>, i: nat)
    requires i < |chunks|
    ensures ContextOf(chunks[..i + 1]) == ContextOf(chunks[..i]) + Header(i + 1) + chunks[i].content
  {
    assert chunks[..i + 1][..i] == chunks[..i];
  }

  lemma SourcesSnoc(chunks: seq<RetrievedChunk>, i: nat)
    requires i < |chunks|
    ensures SourcesOf(chunks[..i + 1]) == SourcesOf(chunks[..i]) + [SourceOf(chunks[i])]
  {
  }

  /** Every one of the first `i` chunks fitted when the loop reached it. */
  predicate FitsBefore(chunks: seq<RetrievedChunk>, maxLen: int, i: nat)
    requires i <= |chunks|
  {
    forall j :: 0 <= j < i ==> |ContextOf(chunks[..j])| + |chunks[j].content| <= maxLen
  }

  lemma FitsExtend(chunks: seq<RetrievedChunk>, maxLen: int, i: nat)
    requires i < |chunks| && FitsBefore(chunks, maxLen, i)
    requires |ContextOf(chunks[..i])| + |chunks[i].content| <= maxLen
    ensures FitsBefore(chunks, maxLen, i + 1)
  {
  }

  lemma StopsHere(chunks: seq<RetrievedChunk>, maxLen: int, i: nat)
    requires i <= |chunks| && FitsBefore(chunks, maxLen, i)
    requires i < |chunks| ==> |ContextOf(chunks[..i])| + |chunks[i].content| > maxLen
    ensures StopsAt(chunks, maxLen, i)
  {
  }

  /** The context-building loop, with the `break` on overflow. */
  method BuildContext(chunks: seq<RetrievedChunk>, maxLen: int) returns (context: string, usedSources: seq<Source>, ghost k: nat)
    ensures StopsAt(chunks, maxLen, k)
    ensures context == ContextOf(chunks[..k]) && usedSources == SourcesOf(chunks[..k])
  {
    context := "";
    usedSources := [];
    k := 0;
    var i := 0;
    while i < |chunks|
      invariant i <= |chunks| && k == i && |usedSources| == i
      invariant context == ContextOf(chunks[..i]) && usedSources == SourcesOf(chunks[..i])
      invariant FitsBefore(chunks, maxLen, i)
    {
      var chunk := chunks[i];
      if |context| + |chunk.content| > maxLen {
        StopsHere(chunks, maxLen, i);
        break;
      }
      ContextSnoc(chunks, i);
      SourcesSnoc(chunks, i);
      FitsExtend(chunks, maxLen, i);
      context := context + Header(|usedSources| + 1) + chunk.content;
      usedSources := usedSources + [SourceOf(chunk)];
      i := i + 1;
      k := i;
    }
    if i == |chunks| {
      StopsHere(chunks, maxLen, i);
    }
  }

  function SumContent(cs: seq<RetrievedChunk>): nat
    decreases |cs|
  {
    if cs == [] then 0 else SumContent(cs[..|cs| - 1]) + |cs[|cs| - 1].content|
  }

  lemma {:induction false} ContextLength(cs: seq<RetrievedChunk>)
    ensures |ContextOf(cs)| >= SumContent(cs) + 13 * |cs|
    decreases |cs|
  {
    if cs != [] {
      ContextLength(cs[..|cs| - 1]);
    }
  }

  /** The chunk contents used add up to at most `maxLen`, but the headers are not counted:
      the context overshoots the limit by at most the last header. */
  lemma ContextBounds(chunks: seq<RetrievedChunk>, maxLen: int, k: nat)
    requires StopsAt(chunks, maxLen, k)
    ensures k > 0 ==> SumContent(chunks[..k]) <= maxLen
    ensures k > 0 ==> |ContextOf(chunks[..k])| <= maxLen + |Header(k)|
  {
    if k > 0 {
      var prev := chunks[..k - 1];
      assert chunks[..k][..k - 1] == prev;
      ContextLength(prev);
      assert |ContextOf(prev)| + |chunks[k - 1].content| <= maxLen;
    }
  }

  /** One chunk whose content meets the limit exactly is used, and its header pushes the
      context past the limit. */
  lemma ContextMayExceedLimit(c: RetrievedChunk)
    ensures UsedCount([c], |c.content|) == 1
    ensures |ContextOf([c])| > |c.content|
  {
    var chunks := [c];
    assert chunks[..0] == [];
    assert StopsAt(chunks, |c.content|, 1) by {
      assert ContextOf(chunks[..0]) == "";
    }
    StopsAtUsedCount(chunks, |c.content|, 1);
    assert chunks[..1] == chunks;
    ContextLength(chunks);
  }

  /** Each chunk appears in the context under the header with its number, after all
      chunks before it: the context of the first `i` chunks is a prefix of the whole. */
  lemma {:induction false} ContextPrefix(cs: seq<RetrievedChunk>, i: nat)
    requires i <= |cs|
    ensures ContextOf(cs[..i]) <= ContextOf(cs)
    ensures i < |cs| ==> ContextOf(cs[..i]) + Header(i + 1) + cs[i].content <= ContextOf(cs)
    decreases |cs| - i
  {
    if i < |cs| {
      assert cs[..i + 1][..i] == cs[..i];
      ContextPrefix(cs, i + 1);
    } else {
      assert cs[..i] == cs;
    }
  }

  // ---------------------------------------------------------------------------
  // generateRAGAnswer: confidence

  function SumRelevance(sources: seq<Source>): real
    decreases |sources|
  {
    if sources == [] then 0.0 else SumRelevance(sources[..|sources| - 1]) + sources[|sources| - 1].relevance
  }

  /** `Math.min(avgRelevance * 1.2, 1.0)`; `None` for NaN, the average of no sources. */
  function Confidence(sources: seq<Source>): (r: Option<real>)
    ensures r.Some? <==> sources != []
    ensures r.Some? ==> r.value <= 1.0
    ensures r.Some? ==> r.value == 1.0 || r.value == 1.2 * (SumRelevance(sources) / |sources| as real)
  {
    if sources == [] then None
    else
      var avg := SumRelevance(sources) / |sources| as real;
      Some(if avg * 1.2 < 1.0 then avg * 1.2 else 1.0)
  }

  lemma {:induction false} SumRelevanceBounds(sources: seq<Source>, lo: real)
    requires forall i :: 0 <= i < |sources| ==> sources[i].relevance >= lo
    ensures SumRelevance(sources) >= lo * |sources| as real
    decreases |sources|
  {
    if sources != [] {
      SumRelevanceBounds(sources[..|sources| - 1], lo);
    }
  }

  /** With every relevance at least `lo`, the confidence is at least `min(1.2 lo, 1)`; in
      particular non-negative relevances give a confidence in [0, 1]. */
  lemma ConfidenceLowerBound(sources: seq<Source>, lo: real)
    requires sources != []
    requires forall i :: 0 <= i < |sources| ==> sources[i].relevance >= lo
    ensures Confidence(sources).value >= (if 1.2 * lo < 1.0 then 1.2 * lo else 1.0)
  {
    SumRelevanceBounds(sources, lo);
    var n := |sources| as real;
    assert SumRelevance(sources) / n >= lo by {
      assert SumRelevance(sources) >= lo * n;
    }
  }

  /** Sources all at relevance `v` give confidence `min(1.2 v, 1)`. */
  lemma ConfidenceUniform(sources: seq<Source>, v: real)
    requires sources != []
    requires forall i :: 0 <= i < |sources| ==> sources[i].relevance == v
    ensures Confidence(sources) == Some(if 1.2 * v < 1.0 then 1.2 * v else 1.0)
  {
    SumRelevanceUniform(sources, v);
    var n := |sources| as real;
    assert SumRelevance(sources) / n == v;
  }

  lemma {:induction false} SumRelevanceUniform(sources: seq<Source>, v: real)
    requires forall i :: 0 <= i < |sources| ==> sources[i].relevance == v
    ensures SumRelevance(sources) == v * |sources| as real
    decreases |sources|
  {
    if sources != [] {
      SumRelevanceUniform(sources[..|sources| - 1], v);
    }
  }

  // ---------------------------------------------------------------------------
  // generateRAGAnswer and askQuestion

  /** The answer for `chunks`, with `reply` the language model's answer (`None` when
      `chatCompletion` throws). */
  function Answer(chunks: seq<RetrievedChunk>, maxContextLength: Option<int>, reply: Option<string>): RagResponse {
    if reply.None? then RagResponse(ErrorAnswer, [], Some(0.0))
    else
      var used := SourcesOf(chunks[..UsedCount(chunks, OrDefault(maxContextLength, DefaultMaxContextLength))]);
      RagResponse(reply.value, used, Confidence(used))
  }

  method GenerateRagAnswer(question: string, chunks: seq<RetrievedChunk>, maxContextLength: Option<int>, reply: Option<string>)
    returns (response: RagResponse, ghost context: string)
    ensures response == Answer(chunks, maxContextLength, reply)
    ensures context == ContextOf(chunks[..UsedCount(chunks, OrDefault(maxContextLength, DefaultMaxContextLength))])
  {
    var maxLen := OrDefault(maxContextLength, DefaultMaxContextLength);
    var usedSources: seq<Source>;
    ghost var k: nat;
    context, usedSources, k := BuildContext(chunks, maxLen);
    StopsAtUsedCount(chunks, maxLen, k);
    if reply.None? {
      response := RagResponse(ErrorAnswer, [], Some(0.0));
    } else {
      response := RagResponse(reply.value, usedSources, Confidence(usedSources));
    }
  }

  /** The answer of `askQuestion` for the chunks `retrieveRelevantChunks` returned. */
  function Ask(chunks: seq<RetrievedChunk>, contextLength: Option<int>, reply: Option<string>): RagResponse {
    if chunks == [] then RagResponse(NoInformationAnswer, [], Some(0.0))
    else Answer(chunks, contextLength, reply)
  }

  method AskQuestion(question: string, chunks: seq<RetrievedChunk>, contextLength: Option<int>, reply: Option<string>)
    returns (response: RagResponse)
    ensures response == Ask(chunks, contextLength, reply)
  {
    if |chunks| == 0 {
      return RagResponse(NoInformationAnswer, [], Some(0.0));
    }
    ghost var context;
    response, context := GenerateRagAnswer(question, chunks, contextLength, reply);
  }

  /** With no chunks, and on the error path, the answer is a fixed text with no sources and
      confidence 0. Otherwise the sources are those of a prefix of the chunks, in order,
      numbered from 1, and the confidence is NaN exactly when none fitted. */
  lemma AskProperties(chunks: seq<RetrievedChunk>, contextLength: Option<int>, reply: Option<string>)
    ensures var r := Ask(chunks, contextLength, reply);
      (chunks == [] ==> r == RagResponse(NoInformationAnswer, [], Some(0.0))) &&
      (chunks != [] && reply.None? ==> r == RagResponse(ErrorAnswer, [], Some(0.0))) &&
      (chunks != [] && reply.Some? ==>
        r.answer == reply.value &&
        |r.sources| <= |chunks| &&
        (forall i :: 0 <= i < |r.sources| ==> r.sources[i] == SourceOf(chunks[i])) &&
        (r.confidence.None? <==> r.sources == []) &&
        (r.confidence.Some? ==> r.confidence.value <= 1.0))
  {
  }

  /** The first chunk is always used when it fits the limit on its own (4000 characters
      by default), so the confidence is then a number. */
  lemma FirstChunkFits(chunks: seq<RetrievedChunk>, contextLength: Option<int>, reply: Option<string>)
    requires chunks != [] && reply.Some?
    requires |chunks[0].content| <= OrDefault(contextLength, DefaultMaxContextLength)
    ensures Ask(chunks, contextLength, reply).sources != []
    ensures Ask(chunks, contextLength, reply).confidence.Some?
  {
    var maxLen := OrDefault(contextLength, DefaultMaxContextLength);
    assert chunks[..0] == [];
    UsedFromStops(chunks, maxLen, 0);
    assert UsedCount(chunks, maxLen) >= 1;
  }
}
