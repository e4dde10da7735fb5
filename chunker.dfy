/** The text side of `rag_agent/app/ingestion/document_loader.py`:
    whitespace normalisation, the period-splitting sentence fallback,
    the greedy token-budget chunker and the chunk id. */
module Chunker {
  import opened Common
  import opened Text

  // ---------- normalize_text ----------

  /** The lines kept by `normalize_text`: every line stripped, blank ones dropped. */
  function NormalizedLines(text: string): seq<string>
  {
    NonEmpty(StripEach(Split(text, LineBreaks)))
  }

  /** `normalize_text`: the kept lines joined by `"\n"`. */
  function Normalize(text: string): string
  {
    Join("\n", NormalizedLines(text))
  }

  lemma {:induction false} StripEachKeepsFree(xs: seq<string>, chars: set<char>)
    requires forall k :: 0 <= k < |xs| ==> Free(xs[k], chars)
    ensures forall k :: 0 <= k < |StripEach(xs)| ==> Free(StripEach(xs)[k], chars)
  {
    forall k | 0 <= k < |xs| ensures Free(StripEach(xs)[k], chars) {
      StripKeepsFree(xs[k], chars);
    }
  }

  /** Every piece is non-empty, stripped and free of the separators. */
  predicate AllClean(xs: seq<string>, seps: set<char>) {
    forall k :: 0 <= k < |xs| ==> xs[k] != [] && IsStripped(xs[k]) && Free(xs[k], seps)
  }

  /** Pieces of `text` split on `seps`, each stripped, blank ones dropped, are
      non-empty, stripped and free of separators. */
  lemma {:induction false} CleanPieces(text: string, seps: set<char>)
    ensures AllClean(NonEmpty(StripEach(Split(text, seps))), seps)
  {
    var pieces := Split(text, seps);
    var stripped := StripEach(pieces);
    assert forall k :: 0 <= k < |stripped| ==> IsStripped(stripped[k]) && Free(stripped[k], seps) by {
      SplitPiecesFree(text, seps);
      StripEachKeepsFree(pieces, seps);
    }
    NonEmptyKeepsClean(stripped, seps);
  }

  lemma {:induction false} NonEmptyKeepsClean(xs: seq<string>, seps: set<char>)
    requires forall k :: 0 <= k < |xs| ==> IsStripped(xs[k]) && Free(xs[k], seps)
    ensures AllClean(NonEmpty(xs), seps)
  {
    if xs != [] {
      NonEmptyKeepsClean(xs[1..], seps);
      var head := if xs[0] == [] then [] else [xs[0]];
      var r := NonEmpty(xs);
      assert r == head + NonEmpty(xs[1..]);
      forall k | 0 <= k < |r| ensures r[k] != [] && IsStripped(r[k]) && Free(r[k], seps) {
        if k < |head| {
          assert r[k] == xs[0];
        } else {
          assert r[k] == NonEmpty(xs[1..])[k - |head|];
        }
      }
    }
  }

  /** Every line of the normalised text is non-empty, stripped and contains no
      line break, and splitting the normalised text at line breaks gives
      exactly those lines back. */
  lemma {:induction false} NormalizedLinesClean(text: string)
    ensures var lines := NormalizedLines(text);
      && AllClean(lines, LineBreaks)
      && (lines == [] <==> Normalize(text) == [])
      && (lines != [] ==> Split(Normalize(text), LineBreaks) == lines)
  {
    var lines := NormalizedLines(text);
    CleanPieces(text, LineBreaks);
    assert lines == NonEmpty(StripEach(Split(text, LineBreaks)));
    if lines != [] {
      SplitJoin(lines, '\n', LineBreaks);
      assert Normalize(text) != [] by {
        if |lines| > 1 {
          assert Normalize(text) == lines[0] + "\n" + Join("\n", lines[1..]);
        }
      }
    }
  }

  /** `normalize_text` is idempotent. */
  lemma {:induction false} NormalizeIdempotent(text: string)
    ensures Normalize(Normalize(text)) == Normalize(text)
  {
    var lines := NormalizedLines(text);
    NormalizedLinesClean(text);
    if lines == [] {
      assert Split([], LineBreaks) == [[]];
      assert StripEach([[]]) == [[]];
    } else {
      var again := StripEach(lines);
      forall k | 0 <= k < |lines| ensures again[k] == lines[k] {
        StripStripped(lines[k]);
      }
      assert again == lines;
      NonEmptyKeepsAll(lines);
    }
  }

  // ---------- safe_sent_tokenize ----------

  const Period: set<char> := {'.'}

  /** The fallback of `safe_sent_tokenize`: the `.`-separated pieces,
      stripped, empty ones dropped. */
  function FallbackSentences(text: string): seq<string>
  {
    NonEmpty(StripEach(Split(text, Period)))
  }

  /** No fallback sentence is empty; each is stripped and holds no period. */
  lemma {:induction false} FallbackSentencesClean(text: string)
    ensures AllClean(FallbackSentences(text), Period)
  {
    CleanPieces(text, Period);
    assert FallbackSentences(text) == NonEmpty(StripEach(Split(text, Period)));
  }

  /** Writing clean sentences back as `". "`-separated text and running the
      fallback again recovers them. */
  lemma {:induction false} FallbackOfJoined(sentences: seq<string>)
    requires AllClean(sentences, Period)
    ensures FallbackSentences(Join(". ", sentences)) == sentences
  {
    if sentences == [] {
      assert Split([], Period) == [[]];
      assert StripEach([[]]) == [[]];
    } else if |sentences| == 1 {
      SplitFree(sentences[0], Period);
      StripStripped(sentences[0]);
      assert StripEach([sentences[0]]) == [sentences[0]];
    } else {
      var s0, rest := sentences[0], Join(". ", sentences[1..]);
      var tail := StripEach(Split(" " + rest, Period));
      assert StripEach(Split(Join(". ", sentences), Period)) == [s0] + tail by {
        assert Join(". ", sentences) == s0 + ['.'] + (" " + rest);
        SplitAt(s0, '.', " " + rest, Period);
        SplitFree(s0, Period);
        StripStripped(s0);
        assert StripEach([s0] + Split(" " + rest, Period)) == [s0] + tail;
      }
      assert NonEmpty([s0] + tail) == [s0] + NonEmpty(tail) by {
        NonEmptyAppend([s0], tail);
      }
      assert NonEmpty(tail) == sentences[1..] by {
        StripAfterSpaceEach(rest, Period);
        FallbackOfJoined(sentences[1..]);
      }
    }
  }

  /** A leading space in front of the text only changes the first piece,
      and stripping removes it again. */
  lemma {:induction false} StripAfterSpaceEach(rest: string, seps: set<char>)
    requires ' ' !in seps
    ensures StripEach(Split(" " + rest, seps)) == StripEach(Split(rest, seps))
  {
    var tail := Split(rest, seps);
    assert (" " + rest)[1..] == rest;
    var spaced := Split(" " + rest, seps);
    assert spaced == [" " + tail[0]] + tail[1..] by {
      assert (" " + rest)[0] !in seps;
    }
    StripAfterSpace(tail[0]);
    assert spaced[1..] == tail[1..];
  }

  /** `safe_sent_tokenize`: the NLTK tokenizer's answer, or the fallback when
      the tokenizer reports its model missing (`None`). */
  function SafeSentTokenize(text: string, tokenize: string -> Option<seq<string>>): (r: seq<string>)
    ensures tokenize(text).None? ==> AllClean(r, Period)
  {
    match tokenize(text)
    case Some(sentences) => sentences
    case None => FallbackSentencesClean(text); FallbackSentences(text)
  }

  // ---------- chunk_text ----------

  const ChunkSizeTokens := 400
  const OverlapTokens := 80

  /** The loop state of `chunk_text`: the closed chunks, the sentence buffer
      and the running token count. */
  datatype ChunkState = ChunkState(chunks: seq<string>, current: seq<string>, currentLen: int)

  const Start := ChunkState([], [], 0)

  /** The running count agrees with the whitespace tokens of the buffer. */
  predicate Coherent(st: ChunkState) {
    st.currentLen == |Words(Join(" ", st.current))|
  }

  /** Python's `tokens[-k:]` for `k > 0`: the last `min(k, |tokens|)` tokens. */
  function LastTokens(tokens: seq<string>, k: int): (r: seq<string>)
    requires k > 0
    ensures |r| == if k < |tokens| then k else |tokens|
    ensures r == tokens[|tokens| - |r|..]
  {
    if k >= |tokens| then tokens else tokens[|tokens| - k..]
  }

  /** Close the buffer as a chunk and re-seed it with the overlap. */
  function Close(st: ChunkState, overlap: int): ChunkState
  {
    var closed := Join(" ", st.current);
    if overlap > 0 then
      var kept := LastTokens(Words(closed), overlap);
      ChunkState(st.chunks + [closed], [Join(" ", kept)], |kept|)
    else
      ChunkState(st.chunks + [closed], [], 0)
  }

  predicate Overflows(st: ChunkState, sentence: string, size: int) {
    st.currentLen + |Words(sentence)| > size && st.current != []
  }

  /** One iteration of the loop over sentences. */
  function Step(st: ChunkState, sentence: string, size: int, overlap: int): ChunkState
  {
    var before := if Overflows(st, sentence, size) then Close(st, overlap) else st;
    ChunkState(before.chunks, before.current + [sentence], before.currentLen + |Words(sentence)|)
  }

  function Feed(st: ChunkState, sentences: seq<string>, size: int, overlap: int): ChunkState
    decreases |sentences|
  {
    if sentences == [] then st
    else Feed(Step(st, sentences[0], size, overlap), sentences[1..], size, overlap)
  }

  /** The final flush of a non-empty buffer. */
  function Flush(st: ChunkState): seq<string>
  {
    if st.current != [] then st.chunks + [Join(" ", st.current)] else st.chunks
  }

  /** What `chunk_text` returns for a list of sentences. */
  function Chunks(sentences: seq<string>, size: int, overlap: int): seq<string>
  {
    Flush(Feed(Start, sentences, size, overlap))
  }

  /** `chunk_text(text, chunk_size_tokens, overlap_tokens)`. */
  method ChunkText(text: string, tokenize: string -> Option<seq<string>>, chunkSizeTokens: int, overlapTokens: int)
    returns (chunks: seq<string>)
    ensures chunks == Chunks(SafeSentTokenize(text, tokenize), chunkSizeTokens, overlapTokens)
  {
    var sentences := SafeSentTokenize(text, tokenize);
    chunks := [];
    var current: seq<string> := [];
    var currentLen := 0;
    for i := 0 to |sentences|
      invariant Feed(ChunkState(chunks, current, currentLen), sentences[i..], chunkSizeTokens, overlapTokens)
             == Feed(Start, sentences, chunkSizeTokens, overlapTokens)
      invariant currentLen == |Words(Join(" ", current))|
    {
      var sentence := sentences[i];
      ghost var st := ChunkState(chunks, current, currentLen);
      StepCoherent(st, sentence, chunkSizeTokens, overlapTokens);
      var sentenceLen := |Words(sentence)|;
      if currentLen + sentenceLen > chunkSizeTokens && current != [] {
        chunks := chunks + [Join(" ", current)];
        if overlapTokens > 0 {
          var overlapList := LastTokens(Words(Join(" ", current)), overlapTokens);
          current := [Join(" ", overlapList)];
          currentLen := |overlapList|;
        } else {
          current := [];
          currentLen := 0;
        }
      }
      current := current + [sentence];
      currentLen := currentLen + sentenceLen;
      assert ChunkState(chunks, current, currentLen) == Step(st, sentence, chunkSizeTokens, overlapTokens);
      assert Feed(st, sentences[i..], chunkSizeTokens, overlapTokens)
          == Feed(Step(st, sentence, chunkSizeTokens, overlapTokens), sentences[i + 1..], chunkSizeTokens, overlapTokens) by {
        assert sentences[i..][0] == sentence && sentences[i..][1..] == sentences[i + 1..];
      }
    }
    if current != [] {
      chunks := chunks + [Join(" ", current)];
    }
  }

  // ---------- properties of chunk_text ----------

  lemma {:induction false} WordsOfEmpty()
    ensures Words([]) == []
  {
    assert Split([], Whitespace) == [[]];
  }

  /** The re-seeded buffer holds exactly one element, whose tokens are the
      last `min(overlap, n)` tokens of the closed chunk, and the count is set
      to that number. */
  lemma {:induction false} OverlapSeed(st: ChunkState, overlap: int)
    requires overlap > 0
    ensures var closed := Join(" ", st.current);
      var ws := Words(closed);
      var m := if overlap < |ws| then overlap else |ws|;
      var next := Close(st, overlap);
      && next.chunks == st.chunks + [closed]
      && |next.current| == 1
      && Words(next.current[0]) == ws[|ws| - m..]
      && next.currentLen == m
  {
    var ws := Words(Join(" ", st.current));
    var kept := LastTokens(ws, overlap);
    WordsOfJoinedTokens(kept);
  }

  /** Every step keeps the running count equal to the buffer's token count. */
  lemma {:induction false} StepCoherent(st: ChunkState, sentence: string, size: int, overlap: int)
    requires Coherent(st)
    ensures Coherent(Step(st, sentence, size, overlap))
  {
    var before := if Overflows(st, sentence, size) then Close(st, overlap) else st;
    if Overflows(st, sentence, size) {
      if overlap > 0 {
        OverlapSeed(st, overlap);
      } else {
        WordsOfEmpty();
      }
    }
    assert Coherent(before);
    WordsOfJoinAppend(before.current, sentence);
  }

  /** `current_len` equals the token count of `" ".join(current_chunk)` in
      every state the loop reaches. */
  lemma {:induction false} FeedCoherent(st: ChunkState, sentences: seq<string>, size: int, overlap: int)
    requires Coherent(st)
    ensures Coherent(Feed(st, sentences, size, overlap))
    decreases |sentences|
  {
    if sentences != [] {
      StepCoherent(st, sentences[0], size, overlap);
      FeedCoherent(Step(st, sentences[0], size, overlap), sentences[1..], size, overlap);
    }
  }

  lemma {:induction false} FeedSplit(st: ChunkState, a: seq<string>, b: seq<string>, size: int, overlap: int)
    ensures Feed(st, a + b, size, overlap) == Feed(Feed(st, a, size, overlap), b, size, overlap)
    decreases |a|
  {
    if a == [] {
      assert a + b == b;
    } else {
      FeedSplit(Step(st, a[0], size, overlap), a[1..], b, size, overlap);
      assert (a + b)[0] == a[0] && (a + b)[1..] == a[1..] + b;
    }
  }

  /** Chunks, once closed, are never changed or removed. */
  lemma {:induction false} FeedKeepsChunks(st: ChunkState, sentences: seq<string>, size: int, overlap: int)
    ensures var out := Flush(Feed(st, sentences, size, overlap));
      |st.chunks| <= |out| && out[..|st.chunks|] == st.chunks
    decreases |sentences|
  {
    if sentences != [] {
      var next := Step(st, sentences[0], size, overlap);
      FeedKeepsChunks(next, sentences[1..], size, overlap);
      var out := Flush(Feed(next, sentences[1..], size, overlap));
      assert out[..|next.chunks|][..|st.chunks|] == out[..|st.chunks|];
    }
  }

  /** Generalised count bound: each sentence closes at most one chunk, and only
      when the buffer already holds something. */
  lemma {:induction false} FeedCount(st: ChunkState, sentences: seq<string>, size: int, overlap: int)
    ensures var fed := Feed(st, sentences, size, overlap);
      && |Flush(fed)| <= |st.chunks| + (if st.current != [] then 1 else 0) + |sentences|
      && (sentences != [] ==> fed.current != [])
      && (sentences == [] ==> fed == st)
    decreases |sentences|
  {
    if sentences != [] {
      FeedCount(Step(st, sentences[0], size, overlap), sentences[1..], size, overlap);
    }
  }

  /** There are never more chunks than sentences; no sentences give no chunks,
      and at least one sentence gives at least one chunk. */
  lemma {:induction false} ChunkCount(sentences: seq<string>, size: int, overlap: int)
    ensures |Chunks(sentences, size, overlap)| <= |sentences|
    ensures sentences == [] <==> Chunks(sentences, size, overlap) == []
  {
    FeedCount(Start, sentences, size, overlap);
  }

  /** Flushing adds the buffer's text after the closed chunks. */
  lemma {:induction false} FlushJoin(st: ChunkState)
    ensures Join(" ", Flush(st)) == Join(" ", st.chunks + st.current)
  {
    if st.current != [] {
      JoinFlatten(" ", st.chunks, st.current, []);
      assert st.chunks + [Join(" ", st.current)] + [] == Flush(st);
      assert st.chunks + st.current + [] == st.chunks + st.current;
    } else {
      assert st.chunks + st.current == st.chunks;
    }
  }

  /** Without overlap, one step moves a sentence into the buffer and may close
      the buffer, which leaves the joined text unchanged. */
  lemma {:induction false} StepKeepsText(st: ChunkState, s0: string, rest: seq<string>, size: int, overlap: int)
    requires overlap <= 0
    ensures var next := Step(st, s0, size, overlap);
      Join(" ", next.chunks + next.current + rest) == Join(" ", st.chunks + st.current + ([s0] + rest))
  {
    var next := Step(st, s0, size, overlap);
    if Overflows(st, s0, size) {
      assert next.chunks + next.current == st.chunks + [Join(" ", st.current)] + [s0];
      JoinFlatten(" ", st.chunks, st.current, [s0] + rest);
      assert st.chunks + [Join(" ", st.current)] + [s0] + rest
          == st.chunks + [Join(" ", st.current)] + ([s0] + rest);
    } else {
      assert next.chunks + next.current + rest == st.chunks + st.current + ([s0] + rest);
    }
  }

  /** Without overlap the chunks are consecutive groups of sentences: joined
      by spaces they give the sentences joined by spaces (generalised form). */
  lemma {:induction false} FeedReconstructs(st: ChunkState, sentences: seq<string>, size: int, overlap: int)
    requires overlap <= 0
    ensures Join(" ", Flush(Feed(st, sentences, size, overlap))) == Join(" ", st.chunks + st.current + sentences)
    decreases |sentences|
  {
    if sentences == [] {
      assert Feed(st, sentences, size, overlap) == st;
      assert st.chunks + st.current + sentences == st.chunks + st.current;
      FlushJoin(st);
    } else {
      var s0 := sentences[0];
      FeedReconstructs(Step(st, s0, size, overlap), sentences[1..], size, overlap);
      StepKeepsText(st, s0, sentences[1..], size, overlap);
      assert [s0] + sentences[1..] == sentences;
    }
  }

  /** With `overlap_tokens <= 0` every sentence lands in exactly one chunk, in
      order: `" ".join(chunks) == " ".join(sentences)`. */
  lemma {:induction false} Reconstruction(sentences: seq<string>, size: int, overlap: int)
    requires overlap <= 0
    ensures Join(" ", Chunks(sentences, size, overlap)) == Join(" ", sentences)
  {
    FeedReconstructs(Start, sentences, size, overlap);
    assert Start.chunks + Start.current + sentences == sentences;
  }

  /** With `overlap_tokens > 0`: the seed a closed chunk leaves in the buffer,
      `" ".join(tokens[-overlap_tokens:])` over the chunk's tokens. */
  function Seed(chunk: string, overlap: int): string
    requires overlap > 0
  {
    Join(" ", LastTokens(Words(chunk), overlap))
  }

  /** `chunk` begins with the seed of `prev` followed by one space. */
  predicate SeededBy(prev: string, chunk: string, overlap: int)
    requires overlap > 0
  {
    |Seed(prev, overlap)| + 1 <= |chunk| && chunk[..|Seed(prev, overlap)| + 1] == Seed(prev, overlap) + " "
  }

  /** Every chunk after the first begins with its predecessor's seed. */
  predicate SeedChain(chunks: seq<string>, overlap: int)
    requires overlap > 0
    decreases |chunks|
  {
    |chunks| <= 1 ||
    (SeedChain(chunks[..|chunks| - 1], overlap) && SeededBy(chunks[|chunks| - 2], chunks[|chunks| - 1], overlap))
  }

  /** `chunk` with the seed of `prev` and its space cut away. */
  function Unseeded(prev: string, chunk: string, overlap: int): string
    requires overlap > 0
  {
    if |Seed(prev, overlap)| + 1 <= |chunk| then chunk[|Seed(prev, overlap)| + 1..] else chunk
  }

  /** The first chunk as it is, every later chunk without its seed. */
  function Trimmed(chunks: seq<string>, overlap: int): (r: seq<string>)
    requires overlap > 0
    ensures |r| == |chunks|
    decreases |chunks|
  {
    if |chunks| <= 1 then chunks
    else Trimmed(chunks[..|chunks| - 1], overlap) + [Unseeded(chunks[|chunks| - 2], chunks[|chunks| - 1], overlap)]
  }

  /** The sentences of the buffer that are not the seed. */
  function OwnSentences(st: ChunkState): seq<string> {
    if st.chunks == [] || st.current == [] then st.current else st.current[1..]
  }

  /** Once a chunk is closed, the buffer is the last chunk's seed followed by
      at least one sentence. */
  predicate BufferSeeded(st: ChunkState, overlap: int)
    requires overlap > 0
  {
    st.chunks != [] ==> |st.current| >= 2 && st.current[0] == Seed(st.chunks[|st.chunks| - 1], overlap)
  }

  /** A loop state under overlap: the closed chunks form a seed chain and the
      buffer is seeded. */
  predicate SeededState(st: ChunkState, overlap: int)
    requires overlap > 0
  {
    SeedChain(st.chunks, overlap) && BufferSeeded(st, overlap)
  }

  lemma {:induction false} TrimmedSnoc(chunks: seq<string>, x: string, overlap: int)
    requires overlap > 0
    ensures Trimmed(chunks + [x], overlap)
         == Trimmed(chunks, overlap) + [if chunks == [] then x else Unseeded(chunks[|chunks| - 1], x, overlap)]
  {
    var cs := chunks + [x];
    assert cs[..|cs| - 1] == chunks;
    if chunks != [] {
      assert cs[|cs| - 2] == chunks[|chunks| - 1];
    }
  }

  /** Closing a seeded buffer appends a chunk whose unseeded text is the join
      of the buffer's own sentences. */
  lemma {:induction false} CloseTrimmed(st: ChunkState, overlap: int)
    requires overlap > 0 && BufferSeeded(st, overlap) && st.current != []
    ensures OwnSentences(st) != []
    ensures Trimmed(st.chunks + [Join(" ", st.current)], overlap)
         == Trimmed(st.chunks, overlap) + [Join(" ", OwnSentences(st))]
  {
    var closed := Join(" ", st.current);
    TrimmedSnoc(st.chunks, closed, overlap);
    if st.chunks != [] {
      var seed := Seed(st.chunks[|st.chunks| - 1], overlap);
      assert closed == seed + " " + Join(" ", st.current[1..]);
      assert closed[|seed| + 1..] == Join(" ", st.current[1..]);
    }
  }

  /** A chunk seeded by the last one extends a seed chain. */
  lemma {:induction false} SeedChainSnoc(chunks: seq<string>, x: string, overlap: int)
    requires overlap > 0 && SeedChain(chunks, overlap)
    requires chunks != [] ==> SeededBy(chunks[|chunks| - 1], x, overlap)
    ensures SeedChain(chunks + [x], overlap)
  {
    var cs := chunks + [x];
    assert cs[..|cs| - 1] == chunks;
    if chunks != [] {
      assert cs[|cs| - 2] == chunks[|chunks| - 1];
    }
  }

  /** In a seed chain, each chunk after the first begins with the seed of the
      one before it. */
  lemma {:induction false} SeedChainAt(chunks: seq<string>, k: int, overlap: int)
    requires overlap > 0 && SeedChain(chunks, overlap) && 1 <= k < |chunks|
    ensures SeededBy(chunks[k - 1], chunks[k], overlap)
    decreases |chunks|
  {
    if k < |chunks| - 1 {
      var init := chunks[..|chunks| - 1];
      SeedChainAt(init, k, overlap);
      assert init[k - 1] == chunks[k - 1] && init[k] == chunks[k];
    }
  }

  /** A text that begins with a seed and a space is seeded by it. */
  lemma {:induction false} SeedPrefix(seed: string, tail: string)
    ensures (seed + " " + tail)[..|seed| + 1] == seed + " "
    ensures (seed + " " + tail)[|seed| + 1..] == tail
  {
  }

  /** Closing a seeded buffer keeps the seed chain. */
  lemma {:induction false} CloseChain(st: ChunkState, overlap: int)
    requires overlap > 0 && SeededState(st, overlap) && st.current != []
    ensures SeedChain(st.chunks + [Join(" ", st.current)], overlap)
  {
    var closed := Join(" ", st.current);
    if st.chunks != [] {
      var prev := st.chunks[|st.chunks| - 1];
      var seed := Seed(prev, overlap);
      assert closed == seed + " " + Join(" ", st.current[1..]);
      SeedPrefix(seed, Join(" ", st.current[1..]));
    }
    SeedChainSnoc(st.chunks, closed, overlap);
  }

  /** Under overlap a step either appends the sentence to the buffer or
      closes the buffer and leaves the new chunk's seed and the sentence. */
  lemma {:induction false} StepShape(st: ChunkState, s0: string, size: int, overlap: int)
    requires overlap > 0
    ensures var next := Step(st, s0, size, overlap);
      if Overflows(st, s0, size)
      then next.chunks == st.chunks + [Join(" ", st.current)]
        && next.current == [Seed(Join(" ", st.current), overlap), s0]
      else next.chunks == st.chunks && next.current == st.current + [s0]
  {
  }

  /** One step under overlap keeps the state seeded. */
  lemma {:induction false} StepSeeded(st: ChunkState, s0: string, size: int, overlap: int)
    requires overlap > 0 && SeededState(st, overlap)
    ensures SeededState(Step(st, s0, size, overlap), overlap)
  {
    var next := Step(st, s0, size, overlap);
    if Overflows(st, s0, size) {
      var closed := Join(" ", st.current);
      assert next.chunks == st.chunks + [closed] && next.current == [Seed(closed, overlap), s0] by {
        StepShape(st, s0, size, overlap);
      }
      assert SeedChain(next.chunks, overlap) by {
        CloseChain(st, overlap);
      }
      assert BufferSeeded(next, overlap) by {
        assert next.chunks[|next.chunks| - 1] == closed;
      }
    } else {
      assert next.chunks == st.chunks && next.current == st.current + [s0] by {
        StepShape(st, s0, size, overlap);
      }
      assert BufferSeeded(next, overlap) by {
        if st.chunks != [] {
          assert next.current[0] == st.current[0];
        }
      }
    }
  }

  /** Under overlap, appending a sentence to the buffer adds it to the
      buffer's own sentences. */
  lemma {:induction false} AppendText(st: ChunkState, next: ChunkState, s0: string, rest: seq<string>, overlap: int)
    requires overlap > 0 && (st.chunks != [] ==> st.current != [])
    requires next.chunks == st.chunks && next.current == st.current + [s0]
    ensures Join(" ", Trimmed(next.chunks, overlap) + OwnSentences(next) + rest)
         == Join(" ", Trimmed(st.chunks, overlap) + OwnSentences(st) + ([s0] + rest))
  {
    var t := Trimmed(st.chunks, overlap);
    assert OwnSentences(next) == OwnSentences(st) + [s0];
    assert t + OwnSentences(next) + rest == t + OwnSentences(st) + ([s0] + rest);
  }

  /** Under overlap, closing the buffer and re-seeding it before the sentence
      moves the buffer's own sentences, joined, into the unseeded chunks. */
  lemma {:induction false} CloseText(st: ChunkState, next: ChunkState, seed: string, s0: string, rest: seq<string>, overlap: int)
    requires overlap > 0 && BufferSeeded(st, overlap) && st.current != []
    requires next.chunks == st.chunks + [Join(" ", st.current)] && next.current == [seed, s0]
    ensures Join(" ", Trimmed(next.chunks, overlap) + OwnSentences(next) + rest)
         == Join(" ", Trimmed(st.chunks, overlap) + OwnSentences(st) + ([s0] + rest))
  {
    var t := Trimmed(st.chunks, overlap);
    var own := OwnSentences(st);
    CloseTrimmed(st, overlap);
    assert OwnSentences(next) == [s0];
    assert Trimmed(next.chunks, overlap) + OwnSentences(next) + rest == t + [Join(" ", own)] + ([s0] + rest);
    JoinFlatten(" ", t, own, [s0] + rest);
  }

  /** Under overlap a step either adds the sentence to the buffer's own
      sentences or moves those, joined, into the unseeded chunks. */
  lemma {:induction false} StepSeededText(st: ChunkState, s0: string, rest: seq<string>, size: int, overlap: int)
    requires overlap > 0 && BufferSeeded(st, overlap)
    ensures var next := Step(st, s0, size, overlap);
      Join(" ", Trimmed(next.chunks, overlap) + OwnSentences(next) + rest)
      == Join(" ", Trimmed(st.chunks, overlap) + OwnSentences(st) + ([s0] + rest))
  {
    var next := Step(st, s0, size, overlap);
    StepShape(st, s0, size, overlap);
    if Overflows(st, s0, size) {
      CloseText(st, next, Seed(Join(" ", st.current), overlap), s0, rest, overlap);
    } else {
      AppendText(st, next, s0, rest, overlap);
    }
  }

  /** Under overlap the final flush keeps the seed chain. */
  lemma {:induction false} FlushChain(st: ChunkState, overlap: int)
    requires overlap > 0 && SeededState(st, overlap)
    ensures SeedChain(Flush(st), overlap)
  {
    if st.current != [] {
      CloseChain(st, overlap);
    }
  }

  /** Under overlap the final flush adds the buffer's own sentences, joined,
      to the unseeded chunks. */
  lemma {:induction false} FlushTrimmed(st: ChunkState, overlap: int)
    requires overlap > 0 && BufferSeeded(st, overlap)
    ensures Join(" ", Trimmed(Flush(st), overlap)) == Join(" ", Trimmed(st.chunks, overlap) + OwnSentences(st))
  {
    var t := Trimmed(st.chunks, overlap);
    if st.current != [] {
      var own := OwnSentences(st);
      assert Trimmed(Flush(st), overlap) == t + [Join(" ", own)] + [] by {
        CloseTrimmed(st, overlap);
      }
      JoinFlatten(" ", t, own, []);
      assert t + own + [] == t + own;
    } else {
      assert st.chunks == [];
      assert Flush(st) == [];
    }
  }

  /** Under overlap the rest of the loop keeps the seed chain. */
  lemma {:induction false} FeedChain(st: ChunkState, sentences: seq<string>, size: int, overlap: int)
    requires overlap > 0 && SeededState(st, overlap)
    ensures SeedChain(Flush(Feed(st, sentences, size, overlap)), overlap)
    decreases |sentences|
  {
    if sentences == [] {
      assert Feed(st, sentences, size, overlap) == st;
      FlushChain(st, overlap);
    } else {
      var next := Step(st, sentences[0], size, overlap);
      assert Feed(st, sentences, size, overlap) == Feed(next, sentences[1..], size, overlap);
      StepSeeded(st, sentences[0], size, overlap);
      FeedChain(next, sentences[1..], size, overlap);
    }
  }

  /** The unseeded text of the chunks a loop state leads to. */
  function TrimmedText(st: ChunkState, sentences: seq<string>, size: int, overlap: int): string
    requires overlap > 0
  {
    Join(" ", Trimmed(Flush(Feed(st, sentences, size, overlap)), overlap))
  }

  /** The closed chunks' own text, the buffer's own sentences and the
      sentences still to come, joined by spaces. */
  function PendingText(st: ChunkState, sentences: seq<string>, overlap: int): string
    requires overlap > 0
  {
    Join(" ", Trimmed(st.chunks, overlap) + OwnSentences(st) + sentences)
  }

  /** The last step of the loop is the flush. */
  lemma {:induction false} FeedTrimmedNil(st: ChunkState, size: int, overlap: int)
    requires overlap > 0 && BufferSeeded(st, overlap)
    ensures TrimmedText(st, [], size, overlap) == PendingText(st, [], overlap)
  {
    assert Flush(Feed(st, [], size, overlap)) == Flush(st) by {
      assert Feed(st, [], size, overlap) == st;
    }
    assert Trimmed(st.chunks, overlap) + OwnSentences(st) + [] == Trimmed(st.chunks, overlap) + OwnSentences(st);
    FlushTrimmed(st, overlap);
  }

  /** One step of the loop keeps the pending text. */
  lemma {:induction false} FeedTrimmedCons(st: ChunkState, sentences: seq<string>, size: int, overlap: int)
    requires overlap > 0 && BufferSeeded(st, overlap) && sentences != []
    requires var next := Step(st, sentences[0], size, overlap);
      TrimmedText(next, sentences[1..], size, overlap) == PendingText(next, sentences[1..], overlap)
    ensures TrimmedText(st, sentences, size, overlap) == PendingText(st, sentences, overlap)
  {
    var s0, rest := sentences[0], sentences[1..];
    var next := Step(st, s0, size, overlap);
    assert PendingText(next, rest, overlap) == PendingText(st, sentences, overlap) by {
      StepSeededText(st, s0, rest, size, overlap);
      assert [s0] + rest == sentences;
    }
    assert Feed(st, sentences, size, overlap) == Feed(next, rest, size, overlap);
  }

  /** Generalised overlap reconstruction over the rest of the loop: the
      unseeded chunks joined by spaces are the closed chunks' own text, the
      buffer's own sentences and the sentences still to come. */
  lemma {:induction false} FeedTrimmed(st: ChunkState, sentences: seq<string>, size: int, overlap: int)
    requires overlap > 0 && SeededState(st, overlap)
    ensures TrimmedText(st, sentences, size, overlap) == PendingText(st, sentences, overlap)
    decreases |sentences|
  {
    if sentences == [] {
      FeedTrimmedNil(st, size, overlap);
    } else {
      var next := Step(st, sentences[0], size, overlap);
      StepSeeded(st, sentences[0], size, overlap);
      FeedTrimmed(next, sentences[1..], size, overlap);
      FeedTrimmedCons(st, sentences, size, overlap);
    }
  }

  /** With `overlap_tokens > 0` every chunk after the first begins with the
      last `overlap_tokens` tokens of its predecessor, joined by spaces, and a
      space; cutting that prefix from every later chunk and joining all
      chunks with `" "` gives back `" ".join(sentences)`. */
  lemma {:induction false} OverlapReconstruction(sentences: seq<string>, size: int, overlap: int)
    requires overlap > 0
    ensures var c := Chunks(sentences, size, overlap);
      forall k :: 1 <= k < |c| ==> SeededBy(c[k - 1], c[k], overlap)
    ensures Join(" ", Trimmed(Chunks(sentences, size, overlap), overlap)) == Join(" ", sentences)
  {
    var c := Chunks(sentences, size, overlap);
    FeedChain(Start, sentences, size, overlap);
    FeedTrimmed(Start, sentences, size, overlap);
    assert Trimmed(Start.chunks, overlap) + OwnSentences(Start) + sentences == sentences;
    forall k | 1 <= k < |c|
      ensures SeededBy(c[k - 1], c[k], overlap)
    {
      SeedChainAt(c, k, overlap);
    }
  }

  /** A buffer already over budget is emitted as the next chunk. */
  lemma {:induction false} OverfullBufferEmitted(st: ChunkState, rest: seq<string>, size: int, overlap: int)
    requires st.current != [] && st.currentLen > size
    ensures Join(" ", st.current) in Flush(Feed(st, rest, size, overlap))
  {
    if rest != [] {
      var next := Step(st, rest[0], size, overlap);
      assert Overflows(st, rest[0], size);
      assert next.chunks == st.chunks + [Join(" ", st.current)];
      FeedKeepsChunks(next, rest[1..], size, overlap);
      var out := Flush(Feed(next, rest[1..], size, overlap));
      assert out[|st.chunks|] == next.chunks[|st.chunks|];
    }
  }

  /** A sentence with more tokens than the budget is never split: it ends a
      chunk, and without overlap it is a chunk on its own. */
  lemma {:induction false} OversizedSentenceUnsplit(sentences: seq<string>, i: nat, size: int, overlap: int)
    requires i < |sentences| && |Words(sentences[i])| > size
    ensures exists c :: (c in Chunks(sentences, size, overlap) &&
      |sentences[i]| <= |c| && c[|c| - |sentences[i]|..] == sentences[i])
    ensures overlap <= 0 ==> sentences[i] in Chunks(sentences, size, overlap)
  {
    var s := sentences[i];
    var prev := Feed(Start, sentences[..i], size, overlap);
    var after := Step(prev, s, size, overlap);
    WordsOfEmpty();
    FeedCoherent(Start, sentences[..i], size, overlap);
    assert prev.currentLen >= 0;
    FeedSplit(Start, sentences[..i], [s], size, overlap);
    FeedSplit(Start, sentences[..i] + [s], sentences[i + 1..], size, overlap);
    assert sentences[..i] + [s] + sentences[i + 1..] == sentences;
    assert Feed(prev, [s], size, overlap) == after;
    var before := if Overflows(prev, s, size) then Close(prev, overlap) else prev;
    assert after.current == before.current + [s];
    assert |before.current| <= 1 && before.currentLen >= 0 && (overlap <= 0 ==> before.current == []) by {
      if !Overflows(prev, s, size) {
        assert prev.current == [];
      }
    }
    OverfullBufferEmitted(after, sentences[i + 1..], size, overlap);
    var c := Join(" ", after.current);
    if before.current == [] {
      assert after.current == [s];
    } else {
      JoinAppend(" ", before.current, [s]);
    }
    assert c[|c| - |s|..] == s;
  }

  // ---------- generate_chunk_id ----------

  /** `hexdigest()[:8]`: at most the first eight characters. */
  function HashPrefix(h: string): string
  {
    if |h| <= 8 then h else h[..8]
  }

  /** `generate_chunk_id(domain, text, idx)`: `{domain}_{sha1(text)[:8]}_chunk{idx}`.
      The file name is not an input. */
  function ChunkId(sha1Hex: string -> string, domain: string, text: string, idx: nat): (id: string)
    ensures |domain| + 1 <= |id| && id[..|domain| + 1] == domain + "_"
    ensures ParseNat(TrailingDigits(id)) == idx
  {
    var prefix := domain + "_" + HashPrefix(sha1Hex(text)) + "_chunk";
    var id := prefix + NatToString(idx);
    TrailingDigitsAfter(prefix, NatToString(idx));
    ParseNatToString(idx);
    assert id[..|domain| + 1] == domain + "_";
    id
  }

  /** Two ids coincide only for the same index. */
  lemma {:induction false} ChunkIdDeterminesIndex(sha1Hex: string -> string, d1: string, t1: string, i1: nat, d2: string, t2: string, i2: nat)
    requires ChunkId(sha1Hex, d1, t1, i1) == ChunkId(sha1Hex, d2, t2, i2)
    ensures i1 == i2
  {
  }

  /** Within a domain and at the same index, two texts get the same id exactly
      when their digests agree on the first eight characters. */
  lemma {:induction false} ChunkIdText(sha1Hex: string -> string, domain: string, t1: string, t2: string, idx: nat)
    ensures ChunkId(sha1Hex, domain, t1, idx) == ChunkId(sha1Hex, domain, t2, idx)
        <==> HashPrefix(sha1Hex(t1)) == HashPrefix(sha1Hex(t2))
  {
    var h1, h2 := HashPrefix(sha1Hex(t1)), HashPrefix(sha1Hex(t2));
    var tail := "_chunk" + NatToString(idx);
    var a := domain + "_" + h1 + "_chunk" + NatToString(idx);
    var b := domain + "_" + h2 + "_chunk" + NatToString(idx);
    assert a == (domain + "_") + h1 + tail;
    assert b == (domain + "_") + h2 + tail;
    if a == b {
      assert |h1| == |h2|;
      var n := |domain| + 1;
      assert a[n..n + |h1|] == h1;
      assert b[n..n + |h2|] == h2;
    }
  }
}
