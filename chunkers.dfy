/** Sliding-window chunking of document text into overlapping word windows
    (backend/chunkers.py). A chunk is the words of one window joined by a
    single space; the windows are described by `Windows`, and the lemmas
    below state their bounds, coverage and overlap. */
module Chunkers {
  import opened Common

  datatype ChunkError =
    | NonPositiveChunkSize   // "chunk_size must be positive"
    | NegativeOverlap        // "overlap cannot be negative"
    | OverlapNotSmaller      // "overlap must be smaller than chunk_size"

  /** The parameter checks, in the order the chunker makes them. */
  function ParameterError(chunkSize: int, overlap: int): (e: Option<ChunkError>)
    ensures e == None <==> 0 <= overlap < chunkSize
  {
    if chunkSize <= 0 then Some(NonPositiveChunkSize)
    else if overlap < 0 then Some(NegativeOverlap)
    else if overlap >= chunkSize then Some(OverlapNotSmaller)
    else None
  }

  /** The half-open word windows [start, end) emitted for `n` words from
      `start` on: each is `size` words long or stops at the last word, and
      the next starts `step` words later. */
  function Windows(n: nat, size: nat, step: nat, start: nat): seq<(nat, nat)>
    requires 1 <= step <= size && start < n
    decreases n - start
  {
    var end := if start + size < n then start + size else n;
    if end == n then [(start, end)]
    else [(start, end)] + Windows(n, size, step, start + step)
  }

  /** The windows for a text of `n` words. */
  function Spans(n: nat, chunkSize: nat, overlap: nat): seq<(nat, nat)>
    requires overlap < chunkSize
  {
    if n == 0 then [] else Windows(n, chunkSize, chunkSize - overlap, 0)
  }

  predicate WithinBounds(spans: seq<(nat, nat)>, n: nat)
  {
    forall i :: 0 <= i < |spans| ==> spans[i].0 <= spans[i].1 <= n
  }

  /** The chunk strings for the given windows over `words`. */
  function ChunkTexts(words: seq<string>, spans: seq<(nat, nat)>): (r: seq<string>)
    requires WithinBounds(spans, |words|)
    ensures |r| == |spans|
  {
    if spans == [] then []
    else
      var last := spans[|spans| - 1];
      ChunkTexts(words, spans[..|spans| - 1]) + [Join(" ", words[last.0..last.1])]
  }

  lemma WindowsShape(n: nat, size: nat, step: nat, start: nat)
    requires 1 <= step <= size && start < n
    ensures var w := Windows(n, size, step, start);
      && |w| >= 1
      && w[0].0 == start
      && w[|w| - 1].1 == n
      && (forall i :: 0 <= i < |w| ==> start <= w[i].0 < w[i].1 <= n && w[i].1 - w[i].0 <= size)
      && (forall i :: 0 <= i < |w| - 1 ==>
            w[i].1 == w[i].0 + size < n && w[i + 1].0 == w[i].0 + step)
  {
    WindowsEnds(n, size, step, start);
    WindowsWithin(n, size, step, start);
    WindowsAdvance(n, size, step, start);
  }

  /** The first window starts at `start` and the last ends at `n`. */
  lemma {:induction false} WindowsEnds(n: nat, size: nat, step: nat, start: nat)
    requires 1 <= step <= size && start < n
    ensures var w := Windows(n, size, step, start);
      |w| >= 1 && w[0].0 == start && w[|w| - 1].1 == n
    decreases n - start
  {
    if start + size < n {
      WindowsEnds(n, size, step, start + step);
      var rest := Windows(n, size, step, start + step);
      var w := Windows(n, size, step, start);
      assert w == [(start, start + size)] + rest;
      assert w[|w| - 1] == rest[|rest| - 1];
    }
  }

  /** Every window is non-empty, at most `size` long and inside the text. */
  lemma {:induction false} WindowsWithin(n: nat, size: nat, step: nat, start: nat)
    requires 1 <= step <= size && start < n
    ensures forall i :: 0 <= i < |Windows(n, size, step, start)| ==>
      var x := Windows(n, size, step, start)[i];
      start <= x.0 < x.1 <= n && x.1 - x.0 <= size
    decreases n - start
  {
    if start + size < n {
      WindowsWithin(n, size, step, start + step);
      var rest := Windows(n, size, step, start + step);
      var w := Windows(n, size, step, start);
      assert w == [(start, start + size)] + rest;
      forall i | 0 <= i < |w|
        ensures start <= w[i].0 < w[i].1 <= n && w[i].1 - w[i].0 <= size
      {
        if i > 0 {
          var r := rest[i - 1];
          assert start + step <= r.0 < r.1 <= n && r.1 - r.0 <= size;
          assert w[i] == r;
        }
      }
    }
  }

  /** Every window but the last is full and the next starts `step` later. */
  lemma {:induction false} WindowsAdvance(n: nat, size: nat, step: nat, start: nat)
    requires 1 <= step <= size && start < n
    ensures var w := Windows(n, size, step, start);
      forall i :: 0 <= i < |w| - 1 ==> w[i].1 == w[i].0 + size < n && w[i + 1].0 == w[i].0 + step
    decreases n - start
  {
    if start + size < n {
      WindowsAdvance(n, size, step, start + step);
      WindowsEnds(n, size, step, start + step);
      var rest := Windows(n, size, step, start + step);
      var w := Windows(n, size, step, start);
      assert w == [(start, start + size)] + rest;
      forall i | 0 <= i < |w| - 1
        ensures w[i].1 == w[i].0 + size < n && w[i + 1].0 == w[i].0 + step
      {
        if i > 0 {
          assert w[i] == rest[i - 1] && w[i + 1] == rest[i];
        }
      }
    }
  }

  lemma SpansWithinBounds(n: nat, chunkSize: nat, overlap: nat)
    requires overlap < chunkSize
    ensures WithinBounds(Spans(n, chunkSize, overlap), n)
  {
    if n > 0 {
      WindowsShape(n, chunkSize, chunkSize - overlap, 0);
    }
  }

  /** Every chunk holds between one and `chunk_size` words; the first starts
      at word 0 and the last ends at the final word. */
  lemma ChunkBounds(n: nat, chunkSize: nat, overlap: nat)
    requires overlap < chunkSize && n > 0
    ensures var s := Spans(n, chunkSize, overlap);
      && |s| >= 1 && s[0].0 == 0 && s[|s| - 1].1 == n
      && forall i :: 0 <= i < |s| ==> 1 <= s[i].1 - s[i].0 <= chunkSize
  {
    WindowsShape(n, chunkSize, chunkSize - overlap, 0);
  }

  /** Consecutive chunks start `chunk_size - overlap` words apart and share
      exactly `overlap` words: the second starts inside the first and ends
      no earlier. */
  lemma ConsecutiveChunksOverlap(n: nat, chunkSize: nat, overlap: nat, i: nat)
    requires overlap < chunkSize
    requires i + 1 < |Spans(n, chunkSize, overlap)|
    ensures var s := Spans(n, chunkSize, overlap);
      && s[i + 1].0 == s[i].0 + (chunkSize - overlap)
      && s[i + 1].0 <= s[i].1 <= s[i + 1].1
      && s[i].1 - s[i + 1].0 == overlap
  {
    WindowsShape(n, chunkSize, chunkSize - overlap, 0);
  }

  /** A text of at most `chunk_size` words yields exactly one chunk. */
  lemma ShortTextOneChunk(n: nat, chunkSize: nat, overlap: nat)
    requires overlap < chunkSize && 0 < n <= chunkSize
    ensures Spans(n, chunkSize, overlap) == [(0, n)]
  {
  }

  /** Every word lies in some chunk. */
  lemma {:induction false} WindowsCover(n: nat, size: nat, step: nat, start: nat, k: nat)
    requires 1 <= step <= size && start <= k < n
    ensures var w := Windows(n, size, step, start);
      exists i :: 0 <= i < |w| && w[i].0 <= k < w[i].1
    decreases n - start
  {
    var w := Windows(n, size, step, start);
    if start + size < n && k >= start + size {
      WindowsCover(n, size, step, start + step, k);
      var rest := Windows(n, size, step, start + step);
      var i :| 0 <= i < |rest| && rest[i].0 <= k < rest[i].1;
      WindowsUnfold(n, size, step, start);
      assert w[i + 1] == rest[i];
      assert 0 <= i + 1 < |w| && w[i + 1].0 <= k < w[i + 1].1;
    } else {
      assert w[0].0 <= k < w[0].1;
    }
  }

  lemma EveryWordCovered(n: nat, chunkSize: nat, overlap: nat, k: nat)
    requires overlap < chunkSize && k < n
    ensures var s := Spans(n, chunkSize, overlap);
      exists i :: 0 <= i < |s| && s[i].0 <= k < s[i].1
  {
    assert Spans(n, chunkSize, overlap) == Windows(n, chunkSize, chunkSize - overlap, 0);
    WindowsCover(n, chunkSize, chunkSize - overlap, 0, k);
  }

  /** The chunks of one text, for valid parameters. */
  function Chunks(text: string, chunkSize: nat, overlap: nat): seq<string>
    requires overlap < chunkSize
  {
    var words := Split(text);
    SpansWithinBounds(|words|, chunkSize, overlap);
    ChunkTexts(words, Spans(|words|, chunkSize, overlap))
  }

  lemma WindowsUnfold(n: nat, size: nat, step: nat, start: nat)
    requires 1 <= step <= size && start < n
    ensures start + size < n ==>
      Windows(n, size, step, start) == [(start, start + size)] + Windows(n, size, step, start + step)
    ensures start + size >= n ==> Windows(n, size, step, start) == [(start, n)]
  {
  }

  lemma ChunkTextsSnoc(words: seq<string>, spans: seq<(nat, nat)>, a: nat, b: nat)
    requires WithinBounds(spans, |words|) && a <= b <= |words|
    ensures WithinBounds(spans + [(a, b)], |words|)
    ensures ChunkTexts(words, spans + [(a, b)]) == ChunkTexts(words, spans) + [Join(" ", words[a..b])]
  {
    assert (spans + [(a, b)])[..|spans|] == spans;
  }

  lemma SnocShift<T>(done: seq<T>, x: T, rest: seq<T>)
    ensures done + ([x] + rest) == (done + [x]) + rest
  {
  }

  /** The chunking loop over a non-empty word list. */
  method EmitChunks(words: seq<string>, chunkSize: nat, step: nat) returns (chunks: seq<string>)
    requires 1 <= step <= chunkSize && |words| > 0
    ensures WithinBounds(Windows(|words|, chunkSize, step, 0), |words|)
    ensures chunks == ChunkTexts(words, Windows(|words|, chunkSize, step, 0))
  {
    chunks := [];
    var start: nat := 0;
    ghost var all := Windows(|words|, chunkSize, step, 0);
    ghost var emitted: seq<(nat, nat)> := [];
    while true
      invariant start < |words|
      invariant all == emitted + Windows(|words|, chunkSize, step, start)
      invariant WithinBounds(emitted, |words|)
      invariant chunks == ChunkTexts(words, emitted)
      decreases |words| - start
    {
      var end: nat := if start + chunkSize < |words| then start + chunkSize else |words|;
      WindowsUnfold(|words|, chunkSize, step, start);
      ChunkTextsSnoc(words, emitted, start, end);
      chunks := chunks + [Join(" ", words[start..end])];
      if end == |words| {
        emitted := emitted + [(start, end)];
        assert emitted == all;
        return;
      }
      ghost var rest := Windows(|words|, chunkSize, step, start + step);
      SnocShift(emitted, (start, end), rest);
      emitted := emitted + [(start, end)];
      start := start + step;
    }
  }

  /** `sliding_window_chunk`: validate the parameters, split the text into
      words and emit one chunk per window. */
  method SlidingWindowChunk(text: string, chunkSize: int, overlap: int)
    returns (r: Result<seq<string>, ChunkError>)
    ensures r.Err? <==> ParameterError(chunkSize, overlap).Some?
    ensures r.Err? ==> r.error == ParameterError(chunkSize, overlap).value
    ensures r.Ok? ==> 0 <= overlap < chunkSize && r.value == Chunks(text, chunkSize, overlap)
  {
    if chunkSize <= 0 {
      return Err(NonPositiveChunkSize);
    }
    if overlap < 0 {
      return Err(NegativeOverlap);
    }
    if overlap >= chunkSize {
      return Err(OverlapNotSmaller);
    }
    var words := Split(text);
    if |words| == 0 {
      return Ok([]);
    }
    var chunks := EmitChunks(words, chunkSize, chunkSize - overlap);
    return Ok(chunks);
  }

  /** A text yields no chunk exactly when it is blank. */
  lemma ChunksEmptyIffBlank(text: string, chunkSize: nat, overlap: nat)
    requires overlap < chunkSize
    ensures Chunks(text, chunkSize, overlap) == [] <==> IsBlank(text)
  {
    SplitEmptyIffBlank(text);
    var n := |Split(text)|;
    if n > 0 {
      WindowsShape(n, chunkSize, chunkSize - overlap, 0);
    }
  }

  /** The chunks of every text, in order. */
  function AllChunks(texts: seq<string>, chunkSize: nat, overlap: nat): seq<string>
    requires overlap < chunkSize
  {
    if texts == [] then []
    else AllChunks(texts[..|texts| - 1], chunkSize, overlap) + Chunks(texts[|texts| - 1], chunkSize, overlap)
  }

  lemma AllChunksSnoc(texts: seq<string>, i: nat, chunkSize: nat, overlap: nat)
    requires overlap < chunkSize && i < |texts|
    ensures AllChunks(texts[..i + 1], chunkSize, overlap)
         == AllChunks(texts[..i], chunkSize, overlap) + Chunks(texts[i], chunkSize, overlap)
  {
    assert texts[..i + 1][..i] == texts[..i];
  }

  /** `chunk_documents`: the concatenation of each text's chunks. With no
      texts the chunker is never called, so invalid parameters go
      unnoticed. */
  method ChunkDocuments(texts: seq<string>, chunkSize: int, overlap: int)
    returns (r: Result<seq<string>, ChunkError>)
    ensures r.Err? <==> texts != [] && ParameterError(chunkSize, overlap).Some?
    ensures r.Err? ==> r.error == ParameterError(chunkSize, overlap).value
    ensures r.Ok? && texts != [] ==> 0 <= overlap < chunkSize
    ensures r.Ok? && 0 <= overlap < chunkSize ==> r.value == AllChunks(texts, chunkSize, overlap)
    ensures r.Ok? && texts == [] ==> r.value == []
  {
    var chunks: seq<string> := [];
    var i := 0;
    while i < |texts|
      invariant 0 <= i <= |texts|
      invariant i > 0 ==> 0 <= overlap < chunkSize
      invariant 0 <= overlap < chunkSize ==> chunks == AllChunks(texts[..i], chunkSize, overlap)
      invariant i == 0 ==> chunks == []
    {
      var part := SlidingWindowChunk(texts[i], chunkSize, overlap);
      if part.Err? {
        return Err(part.error);
      }
      AllChunksSnoc(texts, i, chunkSize, overlap);
      chunks := chunks + part.value;
      i := i + 1;
    }
    assert texts[..i] == texts;
    return Ok(chunks);
  }
}
