/**
 Fixed-size overlapping chunking of a document body (app/services/knowledge/chunking.py).

 The loop of the source is the method FixedSize.  Its specification is the closed form
 Chunks: chunk i is the window of the content that starts at i * step, where
 step = size - overlap.  What the chunker is for is proved about that closed form.
 */
module Chunking {
  import opened Wrappers

  const MAX_CHUNKS_PER_DOCUMENT: nat := 1000
  const FIXED_SIZE: string := "fixed_size"

  datatype ChunkError = UnknownStrategy(strategy: string) | TooManyChunks(count: nat)

  function Min(a: int, b: int): int {
    if a <= b then a else b
  }

  /** n / d rounded up, as CeilDivBound says. */
  function CeilDiv(n: nat, d: nat): nat
    requires d > 0
  {
    if n == 0 then 0 else if n <= d then 1 else 1 + CeilDiv(n - d, d)
  }

  /** The size characters from start on, cut at the end of the content. */
  function Window(content: string, size: nat, start: nat): string {
    if start <= |content| then content[start..Min(start + size, |content|)] else ""
  }

  /** The windows at the multiples of step that lie inside the content. */
  function Windows(content: string, size: nat, step: nat): seq<string>
    requires step > 0
  {
    seq(CeilDiv(|content|, step), i requires 0 <= i => Window(content, size, i * step))
  }

  /** The closed form of the chunk list. */
  function Chunks(content: string, size: nat, overlap: nat): seq<string>
    requires overlap < size
  {
    Windows(content, size, size - overlap)
  }

  /** What chunk_text answers, with the refusal stated on the input length alone. */
  function Chunked(content: string, size: nat, overlap: nat, strategy: string): Result<seq<string>, ChunkError>
    requires overlap < size
  {
    if strategy != FIXED_SIZE then
      Failure(UnknownStrategy(strategy))
    else if |content| > MAX_CHUNKS_PER_DOCUMENT * (size - overlap) then
      Failure(TooManyChunks(CeilDiv(|content|, size - overlap)))
    else
      Success(Chunks(content, size, overlap))
  }

  // ---------------------------------------------------------------- arithmetic

  lemma MulMonotone(a: int, b: int, d: nat)
    requires a <= b
    ensures a * d <= b * d
  {
  }

  /** A window index is below the chunk count exactly when its window starts inside the content. */
  lemma {:induction false} CeilDivBound(n: nat, d: nat, i: nat)
    requires d > 0
    ensures i < CeilDiv(n, d) <==> i * d < n
  {
    if i == 0 {
    } else if n <= d {
      MulMonotone(1, i, d);
    } else {
      CeilDivBound(n - d, d, i - 1);
      assert (i - 1) * d == i * d - d;
    }
  }

  // ---------------------------------------------------------------- the loop

  /** While a window still starts inside the content, the closed form has one more chunk. */
  lemma NextChunk(content: string, size: nat, overlap: nat, n: nat)
    requires overlap < size
    requires n * (size - overlap) < |content|
    ensures n < |Chunks(content, size, overlap)|
    ensures Chunks(content, size, overlap)[n] == Window(content, size, n * (size - overlap))
    ensures (n + 1) * (size - overlap) == n * (size - overlap) + (size - overlap)
  {
    CeilDivBound(|content|, size - overlap, n);
  }

  lemma NoMoreChunks(content: string, size: nat, overlap: nat, n: nat)
    requires overlap < size
    requires |content| <= n * (size - overlap)
    ensures |Chunks(content, size, overlap)| <= n
  {
    CeilDivBound(|content|, size - overlap, n);
  }

  method FixedSize(content: string, chunkSize: nat, chunkOverlap: nat) returns (chunks: seq<string>)
    requires chunkOverlap < chunkSize
    ensures chunks == Chunks(content, chunkSize, chunkOverlap)
  {
    chunks := [];
    if content == "" {
      NoMoreChunks(content, chunkSize, chunkOverlap, 0);
      return;
    }
    var step := chunkSize - chunkOverlap;
    var start := 0;
    var length := |content|;
    ghost var all := Chunks(content, chunkSize, chunkOverlap);
    while start < length
      invariant start == |chunks| * step
      invariant chunks <= all
      decreases length - start
    {
      NextChunk(content, chunkSize, chunkOverlap, |chunks|);
      chunks := chunks + [content[start..Min(start + chunkSize, length)]];
      start := start + step;
    }
    NoMoreChunks(content, chunkSize, chunkOverlap, |chunks|);
  }

  method ChunkText(content: string, chunkSize: nat, chunkOverlap: nat, strategy: string)
    returns (r: Result<seq<string>, ChunkError>)
    requires chunkOverlap < chunkSize
    ensures r == Chunked(content, chunkSize, chunkOverlap, strategy)
    ensures r.Success? <==> strategy == "fixed_size" && |content| <= 1000 * (chunkSize - chunkOverlap)
    ensures r.Success? ==> r.value == Chunks(content, chunkSize, chunkOverlap)
    ensures r.Failure? ==>
              r.error == if strategy != "fixed_size" then UnknownStrategy(strategy)
                         else TooManyChunks(|Chunks(content, chunkSize, chunkOverlap)|)
  {
    if strategy != FIXED_SIZE {
      return Failure(UnknownStrategy(strategy));
    }
    var chunks := FixedSize(content, chunkSize, chunkOverlap);
    CeilDivBound(|content|, chunkSize - chunkOverlap, MAX_CHUNKS_PER_DOCUMENT);
    if |chunks| > MAX_CHUNKS_PER_DOCUMENT {
      return Failure(TooManyChunks(|chunks|));
    }
    return Success(chunks);
  }

  // ---------------------------------------------------------------- coverage

  /** The first step characters of every chunk, one after the other. */
  function Heads(chunks: seq<string>, step: nat): string {
    if chunks == [] then ""
    else chunks[0][..Min(step, |chunks[0]|)] + Heads(chunks[1..], step)
  }

  function Rest(content: string, start: nat): string {
    if start <= |content| then content[start..] else ""
  }

  lemma HeadOfWindow(content: string, size: nat, step: nat)
    requires 0 < step <= size
    ensures var w := Window(content, size, 0);
            w[..Min(step, |w|)] + Rest(content, step) == content
  {
    var w := Window(content, size, 0);
    if step <= |content| {
      assert w[..step] == content[..step];
    }
  }

  lemma WindowShift(content: string, size: nat, step: nat, start: nat)
    ensures Window(content, size, start + step) == Window(Rest(content, step), size, start)
  {
    if start + step <= |content| {
      var rest := content[step..];
      assert rest[start..Min(start + size, |rest|)] == content[start + step..Min(start + step + size, |content|)];
    }
  }

  lemma CeilDivStep(n: nat, d: nat)
    requires n > 0 && d > 0
    ensures CeilDiv(n, d) == 1 + CeilDiv(if n >= d then n - d else 0, d)
  {
  }

  lemma WindowsShift(content: string, size: nat, step: nat, k: nat)
    ensures Window(content, size, (k + 1) * step) == Window(Rest(content, step), size, k * step)
  {
    WindowShift(content, size, step, k * step);
    assert (k + 1) * step == k * step + step;
  }

  /** After the first window come the windows of what is left after one step. */
  lemma WindowsTail(content: string, size: nat, step: nat)
    requires step > 0 && content != ""
    ensures Windows(content, size, step) == [Window(content, size, 0)] + Windows(Rest(content, step), size, step)
  {
    var windows, tail := Windows(content, size, step), Windows(Rest(content, step), size, step);
    CeilDivStep(|content|, step);
    assert |windows| == |tail| + 1;
    assert windows[0] == Window(content, size, 0);
    forall k | 0 <= k < |tail|
      ensures windows[k + 1] == tail[k]
    {
      WindowsShift(content, size, step, k);
    }
  }

  lemma {:induction false} WindowsReassemble(content: string, size: nat, step: nat)
    requires 0 < step <= size
    ensures Heads(Windows(content, size, step), step) == content
    decreases |content|
  {
    if content != "" {
      var rest := Windows(Rest(content, step), size, step);
      WindowsTail(content, size, step);
      HeadsCons(Window(content, size, 0), rest, step);
      HeadOfWindow(content, size, step);
      WindowsReassemble(Rest(content, step), size, step);
    }
  }

  /** Nothing is lost: dropping each chunk's overlap and joining gives back the content. */
  lemma Reassembles(content: string, size: nat, overlap: nat)
    requires overlap < size
    ensures Heads(Chunks(content, size, overlap), size - overlap) == content
  {
    WindowsReassemble(content, size, size - overlap);
  }

  lemma HeadsCons(first: string, rest: seq<string>, step: nat)
    ensures Heads([first] + rest, step) == first[..Min(step, |first|)] + Heads(rest, step)
  {
    assert ([first] + rest)[1..] == rest;
  }

  /** Two contents with the same chunks are the same content. */
  lemma ChunksInjective(a: string, b: string, size: nat, overlap: nat)
    requires overlap < size
    requires Chunks(a, size, overlap) == Chunks(b, size, overlap)
    ensures a == b
  {
    Reassembles(a, size, overlap);
    Reassembles(b, size, overlap);
  }

  /** The chunk is what the content holds from start on, size characters of it or all that is left. */
  predicate SliceAt(chunk: string, content: string, size: nat, start: nat) {
    start <= |content| && chunk == if start + size <= |content| then content[start..start + size] else content[start..]
  }

  lemma WindowsAt(content: string, size: nat, step: nat, i: nat, start: nat)
    requires step > 0 && i < |Windows(content, size, step)| && start == i * step
    ensures start < |content| && Windows(content, size, step)[i] == Window(content, size, start)
  {
    CeilDivBound(|content|, step, i);
  }

  lemma WindowsPair(content: string, size: nat, step: nat, i: nat, start: nat)
    requires step > 0 && i + 1 < |Windows(content, size, step)| && start == i * step
    ensures start + step < |content|
    ensures Windows(content, size, step)[i] == Window(content, size, start)
    ensures Windows(content, size, step)[i + 1] == Window(content, size, start + step)
  {
    assert (i + 1) * step == start + step;
    WindowsAt(content, size, step, i, start);
    WindowsAt(content, size, step, i + 1, start + step);
  }

  /** Every chunk starts inside the content, is not empty and is the window at its position. */
  lemma ChunkPlace(content: string, size: nat, overlap: nat, i: nat)
    requires overlap < size
    requires i < |Chunks(content, size, overlap)|
    ensures i * (size - overlap) < |content|
    ensures SliceAt(Chunks(content, size, overlap)[i], content, size, i * (size - overlap))
    ensures 0 < |Chunks(content, size, overlap)[i]| <= size
  {
    var step := size - overlap;
    WindowsAt(content, size, step, i, i * step);
    WindowLength(content, size, i * step);
  }

  lemma WindowLength(content: string, size: nat, start: nat)
    requires start < |content|
    ensures |Window(content, size, start)| == Min(size, |content| - start)
    ensures SliceAt(Window(content, size, start), content, size, start)
  {
  }

  lemma WindowsAgree(content: string, size: nat, step: nat, start: nat)
    requires 0 < step <= size
    requires start + step < |content|
    ensures var w, next := Window(content, size, start), Window(content, size, start + step);
            && step <= |w|
            && w[step..] == content[start + step..Min(start + size, |content|)]
            && w[step..] <= next
            && |w[step..]| == Min(size - step, |content| - start - step)
            && (w[step..] == next <==> |content| <= start + size)
  {
    var w, next := Window(content, size, start), Window(content, size, start + step);
    assert w[step..] == content[start + step..Min(start + size, |content|)];
  }

  lemma WindowsOverlap(content: string, size: nat, step: nat, i: nat)
    requires 0 < step <= size
    requires i + 1 < |Windows(content, size, step)|
    ensures var windows := Windows(content, size, step);
            && step <= |windows[i]|
            && windows[i][step..] <= windows[i + 1]
            && |windows[i][step..]| == Min(size - step, |content| - (i + 1) * step)
  {
    var start := i * step;
    WindowsPair(content, size, step, i, start);
    assert (i + 1) * step == start + step;
    WindowsAgree(content, size, step, start);
  }

  /** Neighbouring chunks agree on their overlap: what follows the first step characters of a chunk opens the next. */
  lemma ChunksOverlap(content: string, size: nat, overlap: nat, i: nat)
    requires overlap < size
    requires i + 1 < |Chunks(content, size, overlap)|
    ensures var step := size - overlap;
            var chunks := Chunks(content, size, overlap);
            && step <= |chunks[i]|
            && chunks[i][step..] <= chunks[i + 1]
            && |chunks[i][step..]| == Min(overlap, |content| - (i + 1) * step)
  {
    WindowsOverlap(content, size, size - overlap, i);
  }

  // ---------------------------------------------------------------- the redundant tail

  /** Chunk i repeats text of its predecessor and adds none. */
  ghost predicate Redundant(chunks: seq<string>, step: nat, i: nat)
    requires i < |chunks|
  {
    i > 0 && step <= |chunks[i - 1]| && chunks[i] == chunks[i - 1][step..]
  }

  /** The index of the first redundant chunk, or the number of chunks when there is none. */
  function FirstRedundant(length: nat, size: nat, overlap: nat): nat
    requires overlap < size
  {
    var step := size - overlap;
    if length == 0 then 0
    else if length <= overlap then Min(1, CeilDiv(length, step))
    else var k := CeilDiv(length - overlap, step); if k == 0 then 1 else k
  }

  lemma RedundantAt(content: string, size: nat, step: nat, i: nat)
    requires 0 < step <= size
    requires i < |Windows(content, size, step)|
    ensures Redundant(Windows(content, size, step), step, i) <==> i > 0 && |content| <= i * step + size - step
  {
    if i > 0 {
      var start := (i - 1) * step;
      StartAfter(i, step);
      RedundantNext(content, size, step, i - 1, start);
    }
  }

  lemma StartAfter(i: nat, step: nat)
    requires i > 0
    ensures i * step == (i - 1) * step + step
  {
  }

  lemma RedundantNext(content: string, size: nat, step: nat, i: nat, start: nat)
    requires 0 < step <= size
    requires i + 1 < |Windows(content, size, step)| && start == i * step
    ensures Redundant(Windows(content, size, step), step, i + 1) <==> |content| <= start + size
  {
    WindowsPair(content, size, step, i, start);
    WindowsAgree(content, size, step, start);
  }

  /** The redundant chunks are exactly those from FirstRedundant on: they all lie at the end. */
  lemma RedundantTail(content: string, size: nat, overlap: nat, i: nat)
    requires overlap < size
    requires i < |Chunks(content, size, overlap)|
    ensures Redundant(Chunks(content, size, overlap), size - overlap, i)
            <==> FirstRedundant(|content|, size, overlap) <= i
  {
    var step := size - overlap;
    RedundantAt(content, size, step, i);
    CeilDivBound(|content|, step, i);
    CeilDivBound(|content|, step, 0);
    if |content| > overlap {
      CeilDivBound(|content| - overlap, step, i);
      CeilDivBound(|content| - overlap, step, 0);
    } else {
      MulMonotone(0, i, step);
    }
  }

  lemma {:induction false} CeilDivMonotone(m: nat, n: nat, d: nat)
    requires d > 0 && m <= n
    ensures CeilDiv(m, d) <= CeilDiv(n, d)
  {
    if m > d {
      CeilDivMonotone(m - d, n - d, d);
    }
  }

  lemma {:induction false} CeilDivSplit(n: nat, m: nat, d: nat)
    requires d > 0 && m <= n
    ensures CeilDiv(m, d) <= CeilDiv(n, d) <= CeilDiv(m, d) + CeilDiv(n - m, d)
  {
    CeilDivMonotone(m, n, d);
    if m > d {
      CeilDivSplit(n - d, m - d, d);
    } else if m > 0 && n > d {
      CeilDivMonotone(n - d, n - m, d);
    } else if m > 0 {
      CeilDivMonotone(n, d, d);
    }
  }

  /** How many redundant chunks there can be, and that one is the most when overlap <= size / 2. */
  lemma RedundantCount(content: string, size: nat, overlap: nat)
    requires overlap < size
    ensures var step := size - overlap;
            var n := |Chunks(content, size, overlap)|;
            var first := FirstRedundant(|content|, size, overlap);
            && first <= n
            && n - first <= CeilDiv(overlap, step)
            && (2 * overlap <= size ==> n - first <= 1)
  {
    var step := size - overlap;
    CeilDivBound(|content|, step, 0);
    if |content| > overlap {
      CeilDivSplit(|content|, |content| - overlap, step);
      CeilDivBound(|content| - overlap, step, 0);
    } else {
      CeilDivSplit(overlap, |content|, step);
    }
    CeilDivBound(overlap, step, 1);
  }

  /** The case docs/knowledge-base-chunking-research.md line 34 notes: 300 characters, size 300, overlap 50. */
  lemma RedundantTailOccurs(content: string)
    requires |content| == 300
    ensures Chunks(content, 300, 50) == [content, content[250..]]
    ensures Redundant(Chunks(content, 300, 50), 250, 1)
  {
    assert content[0..300] == content;
    assert content[250..300] == content[250..];
    RedundantAt(content, 300, 250, 1);
  }
}
