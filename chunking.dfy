/** `[content[i:i+chunk_size] for i in range(0, len(content), chunk_size)]`. */
module Chunking {
  import opened Values

  /** The windows of a positive chunk size, taken one after the other from the front:
      a full window of `size` characters while more than `size` remain, then the rest. */
  function Chunks(content: string, size: nat): (chunks: seq<string>)
    requires size > 0
    ensures chunks == [] <==> content == []
    ensures forall k :: 0 <= k < |chunks| ==> 1 <= |chunks[k]| <= size
    decreases |content|
  {
    if content == [] then []
    else if |content| <= size then [content]
    else [content[..size]] + Chunks(content[size..], size)
  }

  /** The comprehension for any `chunk_size`: a zero step makes `range` raise
      ValueError, a negative step yields an empty range and so no chunks. */
  function ChunkContent(content: string, chunkSize: int): (r: Result<seq<string>>)
    ensures chunkSize == 0 <==> r == Failure(RangeStepZero)
    ensures chunkSize < 0 ==> r == Success([])
    ensures chunkSize > 0 ==> r == Success(Chunks(content, chunkSize))
  {
    if chunkSize == 0 then Failure(RangeStepZero)
    else if chunkSize < 0 then Success([])
    else Success(Chunks(content, chunkSize))
  }

  /** `''.join(parts)`. */
  function Concat(parts: seq<string>): string
  {
    if parts == [] then [] else parts[0] + Concat(parts[1..])
  }

  lemma MulSucc(a: nat, b: nat)
    ensures (a + 1) * b == a * b + b
  {
  }

  /** Chunk `k` is the comprehension's `k`-th element: the slice that starts at `k * size`
      and is `size` long, clipped at the end of the content. */
  lemma {:induction false} ChunkAt(content: string, size: nat, k: nat)
    requires size > 0 && k < |Chunks(content, size)|
    ensures k * size < |content|
    ensures Chunks(content, size)[k] == content[k * size .. Min(k * size + size, |content|)]
    decreases k
  {
    if k > 0 {
      assert |content| > size;
      var rest := content[size..];
      assert Chunks(content, size)[k] == Chunks(rest, size)[k - 1];
      ChunkAt(rest, size, k - 1);
      MulSucc(k - 1, size);
      var lo := (k - 1) * size;
      SliceOfSuffix(content, size, lo, Min(lo + size, |rest|));
    }
  }

  lemma SliceOfSuffix(s: string, d: nat, lo: nat, hi: nat)
    requires d <= |s| && lo <= hi <= |s| - d
    ensures s[d..][lo..hi] == s[d + lo .. d + hi]
  {
  }

  /** Joining the chunks in order gives back the content exactly. */
  lemma {:induction false} ChunksRoundTrip(content: string, size: nat)
    requires size > 0
    ensures Concat(Chunks(content, size)) == content
    decreases |content|
  {
    if |content| > size {
      ChunksRoundTrip(content[size..], size);
      assert [content[..size]] + Chunks(content[size..], size) == Chunks(content, size);
      assert content[..size] + content[size..] == content;
    }
  }

  /** There are ceil(len / size) chunks: enough to cover the content, and one fewer
      would not; empty content gives none. */
  lemma {:induction false} ChunkCountIsCeiling(content: string, size: nat)
    requires size > 0
    ensures |Chunks(content, size)| * size >= |content|
    ensures |Chunks(content, size)| > 0 ==> (|Chunks(content, size)| - 1) * size < |content|
    ensures |Chunks(content, size)| == 0 <==> |content| == 0
    decreases |content|
  {
    if |content| > size {
      var rest := content[size..];
      ChunkCountIsCeiling(rest, size);
      MulSucc(|Chunks(rest, size)|, size);
      if |Chunks(rest, size)| > 0 {
        MulSucc(|Chunks(rest, size)| - 1, size);
      }
    }
  }

  /** Every chunk but the last holds exactly `size` characters, the last between 1 and `size`. */
  lemma {:induction false} ChunkLengths(content: string, size: nat)
    requires size > 0
    ensures forall k :: 0 <= k < |Chunks(content, size)| - 1 ==> |Chunks(content, size)[k]| == size
    ensures |Chunks(content, size)| > 0 ==>
      1 <= |Chunks(content, size)[|Chunks(content, size)| - 1]| <= size
    decreases |content|
  {
    if |content| > size {
      var rest := content[size..];
      ChunkLengths(rest, size);
      assert Chunks(content, size) == [content[..size]] + Chunks(rest, size);
    }
  }
}
