/** Splitting an id list into request-sized batches: consecutive slices of
    the batch size, the last one possibly shorter. */
module Chunking {

  /** The most inventory item ids one lookup request may carry. */
  const ChunkSize: nat := 100

  /** The batches of `xs`, front to back. */
  function Chunks<T>(xs: seq<T>, size: nat): (cs: seq<seq<T>>)
    requires size > 0
    ensures forall i :: 0 <= i < |cs| ==> 0 < |cs[i]| <= size
    ensures forall i :: 0 <= i < |cs| - 1 ==> |cs[i]| == size
    ensures Flatten(cs) == xs
    decreases |xs|
  {
    if |xs| == 0 then []
    else if |xs| <= size then
      assert Flatten([xs]) == xs + Flatten([xs][1..]);
      assert xs + [] == xs;
      [xs]
    else
      var rest := Chunks(xs[size..], size);
      assert ([xs[..size]] + rest)[1..] == rest;
      assert xs[..size] + xs[size..] == xs;
      [xs[..size]] + rest
  }

  /** The concatenation of the batches. */
  function Flatten<T>(cs: seq<seq<T>>): seq<T>
    decreases |cs|
  {
    if |cs| == 0 then [] else cs[0] + Flatten(cs[1..])
  }

  /** There are ⌈|xs| / 100⌉ batches of the handlers' size. */
  lemma {:induction false} ChunkCount<T>(xs: seq<T>)
    ensures |Chunks(xs, ChunkSize)| == (|xs| + ChunkSize - 1) / ChunkSize
    decreases |xs|
  {
    if |xs| > ChunkSize {
      ChunkCount(xs[ChunkSize..]);
    }
  }

  /** 250 ids go out as three requests of 100, 100 and 50 ids. */
  lemma TwoHundredFiftyIds<T>(xs: seq<T>)
    requires |xs| == 250
    ensures |Chunks(xs, ChunkSize)| == 3
    ensures |Chunks(xs, ChunkSize)[0]| == 100 && |Chunks(xs, ChunkSize)[1]| == 100
    ensures |Chunks(xs, ChunkSize)[2]| == 50
  {
    ChunkCount(xs);
    var cs := Chunks(xs, ChunkSize);
    FlattenLength(cs);
    assert SumLengths(cs) == |cs[0]| + |cs[1]| + |cs[2]| by {
      assert SumLengths(cs[1..][1..][1..]) == 0;
      assert SumLengths(cs[1..][1..]) == |cs[2]|;
      assert SumLengths(cs[1..]) == |cs[1]| + |cs[2]|;
    }
  }

  lemma {:induction false} FlattenLength<T>(cs: seq<seq<T>>)
    ensures |Flatten(cs)| == SumLengths(cs)
    decreases |cs|
  {
    if |cs| > 0 {
      FlattenLength(cs[1..]);
    }
  }

  function SumLengths<T>(cs: seq<seq<T>>): nat
    decreases |cs|
  {
    if |cs| == 0 then 0 else |cs[0]| + SumLengths(cs[1..])
  }
}
