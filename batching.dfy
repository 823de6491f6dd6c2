/** The batch shape shared by both `create_batches_and_calculate` loops: items are queued in
    input order and a batch is dispatched as soon as it holds `batch_size` items, with one
    final non-empty remainder. */
module Batching {

  /** The dispatched batches, one after another. */
  function Flatten<T>(bs: seq<seq<T>>): seq<T> {
    if bs == [] then [] else bs[0] + Flatten(bs[1..])
  }

  lemma {:induction false} FlattenAppend<T>(bs: seq<seq<T>>, b: seq<T>)
    ensures Flatten(bs + [b]) == Flatten(bs) + b
  {
    if bs != [] {
      assert (bs + [b])[1..] == bs[1..] + [b];
      FlattenAppend(bs[1..], b);
    }
  }

  /** Every batch is full, except that the last may be a smaller, non-empty remainder. */
  predicate Chunked<T>(bs: seq<seq<T>>, size: int) {
    forall j :: 0 <= j < |bs| ==> |bs[j]| == size || (j == |bs| - 1 && 0 < |bs[j]| < size)
  }

  /** The reference chunking: consecutive slices of `size` items, then the rest. */
  function Chunks<T>(xs: seq<T>, size: nat): seq<seq<T>>
    requires size > 0
    decreases |xs|
  {
    if xs == [] then []
    else if |xs| <= size then [xs]
    else [xs[..size]] + Chunks(xs[size..], size)
  }

  /** For a positive size there is only one way to chunk a sequence: batches of that shape
      which flatten to `xs` are `Chunks(xs, size)`. */
  lemma {:induction false} ChunkedIsChunks<T>(bs: seq<seq<T>>, xs: seq<T>, size: nat)
    requires size > 0 && Chunked(bs, size) && Flatten(bs) == xs
    ensures bs == Chunks(xs, size)
    decreases |bs|
  {
    if bs != [] {
      var rest := bs[1..];
      assert Chunked(rest, size) by {
        forall j | 0 <= j < |rest|
          ensures |rest[j]| == size || (j == |rest| - 1 && 0 < |rest[j]| < size)
        {
          assert rest[j] == bs[j + 1];
        }
      }
      ChunkedIsChunks(rest, Flatten(rest), size);
      if rest == [] {
        assert xs == bs[0];
      } else {
        assert |bs[0]| == size;
        assert |rest[0]| > 0;
        assert |Flatten(rest)| > 0;
        assert xs[..size] == bs[0];
        assert xs[size..] == Flatten(rest);
      }
    }
  }

  /** Appending a full batch keeps every batch full. */
  lemma ChunkedStep<T>(bs: seq<seq<T>>, b: seq<T>, size: int)
    requires |b| == size
    requires size > 0 ==> forall j :: 0 <= j < |bs| ==> |bs[j]| == size
    ensures size > 0 ==> forall j :: 0 <= j < |bs + [b]| ==> |(bs + [b])[j]| == size
  {
  }

  /** Full batches followed by one smaller, non-empty remainder are chunked. */
  lemma RemainderStep<T>(bs: seq<seq<T>>, b: seq<T>, size: int)
    requires size > 0 ==> |b| < size && forall j :: 0 <= j < |bs| ==> |bs[j]| == size
    requires |b| > 0
    ensures size > 0 ==> Chunked(bs + [b], size)
  {
  }

  lemma FullChunks<T>(bs: seq<seq<T>>, size: int)
    requires size > 0 ==> forall j :: 0 <= j < |bs| ==> |bs[j]| == size
    ensures size > 0 ==> Chunked(bs, size)
  {
  }
}
