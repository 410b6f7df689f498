/**
 * worker.js, the batching loop of `updateAllTickers`: the symbol list is cut
 * into consecutive `slice(i, i + 50)` pieces, one quote request each.
 */
module Chunking {

  /** Symbols per request, to keep the GET URL short. */
  const ChunkSize: nat := 50

  /** `xs.slice(lo, hi)` for non-negative bounds: both are clamped to the length,
      and an empty range gives the empty list. */
  function Slice<T>(xs: seq<T>, lo: nat, hi: nat): (s: seq<T>)
    ensures lo <= hi <= |xs| ==> s == xs[lo..hi]
    ensures lo <= |xs| <= hi ==> s == xs[lo..]
    ensures |xs| <= lo ==> s == []
  {
    var end := if hi < |xs| then hi else |xs|;
    if lo < end then xs[lo..end] else []
  }

  /** The chunks of `xs`, in order. */
  function Chunks<T>(xs: seq<T>): seq<seq<T>>
    decreases |xs|
  {
    if xs == [] then []
    else
      var n := if |xs| < ChunkSize then |xs| else ChunkSize;
      [xs[..n]] + Chunks(xs[n..])
  }

  /** All chunks joined back together. */
  function Concat<T>(xss: seq<seq<T>>): seq<T>
  {
    if xss == [] then [] else xss[0] + Concat(xss[1..])
  }

  /** One step of the loop: from offset `i`, the next chunk is
      `slice(i, i + 50)` and the rest continue from `i + 50`. */
  lemma ChunksFrom<T>(xs: seq<T>, i: nat)
    requires i < |xs|
    ensures Chunks(xs[i..]) == [Slice(xs, i, i + ChunkSize)] + Chunks(Slice(xs, i + ChunkSize, |xs|))
  {
    var rest := xs[i..];
    var n := if |rest| < ChunkSize then |rest| else ChunkSize;
    assert rest[..n] == Slice(xs, i, i + ChunkSize);
    assert rest[n..] == Slice(xs, i + ChunkSize, |xs|);
  }

  /** Joining the chunks gives back the list exactly: nothing lost, repeated or
      reordered. */
  lemma {:induction false} ChunksConcat<T>(xs: seq<T>)
    ensures Concat(Chunks(xs)) == xs
    decreases |xs|
  {
    if xs != [] {
      var n := if |xs| < ChunkSize then |xs| else ChunkSize;
      ChunksConcat(xs[n..]);
      assert xs[..n] + xs[n..] == xs;
    }
  }

  /** Every chunk is non-empty and at most 50 long, and all but the last are
      exactly 50 long. */
  lemma {:induction false} ChunksSized<T>(xs: seq<T>)
    ensures forall k :: 0 <= k < |Chunks(xs)| ==> 0 < |Chunks(xs)[k]| <= ChunkSize
    ensures forall k :: 0 <= k < |Chunks(xs)| - 1 ==> |Chunks(xs)[k]| == ChunkSize
    decreases |xs|
  {
    if xs != [] {
      var n := if |xs| < ChunkSize then |xs| else ChunkSize;
      ChunksSized(xs[n..]);
      var c := Chunks(xs);
      assert forall k :: 1 <= k < |c| ==> c[k] == Chunks(xs[n..])[k - 1];
    }
  }

  /** There are ceil(n / 50) chunks. */
  lemma {:induction false} ChunksCount<T>(xs: seq<T>)
    ensures |Chunks(xs)| == (|xs| + ChunkSize - 1) / ChunkSize
    decreases |xs|
  {
    if xs != [] {
      var n := if |xs| < ChunkSize then |xs| else ChunkSize;
      ChunksCount(xs[n..]);
    }
  }

  /** The k-th chunk is `slice(50 * k, 50 * k + 50)`. */
  lemma {:induction false} ChunksAt<T>(xs: seq<T>, k: nat)
    requires k < |Chunks(xs)|
    ensures Chunks(xs)[k] == Slice(xs, ChunkSize * k, ChunkSize * k + ChunkSize)
    decreases k
  {
    var n := if |xs| < ChunkSize then |xs| else ChunkSize;
    if k > 0 {
      ChunksAt(xs[n..], k - 1);
      assert n == ChunkSize;
      assert Slice(xs[n..], ChunkSize * (k - 1), ChunkSize * (k - 1) + ChunkSize)
          == Slice(xs, ChunkSize * k, ChunkSize * k + ChunkSize);
    }
  }

  /** 120 symbols go out as three requests of 50, 50 and 20. */
  lemma OneHundredTwenty<T>(xs: seq<T>)
    requires |xs| == 120
    ensures |Chunks(xs)| == 3
    ensures Chunks(xs)[0] == xs[..50] && Chunks(xs)[1] == xs[50..100] && Chunks(xs)[2] == xs[100..]
  {
    ChunksCount(xs);
    ChunksAt(xs, 0);
    ChunksAt(xs, 1);
    ChunksAt(xs, 2);
  }
}
