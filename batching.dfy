/** The slicing that `Video.load_info` and `Playlist.load_info` apply before they
    submit jobs: `for i in range(0, len(list), 50): list[i:i+50]`. */
module Batching {
  import opened Wrappers

  /** The largest number of entities that one remote lookup is asked about. */
  const BatchSize: nat := 50

  /** The contiguous slices of at most `BatchSize` elements, in order. */
  function Chunks<T>(s: seq<T>): (r: seq<seq<T>>)
    ensures r == [] <==> s == []
    ensures r != [] ==> r[0] == s[..Min(|s|, BatchSize)]
    decreases |s|
  {
    if |s| == 0 then []
    else if |s| <= BatchSize then [s]
    else [s[..BatchSize]] + Chunks(s[BatchSize..])
  }

  function Flatten<T>(ss: seq<seq<T>>): seq<T> {
    if ss == [] then [] else ss[0] + Flatten(ss[1..])
  }

  /** Concatenating the slices gives back the list. */
  lemma {:induction false} ChunksFlatten<T>(s: seq<T>)
    ensures Flatten(Chunks(s)) == s
    decreases |s|
  {
    if |s| > BatchSize {
      ChunksFlatten(s[BatchSize..]);
      assert s == s[..BatchSize] + s[BatchSize..];
    }
  }

  /** There are ceil(n / 50) slices. */
  lemma {:induction false} ChunkCount<T>(s: seq<T>)
    ensures |Chunks(s)| == (|s| + BatchSize - 1) / BatchSize
    decreases |s|
  {
    if |s| > BatchSize {
      ChunkCount(s[BatchSize..]);
      assert |s| + BatchSize - 1 == (|s| - BatchSize + BatchSize - 1) + BatchSize;
    }
  }

  /** Slice `j` is `s[50 j .. min(50 j + 50, n)]`, which is what the source's loop takes
      at `i = 50 j`. */
  lemma {:induction false} ChunkAt<T>(s: seq<T>, j: nat)
    requires j < |Chunks(s)|
    ensures BatchSize * j < |s|
    ensures Chunks(s)[j] == s[BatchSize * j .. Min(BatchSize * j + BatchSize, |s|)]
    decreases |s|
  {
    if j > 0 {
      var rest := s[BatchSize..];
      assert Chunks(s) == [s[..BatchSize]] + Chunks(rest);
      ChunkAt(rest, j - 1);
      var lo := BatchSize * (j - 1);
      var hi := Min(lo + BatchSize, |rest|);
      assert Chunks(s)[j] == Chunks(rest)[j - 1] == rest[lo..hi];
      assert BatchSize * j == lo + BatchSize;
      assert rest[lo..hi] == s[lo + BatchSize .. hi + BatchSize] by {
        forall k | 0 <= k < hi - lo ensures rest[lo..hi][k] == s[lo + BatchSize .. hi + BatchSize][k] {
          assert rest[lo + k] == s[BatchSize + lo + k];
        }
      }
    }
  }

  /** A slice starts at `50 j` exactly when `50 j` is still inside the list, so the
      source's loop makes one submission per slice. */
  lemma {:induction false} ChunkIndex<T>(s: seq<T>, j: nat)
    ensures j < |Chunks(s)| <==> BatchSize * j < |s|
    decreases |s|
  {
    if j > 0 && |s| > BatchSize {
      ChunkIndex(s[BatchSize..], j - 1);
      assert BatchSize * j == BatchSize * (j - 1) + BatchSize;
    } else if j > 0 {
      assert BatchSize * j >= BatchSize;
    }
  }

  /** Every slice holds between 1 and 50 elements, and every one but the last holds 50. */
  lemma ChunkSizes<T>(s: seq<T>)
    ensures forall j :: 0 <= j < |Chunks(s)| ==> 1 <= |Chunks(s)[j]| <= BatchSize
    ensures forall j :: 0 <= j < |Chunks(s)| - 1 ==> |Chunks(s)[j]| == BatchSize
  {
    forall j | 0 <= j < |Chunks(s)| ensures 1 <= |Chunks(s)[j]| <= BatchSize
      && (j < |Chunks(s)| - 1 ==> |Chunks(s)[j]| == BatchSize)
    {
      ChunkAt(s, j);
      ChunkCount(s);
    }
  }

  /** 120 entities go out as three lookups of sizes 50, 50 and 20. */
  lemma ChunksOf120<T>(s: seq<T>)
    requires |s| == 120
    ensures |Chunks(s)| == 3
    ensures |Chunks(s)[0]| == 50 && |Chunks(s)[1]| == 50 && |Chunks(s)[2]| == 20
  {
    ChunkCount(s);
    ChunkAt(s, 0);
    ChunkAt(s, 1);
    ChunkAt(s, 2);
  }
}
