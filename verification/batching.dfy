/**
 * Cutting a list into consecutive batches, as `chunk_list` does and as the
 * backfill driver's `range(0, len(tracks), batch_size)` loop does.
 */
module Batching {

  function Min(a: int, b: int): int {
    if a <= b then a else b
  }

  /** `[items[i:i + size] for i in range(0, len(items), size)]` */
  function Chunks<T>(items: seq<T>, size: nat): (r: seq<seq<T>>)
    requires size > 0
    ensures forall k :: 0 <= k < |r| ==> 0 < |r[k]| <= size
    ensures forall k :: 0 <= k < |r| - 1 ==> |r[k]| == size
    decreases |items|
  {
    if items == [] then []
    else if |items| <= size then [items]
    else [items[..size]] + Chunks(items[size..], size)
  }

  /** The number of batches is the ceiling of `len(items) / size`. */
  lemma {:induction false} ChunkCount<T>(items: seq<T>, size: nat)
    requires size > 0
    ensures |Chunks(items, size)| == (|items| + size - 1) / size
    decreases |items|
  {
    if |items| > size {
      ChunkCount(items[size..], size);
      var m := |items| - size;
      assert (m + size - 1) + size == |items| + size - 1;
      DivStep(m + size - 1, size);
    } else if items != [] {
      DivStep(|items| - 1, size);
      assert (|items| - 1) / size == 0;
    }
  }

  lemma DivStep(a: nat, size: nat)
    requires size > 0
    ensures (a + size) / size == a / size + 1
  {
    DivUnique(a + size, size, a / size + 1, a % size);
  }

  /** `a // size == q` when `a == q * size + r` with a remainder in range. */
  lemma DivUnique(a: int, size: nat, q: int, r: int)
    requires size > 0 && 0 <= r < size && a == q * size + r
    ensures a / size == q
  {
    var q2, r2 := a / size, a % size;
    assert (q2 - q) * size == r - r2;
    if q2 > q {
      MulAtLeast(q2 - q, size);
    } else if q2 < q {
      MulAtLeast(q - q2, size);
    }
  }

  lemma MulAtLeast(k: int, size: nat)
    requires k >= 1
    ensures k * size >= size
  {
  }

  function Flatten<T>(xss: seq<seq<T>>): seq<T>
    decreases |xss|
  {
    if xss == [] then [] else xss[0] + Flatten(xss[1..])
  }

  /** Concatenating the batches gives the input back, in order. */
  lemma {:induction false} FlattenChunks<T>(items: seq<T>, size: nat)
    requires size > 0
    ensures Flatten(Chunks(items, size)) == items
    decreases |items|
  {
    if |items| > size {
      FlattenChunks(items[size..], size);
      var c := Chunks(items, size);
      assert c[1..] == Chunks(items[size..], size);
      assert items[..size] + items[size..] == items;
    } else if items != [] {
      assert Chunks(items, size)[1..] == [];
    }
  }

  /** Batch `k` is the slice starting at `k * size`, cut at the end of the input. */
  lemma {:induction false} ChunkAt<T>(items: seq<T>, size: nat, k: nat)
    requires size > 0 && k < |Chunks(items, size)|
    ensures k * size < |items|
    ensures Chunks(items, size)[k] == items[k * size..Min(k * size + size, |items|)]
    decreases k
  {
    if k > 0 {
      var rest := items[size..];
      ChunkAt(rest, size, k - 1);
      assert (k - 1) * size + size == k * size;
      assert rest[(k - 1) * size..Min((k - 1) * size + size, |rest|)]
        == items[k * size..Min(k * size + size, |items|)];
    }
  }

  /** Every start offset inside the input opens a batch. */
  lemma {:induction false} ChunkExists<T>(items: seq<T>, size: nat, k: nat)
    requires size > 0 && k * size < |items|
    ensures k < |Chunks(items, size)|
    decreases k
  {
    if k > 0 {
      assert (k - 1) * size + size == k * size;
      ChunkExists(items[size..], size, k - 1);
    }
  }

  /** The first batch is the first `size` items, and the rest are the batches of what follows. */
  lemma ChunksHead<T>(items: seq<T>, size: nat)
    requires size > 0 && items != []
    ensures Chunks(items, size) != []
    ensures Chunks(items, size)[0] == items[..Min(size, |items|)]
    ensures Chunks(items, size)[1..] == Chunks(items[Min(size, |items|)..], size)
  {
    if |items| <= size {
      assert items[..|items|] == items;
      assert items[|items|..] == [];
    }
  }

  /**
   * Walking the batches: when the batches still to come are those of
   * `items[i..]`, the next one is the slice at `i` and the rest are those
   * of what follows it.
   */
  lemma NextChunk<T>(items: seq<T>, size: nat, i: nat, chunks: seq<seq<T>>, b: nat)
    requires size > 0 && i < |items| && b <= |chunks|
    requires chunks[b..] == Chunks(items[i..], size)
    ensures b < |chunks|
    ensures chunks[b] == items[i..Min(i + size, |items|)]
    ensures chunks[b + 1..] == Chunks(items[Min(i + size, |items|)..], size)
  {
    var hi := Min(i + size, |items|);
    ChunksHead(items[i..], size);
    assert items[i..][..hi - i] == items[i..hi] && items[i..][hi - i..] == items[hi..];
    assert chunks[b..][0] == chunks[b] && chunks[b..][1..] == chunks[b + 1..];
  }
}
