/**
 * Chunking: the decision to split a write into chunks, and the chunks the
 * loop of `postgresInsertOrBatchIgnoreOnConflict` actually forms. The loop
 * slices `data.slice(start, Math.min(start + bulkSize, data.length - 1))`,
 * so the upper bound stops one short of the end of the input.
 */
module Chunking {
  import opened JsSemantics

  /**
   * Whether the write is chunked (`insertOrBatch` and
   * `postgresInsertOrBatchIgnoreOnConflict`): with `autoBulk` the caller's
   * `bulk` flag is overwritten by `count > bulkSize`.
   */
  function BulkDecision(count: nat, autoBulk: bool, bulkSize: nat, bulk: bool): (b: bool)
    ensures autoBulk ==> (b <==> count > bulkSize)
    ensures !autoBulk ==> (b <==> bulk)
  {
    if autoBulk then count > bulkSize else bulk
  }

  /** The default arguments of `insertOrBatch` and `postgresInsertOrBatchIgnoreOnConflict`. */
  const DefaultAutoBulk: bool := true
  const DefaultBulkSize: nat := 1000
  const DefaultBulk: bool := false

  /** Called with the defaults, a write is chunked exactly when it has more than 1000 records. */
  lemma DefaultBulkDecision(count: nat)
    ensures BulkDecision(count, DefaultAutoBulk, DefaultBulkSize, DefaultBulk) <==> count > 1000
  {
  }

  /** The upper bound the loop passes to `slice`: `min(start + size, n - 1)`. */
  function ChunkEnd(n: nat, size: nat, start: nat): int
  {
    Min(start + size, n - 1)
  }

  /** The chunk the loop forms at `start`. */
  function Chunk<T>(data: seq<T>, size: nat, start: nat): (c: seq<T>)
    ensures start < |data| ==>
              c == if start < ChunkEnd(|data|, size, start) then data[start..ChunkEnd(|data|, size, start)] else []
  {
    Slice(data, start, ChunkEnd(|data|, size, start))
  }

  /** The values `nextFirstEl` takes from `start` on: it grows by `size` while below `n`. */
  function Starts(n: nat, size: nat, start: nat): seq<nat>
    requires size > 0
    decreases n - start
  {
    if start >= n then [] else [start] + Starts(n, size, start + size)
  }

  /** The chunks the loop forms from `start` on, one per start. */
  function Chunks<T>(data: seq<T>, size: nat, start: nat): seq<seq<T>>
    requires size > 0
    decreases |data| - start
  {
    if start >= |data| then [] else [Chunk(data, size, start)] + Chunks(data, size, start + size)
  }

  /** The chunks from a start below the end: the chunk at that start, then the chunks after it. */
  lemma ChunksCons<T>(data: seq<T>, size: nat, start: nat)
    requires size > 0 && start < |data|
    ensures Chunks(data, size, start)[0] == Chunk(data, size, start)
    ensures Chunks(data, size, start)[1..] == Chunks(data, size, start + size)
  {
    assert Chunks(data, size, start) == [Chunk(data, size, start)] + Chunks(data, size, start + size);
  }

  /** The chunks one after the other. */
  function Flatten<T>(cs: seq<seq<T>>): seq<T>
    decreases |cs|
  {
    if |cs| == 0 then [] else cs[0] + Flatten(cs[1..])
  }

  /** A single chunk flattens to itself. */
  lemma FlattenSingle<T>(x: seq<T>)
    ensures Flatten([x]) == x
  {
    assert [x][1..] == [];
  }

  /** Adjacent slices join into one. */
  lemma SliceConcat<T>(data: seq<T>, a: nat, b: nat, c: nat)
    requires a <= b <= c <= |data|
    ensures data[a..b] + data[b..c] == data[a..c]
  {
  }

  /** A non-empty list of chunks flattens to its first chunk followed by the rest. */
  lemma FlattenCons<T>(cs: seq<seq<T>>)
    requires |cs| > 0
    ensures Flatten(cs) == cs[0] + Flatten(cs[1..])
  {
  }

  /** One more multiple: `k * size` is `size` more than `(k - 1) * size`. */
  lemma MulStep(k: int, size: int)
    ensures k * size == size + (k - 1) * size
  {
    assert (k - 1) * size == k * size - size;
  }

  /**
   * There is one chunk per start, and the last start is the only one within
   * `size` of `n`.
   */
  lemma {:induction false} StartsCount<T>(data: seq<T>, size: nat, start: nat)
    requires size > 0
    ensures var ss := Starts(|data|, size, start);
            && |Chunks(data, size, start)| == |ss|
            && (start < |data| ==> start + (|ss| - 1) * size < |data| <= start + |ss| * size)
    decreases |data| - start
  {
    if start < |data| {
      StartsCount(data, size, start + size);
      var k := |Starts(|data|, size, start + size)|;
      assert |Starts(|data|, size, start)| == k + 1;
      if k > 0 {
        MulStep(k, size);
        MulStep(k + 1, size);
      }
    }
  }

  /**
   * The starts are `start`, `start + size`, `start + 2 * size`, ...: the
   * first is `start`, each next one is `size` further on, and each chunk is
   * the one at its start.
   */
  lemma {:induction false} StartsAt<T>(data: seq<T>, size: nat, start: nat)
    requires size > 0
    ensures var ss := Starts(|data|, size, start);
            var cs := Chunks(data, size, start);
            && |cs| == |ss|
            && (start < |data| ==> ss[0] == start)
            && (forall i :: 0 <= i < |ss| - 1 ==> ss[i + 1] == ss[i] + size)
            && (forall i :: 0 <= i < |ss| ==> cs[i] == Chunk(data, size, ss[i]))
    decreases |data| - start
  {
    StartsCount(data, size, start);
    if start < |data| {
      StartsAt(data, size, start + size);
      var ss := Starts(|data|, size, start);
      var cs := Chunks(data, size, start);
      var rest := Starts(|data|, size, start + size);
      var later := Chunks(data, size, start + size);
      assert ss[1..] == rest;
      ChunksCons(data, size, start);
      forall i | 1 <= i < |ss|
        ensures ss[i] == rest[i - 1] && cs[i] == later[i - 1]
      {
      }
    }
  }

  /** Multiplying by a non-negative factor keeps the order. */
  lemma MulMonotonic(a: int, b: int, c: int)
    requires a <= b && c >= 0
    ensures a * c <= b * c
  {
    assert b * c - a * c == (b - a) * c;
  }

  /** When k * size <= m < (k + 1) * size, the quotient of m by size is k, and the remainder m - k * size. */
  lemma DivBetween(m: int, size: int, k: int)
    requires size > 0 && k * size <= m < (k + 1) * size
    ensures m / size == k && m % size == m - k * size
  {
    var q, r := m / size, m % size;
    assert m == q * size + r && 0 <= r < size;
    if q < k {
      MulMonotonic(q + 1, k, size);
    } else if q > k {
      MulMonotonic(k + 1, q, size);
    }
  }

  /** The loop runs `ceil(n / size)` times. */
  lemma IterationCount<T>(data: seq<T>, size: nat)
    requires size > 0
    ensures |Chunks(data, size, 0)| == (|data| + size - 1) / size
  {
    var n := |data|;
    StartsCount(data, size, 0);
    var c := |Starts(n, size, 0)|;
    if n == 0 {
      DivBetween(size - 1, size, 0);
    } else {
      assert (c - 1) * size < n <= c * size;
      DivBetween(n + size - 1, size, c);
    }
  }

  /** A chunk that starts more than `size` before the end is full. */
  lemma FullChunk<T>(data: seq<T>, size: nat, start: nat)
    requires size > 0 && start + size < |data|
    ensures Chunk(data, size, start) == data[start..start + size]
  {
  }

  /** From a start within `size` of the end there is one chunk left: up to the final record. */
  lemma FinalChunk<T>(data: seq<T>, size: nat, start: nat)
    requires size > 0 && start < |data| <= start + size
    ensures Chunks(data, size, start) == [data[start..|data| - 1]]
  {
    ChunksCons(data, size, start);
    assert Chunks(data, size, start + size) == [];
  }

  /**
   * Every chunk but the last holds exactly `size` records; the last one
   * holds the records from its start up to, but not including, the final
   * record of the input.
   */
  lemma {:induction false} ChunkSizes<T>(data: seq<T>, size: nat, start: nat)
    requires size > 0 && start < |data|
    ensures var cs := Chunks(data, size, start);
            && |cs| > 0
            && (forall i :: 0 <= i < |cs| - 1 ==> |cs[i]| == size)
            && |cs[|cs| - 1]| == |data| - 1 - (start + (|cs| - 1) * size)
    decreases |data| - start
  {
    var cs := Chunks(data, size, start);
    if start + size < |data| {
      var rest := Chunks(data, size, start + size);
      ChunksCons(data, size, start);
      FullChunk(data, size, start);
      ChunkSizes(data, size, start + size);
      forall i | 1 <= i < |cs| - 1 ensures |cs[i]| == size {
        assert cs[i] == rest[i - 1];
      }
      MulStep(|rest|, size);
    } else {
      FinalChunk(data, size, start);
    }
  }

  /**
   * The records the loop sends, chunk after chunk, are the input in order
   * without its final record: `data[n - 1]` is in no chunk.
   */
  lemma {:induction false} ChunksMissLastRecord<T>(data: seq<T>, size: nat, start: nat)
    requires size > 0 && start < |data|
    ensures Flatten(Chunks(data, size, start)) == data[start..|data| - 1]
    decreases |data| - start
  {
    if start + size < |data| {
      ChunksMissLastRecord(data, size, start + size);
      FlattenFullChunk(data, size, start);
    } else {
      FlattenFinalChunk(data, size, start);
    }
  }

  /** The last chunk alone: up to the final record. */
  lemma FlattenFinalChunk<T>(data: seq<T>, size: nat, start: nat)
    requires size > 0 && start < |data| <= start + size
    ensures Flatten(Chunks(data, size, start)) == data[start..|data| - 1]
  {
    FinalChunk(data, size, start);
    FlattenSingle(data[start..|data| - 1]);
  }

  /** A full chunk in front of the records sent after it. */
  lemma FlattenFullChunk<T>(data: seq<T>, size: nat, start: nat)
    requires size > 0 && start + size < |data|
    requires Flatten(Chunks(data, size, start + size)) == data[start + size..|data| - 1]
    ensures Flatten(Chunks(data, size, start)) == data[start..|data| - 1]
  {
    ChunksCons(data, size, start);
    FullChunk(data, size, start);
    FlattenCons(Chunks(data, size, start));
    SliceConcat(data, start, start + size, |data| - 1);
  }

  /** Over the whole input: the records sent are all but the last. */
  lemma LastRecordNeverSent<T>(data: seq<T>, size: nat)
    requires size > 0 && |data| > 0
    ensures Flatten(Chunks(data, size, 0)) == data[..|data| - 1]
  {
    ChunksMissLastRecord(data, size, 0);
  }

  /**
   * Some chunk is empty exactly when `n - 1` is a multiple of `size`, and
   * then it is the last one: its start is `n - 1` itself.
   */
  lemma EmptyChunkExactly<T>(data: seq<T>, size: nat)
    requires size > 0 && |data| > 0
    ensures var cs := Chunks(data, size, 0);
            && (forall i :: 0 <= i < |cs| - 1 ==> |cs[i]| == size)
            && (cs[|cs| - 1] == [] <==> (|data| - 1) % size == 0)
            && ([] in cs <==> (|data| - 1) % size == 0)
  {
    var n := |data|;
    var cs := Chunks(data, size, 0);
    StartsCount(data, size, 0);
    ChunkSizes(data, size, 0);
    var last := |cs| - 1;
    assert last * size < n <= (last + 1) * size;
    DivBetween(n - 1, size, last);
    assert |cs[last]| == (n - 1) % size;
    if [] in cs {
      var i :| 0 <= i < |cs| && cs[i] == [];
      assert i == last;
    }
  }

  /**
   * The smallest input that autoBulk chunks, `n = size + 1`: the loop runs
   * twice, the first chunk is `data[..size]` and the second is empty, so the
   * final record is never sent.
   */
  lemma OneOverBulkSize<T>(data: seq<T>, size: nat)
    requires size > 0 && |data| == size + 1
    ensures Chunks(data, size, 0) == [data[..size], []]
  {
    assert Chunk(data, size, 0) == data[..size];
    assert Chunk(data, size, size) == [];
    assert Chunks(data, size, size + size) == [];
    assert Chunks(data, size, size) == [[]];
  }
}
