/** Next-fit packing of chunks into buckets by the send loops, and slicing the chunks
    back out of a bucket buffer (verl/verl/checkpoint_engine/nccl_checkpoint_engine.py
    and nixl_checkpoint_engine.py). */
module BucketPacking {
  import opened Prelude
  import opened WeightChunks

  /** An entry of bucket_meta: a TensorMeta whose `offset` has been filled in. */
  datatype Placed = Placed(meta: ChunkMeta, offset: nat)

  /** What travels: the metas in insertion order and the used prefix of the buffer. */
  datatype Bucket = Bucket(metas: seq<Placed>, payload: seq<byte>)

  const EMPTY_BUCKET: Bucket := Bucket([], [])

  /** The state of a send loop: buckets handed over so far, and the one being filled. */
  datatype Packing = Packing(closed: seq<Bucket>, open: Bucket)

  predicate Fits(open: Bucket, c: Chunk, bucketSize: nat) {
    |open.payload| + c.meta.chunkSize <= bucketSize
  }

  function Put(open: Bucket, c: Chunk): Bucket {
    Bucket(open.metas + [Placed(c.meta, |open.payload|)], open.payload + c.data)
  }

  function PackChunk(p: Packing, c: Chunk, bucketSize: nat): Packing {
    if Fits(p.open, c, bucketSize) then p.(open := Put(p.open, c))
    else Packing(p.closed + [p.open], Put(EMPTY_BUCKET, c))
  }

  function PackPrefix(chunks: seq<Chunk>, n: nat, bucketSize: nat): Packing
    requires n <= |chunks|
  {
    if n == 0 then Packing([], EMPTY_BUCKET)
    else PackChunk(PackPrefix(chunks, n - 1, bucketSize), chunks[n - 1], bucketSize)
  }

  /** All buckets a sender transfers; the last one may be empty. */
  function Buckets(chunks: seq<Chunk>, bucketSize: nat): (r: seq<Bucket>)
    ensures r != []
  {
    var p := PackPrefix(chunks, |chunks|, bucketSize);
    p.closed + [p.open]
  }

  // ------------------------------------------------------- layout of a bucket

  function End(b: Bucket, i: nat): nat
    requires i < |b.metas|
  {
    b.metas[i].offset + b.metas[i].meta.chunkSize
  }

  function Last(b: Bucket): Placed
    requires b.metas != []
  {
    b.metas[|b.metas| - 1]
  }

  /** The bucket as it was before its last chunk was put. */
  function Front(b: Bucket): Bucket
    requires b.metas != [] && Last(b).offset <= |b.payload|
  {
    Bucket(b.metas[..|b.metas| - 1], b.payload[..Last(b).offset])
  }

  /** The entries tile the payload. */
  predicate Tiles(b: Bucket)
    decreases |b.metas|
  {
    if b.metas == [] then b.payload == []
    else
      && 0 < Last(b).meta.chunkSize
      && Last(b).offset + Last(b).meta.chunkSize == |b.payload|
      && Tiles(Front(b))
  }

  lemma {:induction false} EndsAreOrdered(b: Bucket, i: nat, j: nat)
    requires Tiles(b) && i < j < |b.metas|
    ensures End(b, i) <= b.metas[j].offset < End(b, j) <= |b.payload|
    ensures j == i + 1 ==> End(b, i) == b.metas[j].offset
    decreases |b.metas|
  {
    if j < |b.metas| - 1 {
      EndsAreOrdered(Front(b), i, j);
    } else {
      EntryIsInside(Front(b), i);
    }
  }

  lemma {:induction false} EntryIsInside(b: Bucket, i: nat)
    requires Tiles(b) && i < |b.metas|
    ensures 0 < b.metas[i].meta.chunkSize && End(b, i) <= |b.payload|
    ensures i == |b.metas| - 1 ==> End(b, i) == |b.payload|
    ensures i == 0 ==> b.metas[i].offset == 0
    decreases |b.metas|
  {
    if i < |b.metas| - 1 {
      EntryIsInside(Front(b), i);
    }
  }

  /** Tiling, spelled out: entries start at 0, follow each other without gap or overlap,
      and end with the payload. */
  lemma TilesMeaning(b: Bucket, i: nat)
    requires Tiles(b) && i < |b.metas|
    ensures b.metas[i].offset == if i == 0 then 0 else End(b, i - 1)
    ensures i == |b.metas| - 1 ==> End(b, i) == |b.payload|
  {
    EntryIsInside(b, i);
    if i > 0 {
      EndsAreOrdered(b, i - 1, i);
    }
  }

  /** No two entries of a bucket_meta dictionary share a name. */
  predicate DistinctMetas(b: Bucket) {
    forall i, j :: 0 <= i < j < |b.metas| ==> b.metas[i].meta.name != b.metas[j].meta.name
  }

  predicate GoodBucket(b: Bucket, bucketSize: nat) {
    Tiles(b) && |b.payload| <= bucketSize
  }

  predicate SlicesOf(b: Bucket, buf: seq<byte>) {
    |b.payload| <= |buf| && buf[..|b.payload|] == b.payload
  }

  /** The view a receiver yields for one entry of a buffer. */
  function Slice(buf: seq<byte>, m: Placed): Arrived
    requires m.offset + m.meta.chunkSize <= |buf|
  {
    Arrived(Chunk(m.meta, buf[m.offset..m.offset + m.meta.chunkSize]), m.offset)
  }

  function Unpack(b: Bucket): (r: seq<Arrived>)
    requires Tiles(b)
    ensures |r| == |b.metas|
    decreases |b.metas|
  {
    if b.metas == [] then [] else Unpack(Front(b)) + [Slice(b.payload, Last(b))]
  }

  predicate AllTile(bs: seq<Bucket>) {
    forall i :: 0 <= i < |bs| ==> Tiles(bs[i])
  }

  function UnpackAll(bs: seq<Bucket>, n: nat): seq<Arrived>
    requires n <= |bs| && AllTile(bs)
  {
    if n == 0 then [] else UnpackAll(bs, n - 1) + Unpack(bs[n - 1])
  }

  // ------------------------------------------------------- packing is correct

  lemma FrontOfPut(b: Bucket, c: Chunk)
    ensures Put(b, c).metas != [] && Last(Put(b, c)) == Placed(c.meta, |b.payload|)
    ensures Front(Put(b, c)) == b
  {
  }

  lemma SliceOfPut(b: Bucket, c: Chunk)
    requires |c.data| == c.meta.chunkSize
    ensures Slice(Put(b, c).payload, Placed(c.meta, |b.payload|)) == Arrived(c, |b.payload|)
  {
    assert (b.payload + c.data)[|b.payload|..|b.payload| + |c.data|] == c.data;
  }

  lemma UnpackOfPut(b: Bucket, c: Chunk)
    requires Tiles(b) && |c.data| == c.meta.chunkSize && 0 < c.meta.chunkSize
    ensures Tiles(Put(b, c)) && Unpack(Put(b, c)) == Unpack(b) + [Arrived(c, |b.payload|)]
  {
    FrontOfPut(b, c);
    SliceOfPut(b, c);
  }

  lemma {:induction false} UnpackAllOfPrefix(bs: seq<Bucket>, cs: seq<Bucket>, n: nat)
    requires n <= |bs| <= |cs| && cs[..|bs|] == bs
    requires AllTile(cs)
    ensures AllTile(bs)
    ensures UnpackAll(bs, n) == UnpackAll(cs, n)
  {
    forall i | 0 <= i < |bs| ensures Tiles(bs[i]) {
      assert bs[i] == cs[i];
    }
    if n > 0 {
      UnpackAllOfPrefix(bs, cs, n - 1);
      assert bs[n - 1] == cs[n - 1];
    }
  }

  /** What holds of every state of the send loop: all buckets tile and fit the buffer. */
  predicate GoodBuckets(bs: seq<Bucket>, bucketSize: nat) {
    forall i :: 0 <= i < |bs| ==> GoodBucket(bs[i], bucketSize)
  }

  lemma PackChunkKeepsGood(p: Packing, c: Chunk, bucketSize: nat)
    requires GoodBuckets(p.closed, bucketSize) && GoodBucket(p.open, bucketSize)
    requires |c.data| == c.meta.chunkSize && 0 < c.meta.chunkSize <= bucketSize
    ensures var q := PackChunk(p, c, bucketSize);
            GoodBuckets(q.closed, bucketSize) && GoodBucket(q.open, bucketSize)
  {
    UnpackOfPut(p.open, c);
    UnpackOfPut(EMPTY_BUCKET, c);
  }

  lemma {:induction false} PackingIsGood(chunks: seq<Chunk>, n: nat, bucketSize: nat)
    requires WellSized(chunks, bucketSize) && n <= |chunks|
    ensures var p := PackPrefix(chunks, n, bucketSize);
            GoodBuckets(p.closed, bucketSize) && GoodBucket(p.open, bucketSize)
  {
    if n > 0 {
      PackingIsGood(chunks, n - 1, bucketSize);
      PackChunkKeepsGood(PackPrefix(chunks, n - 1, bucketSize), chunks[n - 1], bucketSize);
    }
  }

  lemma BucketsAreGood(chunks: seq<Chunk>, bucketSize: nat)
    requires WellSized(chunks, bucketSize)
    ensures GoodBuckets(Buckets(chunks, bucketSize), bucketSize)
    ensures AllTile(Buckets(chunks, bucketSize))
  {
    PackingIsGood(chunks, |chunks|, bucketSize);
  }

  /** Every bucket but the first begins with a chunk that did not fit into the one before it. */
  predicate ClosedWhenFull(bs: seq<Bucket>, bucketSize: nat) {
    forall i :: 0 < i < |bs| ==>
                  bs[i].metas != [] && |bs[i - 1].payload| + bs[i].metas[0].meta.chunkSize > bucketSize
  }

  lemma PackChunkClosesWhenFull(p: Packing, c: Chunk, bucketSize: nat)
    requires ClosedWhenFull(p.closed + [p.open], bucketSize)
    ensures var q := PackChunk(p, c, bucketSize); ClosedWhenFull(q.closed + [q.open], bucketSize)
  {
    var q := PackChunk(p, c, bucketSize);
    var bs, bs' := p.closed + [p.open], q.closed + [q.open];
    forall i | 0 < i < |bs'|
      ensures bs'[i].metas != [] && |bs'[i - 1].payload| + bs'[i].metas[0].meta.chunkSize > bucketSize
    {
      assert bs'[i - 1] == bs[i - 1];
      if i < |p.closed| || !Fits(p.open, c, bucketSize) {
        assert i < |bs| ==> bs'[i] == bs[i];
      } else {
        assert bs[i] == p.open && p.open.metas != [];
      }
    }
  }

  /** Next-fit: a bucket is handed over only when the next chunk does not fit. */
  lemma {:induction false} BucketsCloseWhenFull(chunks: seq<Chunk>, n: nat, bucketSize: nat)
    requires n <= |chunks|
    ensures var p := PackPrefix(chunks, n, bucketSize); ClosedWhenFull(p.closed + [p.open], bucketSize)
    ensures n == |chunks| ==> ClosedWhenFull(Buckets(chunks, bucketSize), bucketSize)
  {
    if n > 0 {
      BucketsCloseWhenFull(chunks, n - 1, bucketSize);
      PackChunkClosesWhenFull(PackPrefix(chunks, n - 1, bucketSize), chunks[n - 1], bucketSize);
    }
  }

  lemma CloseOpen(closed: seq<Bucket>, open: Bucket)
    requires AllTile(closed) && Tiles(open)
    ensures AllTile(closed + [open])
    ensures UnpackAll(closed + [open], |closed| + 1) == UnpackAll(closed, |closed|) + Unpack(open)
  {
    var bs := closed + [open];
    assert bs[|closed|] == open;
    UnpackAllOfPrefix(closed, bs, |closed|);
  }

  predicate Unpackable(p: Packing) {
    AllTile(p.closed) && Tiles(p.open)
  }

  /** All chunks that a send loop has packed, read back from its buckets. */
  function Unpacked(p: Packing): seq<Arrived>
    requires Unpackable(p)
  {
    UnpackAll(p.closed, |p.closed|) + Unpack(p.open)
  }

  /** Bytes in the open bucket after n chunks, by their sizes alone. */
  function Filled(chunks: seq<Chunk>, n: nat, bucketSize: nat): nat
    requires n <= |chunks|
    decreases n, 0
  {
    if n == 0 then 0 else PlaceOf(chunks, n - 1, bucketSize) + chunks[n - 1].meta.chunkSize
  }

  /** The offset at which chunk i is placed: after the one before it, or at the start of a new
      bucket if it does not fit there. */
  function PlaceOf(chunks: seq<Chunk>, i: nat, bucketSize: nat): nat
    requires i < |chunks|
    decreases i, 1
  {
    var filled := Filled(chunks, i, bucketSize);
    if filled + chunks[i].meta.chunkSize <= bucketSize then filled else 0
  }

  /** The first n chunks at the offsets where they are placed. */
  function PlacedChunks(chunks: seq<Chunk>, n: nat, bucketSize: nat): (r: seq<Arrived>)
    requires n <= |chunks|
    ensures |r| == n && forall i: nat :: i < n ==> r[i] == Arrived(chunks[i], PlaceOf(chunks, i, bucketSize))
  {
    seq(n, i requires 0 <= i < n => Arrived(chunks[i], PlaceOf(chunks, i, bucketSize)))
  }

  lemma {:induction false} FilledIsPayload(chunks: seq<Chunk>, n: nat, bucketSize: nat)
    requires WellSized(chunks, bucketSize) && n <= |chunks|
    ensures |PackPrefix(chunks, n, bucketSize).open.payload| == Filled(chunks, n, bucketSize)
  {
    if n > 0 {
      FilledIsPayload(chunks, n - 1, bucketSize);
    }
  }

  lemma UnpackOfPackChunk(p: Packing, c: Chunk, bucketSize: nat)
    requires Unpackable(p) && |c.data| == c.meta.chunkSize && 0 < c.meta.chunkSize
    ensures Unpackable(PackChunk(p, c, bucketSize))
    ensures var x := Arrived(c, if Fits(p.open, c, bucketSize) then |p.open.payload| else 0);
            Unpacked(PackChunk(p, c, bucketSize)) == Unpacked(p) + [x]
  {
    if Fits(p.open, c, bucketSize) {
      UnpackOfPut(p.open, c);
      MoveBrackets(UnpackAll(p.closed, |p.closed|), Unpack(p.open), Arrived(c, |p.open.payload|));
    } else {
      UnpackOfFirst(c);
      CloseOpen(p.closed, p.open);
    }
  }

  lemma UnpackOfFirst(c: Chunk)
    requires |c.data| == c.meta.chunkSize && 0 < c.meta.chunkSize
    ensures Tiles(Put(EMPTY_BUCKET, c)) && Unpack(Put(EMPTY_BUCKET, c)) == [Arrived(c, 0)]
  {
    UnpackOfPut(EMPTY_BUCKET, c);
    assert Unpack(EMPTY_BUCKET) == [];
  }

  lemma MoveBrackets(xs: seq<Arrived>, ys: seq<Arrived>, y: Arrived)
    ensures xs + (ys + [y]) == xs + ys + [y]
  {
  }

  predicate ReadsBack(p: Packing, xs: seq<Arrived>) {
    Unpackable(p) && Unpacked(p) == xs
  }

  lemma ReadsBackStep(p: Packing, c: Chunk, done: seq<Arrived>, bucketSize: nat)
    requires ReadsBack(p, done) && |c.data| == c.meta.chunkSize && 0 < c.meta.chunkSize
    ensures var x := Arrived(c, if Fits(p.open, c, bucketSize) then |p.open.payload| else 0);
            ReadsBack(PackChunk(p, c, bucketSize), done + [x])
  {
    UnpackOfPackChunk(p, c, bucketSize);
  }

  lemma PlaceOfNext(chunks: seq<Chunk>, n: nat, bucketSize: nat)
    requires WellSized(chunks, bucketSize) && n < |chunks|
    ensures var open := PackPrefix(chunks, n, bucketSize).open;
            var place := if Fits(open, chunks[n], bucketSize) then |open.payload| else 0;
            PlacedChunks(chunks, n + 1, bucketSize) == PlacedChunks(chunks, n, bucketSize) + [Arrived(chunks[n], place)]
  {
    FilledIsPayload(chunks, n, bucketSize);
  }

  lemma ReadsBackNext(chunks: seq<Chunk>, n: nat, bucketSize: nat)
    requires WellSized(chunks, bucketSize) && n < |chunks|
    requires ReadsBack(PackPrefix(chunks, n, bucketSize), PlacedChunks(chunks, n, bucketSize))
    ensures ReadsBack(PackPrefix(chunks, n + 1, bucketSize), PlacedChunks(chunks, n + 1, bucketSize))
  {
    var p, c := PackPrefix(chunks, n, bucketSize), chunks[n];
    assert |c.data| == c.meta.chunkSize && 0 < c.meta.chunkSize;
    ReadsBackStep(p, c, PlacedChunks(chunks, n, bucketSize), bucketSize);
    PlaceOfNext(chunks, n, bucketSize);
  }

  lemma {:induction false} UnpackPrefix(chunks: seq<Chunk>, n: nat, bucketSize: nat)
    requires WellSized(chunks, bucketSize) && n <= |chunks|
    ensures ReadsBack(PackPrefix(chunks, n, bucketSize), PlacedChunks(chunks, n, bucketSize))
  {
    if n > 0 {
      UnpackPrefix(chunks, n - 1, bucketSize);
      ReadsBackNext(chunks, n - 1, bucketSize);
    }
  }

  /** Slicing every bucket open, in order, gives back the chunk stream, each chunk at the offset
      where next-fit has placed it. */
  lemma UnpackUndoesPack(chunks: seq<Chunk>, bucketSize: nat)
    requires WellSized(chunks, bucketSize)
    ensures AllTile(Buckets(chunks, bucketSize))
    ensures UnpackAll(Buckets(chunks, bucketSize), |Buckets(chunks, bucketSize)|)
         == PlacedChunks(chunks, |chunks|, bucketSize)
    ensures Chunks(UnpackAll(Buckets(chunks, bucketSize), |Buckets(chunks, bucketSize)|)) == chunks
  {
    BucketsAreGood(chunks, bucketSize);
    UnpackPrefix(chunks, |chunks|, bucketSize);
    var p := PackPrefix(chunks, |chunks|, bucketSize);
    UnpackAllOfPrefix(p.closed, p.closed + [p.open], |p.closed|);
    assert Chunks(PlacedChunks(chunks, |chunks|, bucketSize)) == chunks;
  }

  /** The slices are the same whether taken from the payload or from a buffer that starts with it. */
  lemma {:induction false} SliceOfBuffer(b: Bucket, buf: seq<byte>, i: nat)
    requires Tiles(b) && SlicesOf(b, buf) && i < |b.metas|
    ensures End(b, i) <= |b.payload| && Slice(buf, b.metas[i]) == Unpack(b)[i]
    decreases |b.metas|
  {
    EntryIsInside(b, i);
    if i < |b.metas| - 1 {
      SliceOfBuffer(Front(b), buf, i);
    } else {
      var m := b.metas[i];
      assert buf[m.offset..End(b, i)] == buf[..|b.payload|][m.offset..End(b, i)];
    }
  }

  // --------------------------------------------- names inside one bucket_meta

  /** The open bucket holds exactly the chunks from some index on. */
  lemma {:induction false} OpenBucketIsASuffix(chunks: seq<Chunk>, n: nat, bucketSize: nat) returns (start: nat)
    requires WellSized(chunks, bucketSize) && n <= |chunks|
    ensures var b := PackPrefix(chunks, n, bucketSize).open;
            start + |b.metas| == n && forall i :: 0 <= i < |b.metas| ==> b.metas[i].meta == chunks[start + i].meta
  {
    if n == 0 {
      start := 0;
    } else {
      start := OpenBucketIsASuffix(chunks, n - 1, bucketSize);
      if !Fits(PackPrefix(chunks, n - 1, bucketSize).open, chunks[n - 1], bucketSize) {
        start := n - 1;
      }
    }
  }

  lemma OpenNamesAreDistinct(chunks: seq<Chunk>, n: nat, bucketSize: nat)
    requires WellSized(chunks, bucketSize) && FullUnlessLast(chunks, bucketSize) && n <= |chunks|
    ensures DistinctMetas(PackPrefix(chunks, n, bucketSize).open)
  {
    PackingIsGood(chunks, n, bucketSize);
    var b := PackPrefix(chunks, n, bucketSize).open;
    var start := OpenBucketIsASuffix(chunks, n, bucketSize);
    forall i, j | 0 <= i < j < |b.metas| ensures b.metas[i].meta.name != b.metas[j].meta.name {
      EndsAreOrdered(b, i, j);
      assert b.metas[i].meta == chunks[start + i].meta && b.metas[j].meta == chunks[start + j].meta;
    }
  }

  /** Two chunks of one weight never share a bucket, so the assertion that a name is not yet
      in bucket_meta never fires when a chunk is put, and no sent bucket repeats a name. */
  lemma {:induction false} NamesNeverCollide(chunks: seq<Chunk>, n: nat, bucketSize: nat)
    requires WellSized(chunks, bucketSize) && FullUnlessLast(chunks, bucketSize) && n <= |chunks|
    ensures var p := PackPrefix(chunks, n, bucketSize);
            DistinctMetas(p.open) && forall i :: 0 <= i < |p.closed| ==> DistinctMetas(p.closed[i])
  {
    OpenNamesAreDistinct(chunks, n, bucketSize);
    if n > 0 {
      NamesNeverCollide(chunks, n - 1, bucketSize);
    }
  }

  // ------------------------------------------------------------- packing bound

  function Bytes(bs: seq<Bucket>): nat {
    if bs == [] then 0 else Bytes(bs[..|bs| - 1]) + |bs[|bs| - 1].payload|
  }

  function ChunkBytes(chunks: seq<Chunk>, n: nat): nat
    requires n <= |chunks|
  {
    if n == 0 then 0 else ChunkBytes(chunks, n - 1) + |chunks[n - 1].data|
  }

  /** Neighbouring buckets together hold more than one bucket's worth; `total` is the
      number of bytes packed so far. */
  predicate PackedTightly(p: Packing, total: nat, bucketSize: nat) {
    var first := if p.closed == [] then |p.open.payload| else |p.closed[0].payload|;
    && Bytes(p.closed) + |p.open.payload| == total
    && |p.closed| * (bucketSize + 1) + first + |p.open.payload| <= 2 * total
  }

  lemma OneMore(k: nat, m: nat)
    ensures (k + 1) * m == k * m + m
  {
  }

  lemma PackChunkTightly(p: Packing, c: Chunk, total: nat, bucketSize: nat)
    requires PackedTightly(p, total, bucketSize) && |c.data| == c.meta.chunkSize
    ensures PackedTightly(PackChunk(p, c, bucketSize), total + |c.data|, bucketSize)
  {
    if !Fits(p.open, c, bucketSize) {
      var closed := p.closed + [p.open];
      assert closed[..|p.closed|] == p.closed;
      assert Bytes(closed) == Bytes(p.closed) + |p.open.payload|;
      OneMore(|p.closed|, bucketSize + 1);
    }
  }

  lemma {:induction false} PackPrefixTightly(chunks: seq<Chunk>, n: nat, bucketSize: nat)
    requires WellSized(chunks, bucketSize) && n <= |chunks|
    ensures PackedTightly(PackPrefix(chunks, n, bucketSize), ChunkBytes(chunks, n), bucketSize)
  {
    if n == 0 {
      assert PackPrefix(chunks, 0, bucketSize) == Packing([], EMPTY_BUCKET) && ChunkBytes(chunks, 0) == 0;
    } else {
      var p, total := PackPrefix(chunks, n - 1, bucketSize), ChunkBytes(chunks, n - 1);
      PackPrefixTightly(chunks, n - 1, bucketSize);
      PackChunkTightly(p, chunks[n - 1], total, bucketSize);
      assert PackPrefix(chunks, n, bucketSize) == PackChunk(p, chunks[n - 1], bucketSize);
      assert ChunkBytes(chunks, n) == total + |chunks[n - 1].data|;
    }
  }

  /** Next-fit wastes less than half: all buckets but one would be more than half of `total`. */
  lemma PackingBound(chunks: seq<Chunk>, bucketSize: nat)
    requires WellSized(chunks, bucketSize) && chunks != []
    ensures (|Buckets(chunks, bucketSize)| - 1) * bucketSize < 2 * ChunkBytes(chunks, |chunks|)
  {
    PackPrefixTightly(chunks, |chunks|, bucketSize);
    assert ChunkBytes(chunks, |chunks|) > 0;
    var k := |PackPrefix(chunks, |chunks|, bucketSize).closed|;
    assert k * (bucketSize + 1) == k * bucketSize + k;
  }

  function WeightBytes(ws: seq<Weight>): nat {
    if ws == [] then 0 else |ws[0].bytes| + WeightBytes(ws[1..])
  }

  lemma {:induction false} ChunkBytesAppend(xs: seq<Chunk>, ys: seq<Chunk>, n: nat)
    requires |xs| <= n <= |xs| + |ys|
    ensures ChunkBytes(xs + ys, n) == ChunkBytes(xs, |xs|) + ChunkBytes(ys, n - |xs|)
    decreases n
  {
    if n > |xs| {
      ChunkBytesAppend(xs, ys, n - 1);
    } else {
      ChunkBytesPrefix(xs, ys, n);
    }
  }

  lemma {:induction false} ChunkBytesPrefix(xs: seq<Chunk>, ys: seq<Chunk>, n: nat)
    requires n <= |xs|
    ensures ChunkBytes(xs + ys, n) == ChunkBytes(xs, n)
  {
    if n > 0 {
      ChunkBytesPrefix(xs, ys, n - 1);
    }
  }

  lemma {:induction false} SplitFromKeepsBytes(w: Weight, bucketSize: nat, from: nat)
    requires 0 < bucketSize && from <= |w.bytes|
    ensures ChunkBytes(SplitFrom(w, bucketSize, from), |SplitFrom(w, bucketSize, from)|) == |w.bytes| - from
    decreases |w.bytes| - from
  {
    if from < |w.bytes| {
      var c := ChunkAt(w, bucketSize, from);
      var rest := SplitFrom(w, bucketSize, from + c.meta.chunkSize);
      SplitFromKeepsBytes(w, bucketSize, from + c.meta.chunkSize);
      ChunkBytesAppend([c], rest, 1 + |rest|);
    }
  }

  /** Splitting neither loses nor repeats a byte. */
  lemma {:induction false} SplitKeepsBytes(ws: seq<Weight>, bucketSize: nat)
    requires 0 < bucketSize
    ensures ChunkBytes(Split(ws, bucketSize), |Split(ws, bucketSize)|) == WeightBytes(ws)
  {
    if ws != [] {
      var first, rest := SplitFrom(ws[0], bucketSize, 0), Split(ws[1..], bucketSize);
      SplitKeepsBytes(ws[1..], bucketSize);
      SplitFromKeepsBytes(ws[0], bucketSize, 0);
      ChunkBytesAppend(first, rest, |first| + |rest|);
    }
  }

  /** The bound in terms of the weights: n buckets for `total` > 0 bytes have (n - 1) * B < 2 * total. */
  lemma WeightsPackTightly(ws: seq<Weight>, bucketSize: nat)
    requires 0 < bucketSize && 0 < WeightBytes(ws)
    ensures (|Buckets(Split(ws, bucketSize), bucketSize)| - 1) * bucketSize < 2 * WeightBytes(ws)
  {
    SplitKeepsBytes(ws, bucketSize);
    SplitIsWellSized(ws, bucketSize);
    PackingBound(Split(ws, bucketSize), bucketSize);
  }

  // ------------------------------------------------------------- the send loop

  lemma {:induction false} ClosedOnlyGrows(chunks: seq<Chunk>, n: nat, m: nat, bucketSize: nat)
    requires n <= m <= |chunks|
    ensures PackPrefix(chunks, n, bucketSize).closed <= PackPrefix(chunks, m, bucketSize).closed
    decreases m - n
  {
    if n < m {
      ClosedOnlyGrows(chunks, n, m - 1, bucketSize);
    }
  }

  /** The fill loop of `send_weights` with its two swapped buffers.  `sent` records each
      bucket as it is handed to a transfer, read from the buffer at that moment. */
  method SendLoop(chunks: seq<Chunk>, bucketSize: nat, first: array<byte>, second: array<byte>)
    returns (sent: seq<Bucket>)
    requires WellSized(chunks, bucketSize) && FullUnlessLast(chunks, bucketSize)
    requires first != second && first.Length == second.Length == bucketSize
    modifies first, second
    ensures sent == Buckets(chunks, bucketSize)
  {
    var sendBuf, recvBuf := first, second;
    var bucketMeta: seq<Placed> := [];
    var offset: nat := 0;
    sent := [];
    for i := 0 to |chunks|
      invariant {sendBuf, recvBuf} == {first, second} && sendBuf != recvBuf
      invariant offset <= bucketSize
      invariant PackPrefix(chunks, i, bucketSize) == Packing(sent, Bucket(bucketMeta, sendBuf[..offset]))
    {
      var c := chunks[i];
      OpenNamesAreDistinct(chunks, i + 1, bucketSize);
      if offset + c.meta.chunkSize > bucketSize {
        sent := sent + [Bucket(bucketMeta, sendBuf[..offset])];
        sendBuf, recvBuf := recvBuf, sendBuf;
        bucketMeta := [];
        offset := 0;
      }
      assert offset + c.meta.chunkSize <= bucketSize;
      assert NotYetIn(bucketMeta, c.meta.name) by {
        var b := PackPrefix(chunks, i + 1, bucketSize).open;
        assert b.metas == bucketMeta + [Placed(c.meta, offset)];
        forall k | 0 <= k < |bucketMeta| ensures bucketMeta[k].meta.name != c.meta.name {
          assert b.metas[k] == bucketMeta[k] && b.metas[|bucketMeta|].meta == c.meta;
        }
      }
      bucketMeta := bucketMeta + [Placed(c.meta, offset)];
      ghost var filled := sendBuf[..offset];
      CopyInto(sendBuf, offset, c.data);
      offset := offset + c.meta.chunkSize;
      assert sendBuf[..offset] == filled + c.data;
    }
    sent := sent + [Bucket(bucketMeta, sendBuf[..offset])];
  }

  /** The assertion `tensor_meta.name not in bucket_meta`. */
  predicate NotYetIn(metas: seq<Placed>, name: string) {
    forall k :: 0 <= k < |metas| ==> metas[k].meta.name != name
  }

  /** The yield loop of a receiver over one received buffer. */
  method YieldBucket(b: Bucket, sendBuf: array<byte>) returns (chunks: seq<Arrived>)
    requires Tiles(b) && SlicesOf(b, sendBuf[..])
    ensures chunks == Unpack(b)
  {
    chunks := [];
    for i := 0 to |b.metas|
      invariant chunks == Unpack(b)[..i]
    {
      SliceOfBuffer(b, sendBuf[..], i);
      chunks := chunks + [Slice(sendBuf[..], b.metas[i])];
    }
  }

  // ------------------------------------------------------------ round trip

  /** Every weight that fits one bucket is placed at a multiple of its item size. */
  predicate WellPlaced(chunks: seq<Chunk>, bucketSize: nat) {
    forall i :: 0 <= i < |chunks| ==> Aligned(chunks[i].meta, PlaceOf(chunks, i, bucketSize), bucketSize)
  }

  /** Splitting, packing at offsets, slicing back out and merging, for weights of any sizes:
      - no assertion fires, and every bucket names a weight at most once;
      - the weights that have bytes come back, in order, if and only if packing happens to
        place every weight that fits one bucket at a multiple of its item size; otherwise
        viewing the first that is not as its dtype raises;
      - the whole list comes back if moreover no weight is empty. */
  lemma WeightRoundTrip(ws: seq<Weight>, bucketSize: nat)
    requires 0 < bucketSize && AreTensors(ws)
    ensures WellSized(Split(ws, bucketSize), bucketSize)
    ensures GoodBuckets(Buckets(Split(ws, bucketSize), bucketSize), bucketSize)
    ensures AllTile(Buckets(Split(ws, bucketSize), bucketSize))
    ensures var sent := Buckets(Split(ws, bucketSize), bucketSize);
            var merged := Merge(UnpackAll(sent, |sent|), bucketSize);
            var placed := WellPlaced(Split(ws, bucketSize), bucketSize);
            && merged == (if placed then Ok(NonEmpty(ws)) else Err(Misaligned))
            && (merged == Ok(ws) <==> placed && forall i :: 0 <= i < |ws| ==> ws[i].bytes != [])
    ensures DistinctNames(ws) ==>
              forall b :: b in Buckets(Split(ws, bucketSize), bucketSize) ==> DistinctMetas(b)
  {
    var chunks := Split(ws, bucketSize);
    SplitIsWellSized(ws, bucketSize);
    BucketsAreGood(chunks, bucketSize);
    MergeOfPlaced(ws, bucketSize);
    NonEmptyKeepsAll(ws);
    if DistinctNames(ws) {
      NamesNeverCollide(chunks, |chunks|, bucketSize);
    }
  }

  lemma MergeOfPlaced(ws: seq<Weight>, bucketSize: nat)
    requires 0 < bucketSize && AreTensors(ws)
    ensures var chunks := Split(ws, bucketSize);
            && WellSized(chunks, bucketSize) && AllTile(Buckets(chunks, bucketSize))
            && Merge(UnpackAll(Buckets(chunks, bucketSize), |Buckets(chunks, bucketSize)|), bucketSize)
               == if WellPlaced(chunks, bucketSize) then Ok(NonEmpty(ws)) else Err(Misaligned)
  {
    var chunks := Split(ws, bucketSize);
    SplitIsWellSized(ws, bucketSize);
    UnpackUndoesPack(chunks, bucketSize);
    var xs := PlacedChunks(chunks, |chunks|, bucketSize);
    MergeNeedsAlignment(ws, xs, bucketSize);
    assert AllAligned(xs, bucketSize) <==> WellPlaced(chunks, bucketSize) by {
      assert forall i :: 0 <= i < |chunks| ==>
          xs[i].chunk.meta == chunks[i].meta && xs[i].at == PlaceOf(chunks, i, bucketSize);
    }
  }

  // --------------------------------------------- when every weight is well placed

  /** Every weight is a whole number of units of d bytes, and every item size divides d. */
  predicate UnitOf(d: Positive, ws: seq<Weight>) {
    forall i :: 0 <= i < |ws| ==> |ws[i].bytes| % d == 0 && d % ws[i].dtype.itemsize == 0
  }

  predicate NoneIsLarge(ws: seq<Weight>, bucketSize: nat) {
    forall i :: 0 <= i < |ws| ==> |ws[i].bytes| <= bucketSize
  }

  predicate InUnits(d: Positive, chunks: seq<Chunk>) {
    forall i :: 0 <= i < |chunks| ==> chunks[i].meta.chunkSize % d == 0 && d % chunks[i].meta.dtype.itemsize == 0
  }

  lemma {:induction false} SplitFromInUnits(d: Positive, w: Weight, bucketSize: nat, from: nat)
    requires 0 < bucketSize && from <= |w.bytes| && |w.bytes| % d == 0 && from % d == 0 && d % w.dtype.itemsize == 0
    requires bucketSize % d == 0 || |w.bytes| <= bucketSize
    requires |w.bytes| <= bucketSize ==> from == 0 || from == |w.bytes|
    ensures InUnits(d, SplitFrom(w, bucketSize, from))
    decreases |w.bytes| - from
  {
    if from < |w.bytes| {
      var size := ChunkAt(w, bucketSize, from).meta.chunkSize;
      if size != bucketSize {
        ModOfDifference(|w.bytes|, from, d);
      }
      ModOfSum(from, size, d);
      SplitFromInUnits(d, w, bucketSize, from + size);
    }
  }

  lemma {:induction false} SplitInUnits(d: Positive, ws: seq<Weight>, bucketSize: nat)
    requires 0 < bucketSize && UnitOf(d, ws) && (bucketSize % d == 0 || NoneIsLarge(ws, bucketSize))
    ensures InUnits(d, Split(ws, bucketSize))
  {
    if ws != [] {
      SplitFromInUnits(d, ws[0], bucketSize, 0);
      SplitInUnits(d, ws[1..], bucketSize);
    }
  }

  lemma {:induction false} FilledInUnits(d: Positive, chunks: seq<Chunk>, n: nat, bucketSize: nat)
    requires InUnits(d, chunks) && n <= |chunks|
    ensures Filled(chunks, n, bucketSize) % d == 0
    ensures n < |chunks| ==> PlaceOf(chunks, n, bucketSize) % d == 0
  {
    if n > 0 {
      FilledInUnits(d, chunks, n - 1, bucketSize);
      FilledStep(d, PlaceOf(chunks, n - 1, bucketSize), chunks[n - 1].meta.chunkSize, Filled(chunks, n, bucketSize));
    }
    PlaceStep(d, chunks, n, bucketSize);
  }

  lemma FilledStep(d: Positive, place: nat, size: nat, filled: nat)
    requires place % d == 0 && size % d == 0 && filled == place + size
    ensures filled % d == 0
  {
    ModOfSum(place, size, d);
  }

  lemma PlaceStep(d: Positive, chunks: seq<Chunk>, n: nat, bucketSize: nat)
    requires n <= |chunks| && Filled(chunks, n, bucketSize) % d == 0
    ensures n < |chunks| ==> PlaceOf(chunks, n, bucketSize) % d == 0
  {
  }

  /** A condition on the weights alone: with a unit d that every weight is made of, every item
      size divides, and the bucket size is a multiple of unless no weight needs two buckets,
      every weight that fits one bucket is well placed. */
  lemma UnitsAreWellPlaced(d: Positive, ws: seq<Weight>, bucketSize: nat)
    requires 0 < bucketSize && UnitOf(d, ws) && (bucketSize % d == 0 || NoneIsLarge(ws, bucketSize))
    ensures WellPlaced(Split(ws, bucketSize), bucketSize)
  {
    var chunks := Split(ws, bucketSize);
    SplitInUnits(d, ws, bucketSize);
    forall i | 0 <= i < |chunks| ensures Aligned(chunks[i].meta, PlaceOf(chunks, i, bucketSize), bucketSize) {
      FilledInUnits(d, chunks, i, bucketSize);
      ModOfMultiple(PlaceOf(chunks, i, bucketSize), d, chunks[i].meta.dtype.itemsize);
    }
  }

  /** In particular: weights of one dtype, with a bucket size its item size divides. */
  lemma OneDtypeIsWellPlaced(dtype: Dtype, ws: seq<Weight>, bucketSize: nat)
    requires 0 < bucketSize && AreTensors(ws) && (forall i :: 0 <= i < |ws| ==> ws[i].dtype == dtype)
    requires bucketSize % dtype.itemsize == 0 || NoneIsLarge(ws, bucketSize)
    ensures WellPlaced(Split(ws, bucketSize), bucketSize)
  {
    forall i | 0 <= i < |ws| ensures |ws[i].bytes| % dtype.itemsize == 0 {
      DivOfMultiple(dtype.itemsize, Numel(ws[i].shape));
      assert IsTensor(ws[i]);
    }
    ModOfItself(dtype.itemsize);
    UnitsAreWellPlaced(dtype.itemsize, ws, bucketSize);
  }

  // ------------------------------------------------- a weight that is misplaced

  function TwoBytes(a: byte, b: byte): Weight {
    Weight("a", [1], Dtype("bfloat16", 2), [a, b])
  }

  function FourBytes(a: byte, b: byte): Weight {
    Weight("b", [1], Dtype("float32", 4), [a, b, a, b])
  }

  lemma ElementsOfOne()
    ensures Numel([1]) == 1
  {
    assert Numel([1][1..]) == 1;
  }

  lemma SplitOfWhole(w: Weight, bucketSize: nat)
    requires 0 < |w.bytes| <= bucketSize
    ensures SplitFrom(w, bucketSize, 0) == [ChunkAt(w, bucketSize, 0)]
  {
    assert SplitFrom(w, bucketSize, |w.bytes|) == [];
  }

  lemma SplitOfTwo(v: Weight, w: Weight, bucketSize: nat)
    requires 0 < |v.bytes| <= bucketSize && 0 < |w.bytes| <= bucketSize
    ensures Split([v, w], bucketSize) == [ChunkAt(v, bucketSize, 0), ChunkAt(w, bucketSize, 0)]
  {
    SplitOfWhole(v, bucketSize);
    SplitOfWhole(w, bucketSize);
    assert [v, w][1..] == [w] && [w][1..] == [];
    assert Split([w], bucketSize) == [ChunkAt(w, bucketSize, 0)];
  }

  lemma PackingOfTwo(x: Chunk, y: Chunk, bucketSize: nat)
    requires |x.data| == x.meta.chunkSize && x.meta.chunkSize + y.meta.chunkSize <= bucketSize
    ensures PackPrefix([x, y], 2, bucketSize) == Packing([], Put(Put(EMPTY_BUCKET, x), y))
    ensures PlaceOf([x, y], 1, bucketSize) == x.meta.chunkSize
  {
    assert PackPrefix([x, y], 1, bucketSize) == Packing([], Put(EMPTY_BUCKET, x));
    assert PlaceOf([x, y], 0, bucketSize) == 0;
    assert Filled([x, y], 1, bucketSize) == x.meta.chunkSize;
  }

  /** Two dtypes in one bucket can fail: a 2-byte weight pushes a 4-byte one to offset 2, and the
      receiver cannot view it, although both fit one bucket. */
  lemma MixedDtypesAreMisplaced(a: byte, b: byte)
    ensures var ws := [TwoBytes(a, b), FourBytes(a, b)];
            && AreTensors(ws) && DistinctNames(ws)
            && AllTile(Buckets(Split(ws, 6), 6)) && |Buckets(Split(ws, 6), 6)| == 1
            && Merge(UnpackAll(Buckets(Split(ws, 6), 6), 1), 6) == Err(Misaligned)
  {
    var ws := [TwoBytes(a, b), FourBytes(a, b)];
    var x, y := ChunkAt(ws[0], 6, 0), ChunkAt(ws[1], 6, 0);
    ElementsOfOne();
    SplitOfTwo(ws[0], ws[1], 6);
    PackingOfTwo(x, y, 6);
    MergeOfPlaced(ws, 6);
    assert !Aligned([x, y][1].meta, 2, 6);
  }
}
