/** Cutting named weights into chunks of at most one bucket, and putting them
    back together (verl/verl/checkpoint_engine/base.py). */
module WeightChunks {
  import opened Prelude

  newtype byte = x: int | 0 <= x < 256

  datatype Dtype = Dtype(name: string, itemsize: Positive)

  /** A named tensor; `bytes` is its flattened content seen as uint8. */
  datatype Weight = Weight(name: string, shape: seq<nat>, dtype: Dtype, bytes: seq<byte>)

  function Nbytes(shape: seq<nat>, dtype: Dtype): nat {
    Numel(shape) * dtype.itemsize
  }

  predicate IsTensor(w: Weight) {
    |w.bytes| == Nbytes(w.shape, w.dtype)
  }

  predicate AreTensors(ws: seq<Weight>) {
    forall i :: 0 <= i < |ws| ==> IsTensor(ws[i])
  }

  predicate DistinctNames(ws: seq<Weight>) {
    forall i, j :: 0 <= i < j < |ws| ==> ws[i].name != ws[j].name
  }

  /** TensorMeta without its `offset` field, which is only filled in by packing. */
  datatype ChunkMeta = ChunkMeta(name: string, shape: seq<nat>, dtype: Dtype, chunkOffset: nat, chunkSize: nat)

  datatype Chunk = Chunk(meta: ChunkMeta, data: seq<byte>)

  // ---------------------------------------------------------------- splitting

  function ChunkAt(w: Weight, bucketSize: nat, from: nat): Chunk
    requires from < |w.bytes|
  {
    var size := Min(bucketSize, |w.bytes| - from);
    Chunk(ChunkMeta(w.name, w.shape, w.dtype, from, size), w.bytes[from..from + size])
  }

  /** The chunks that cover `w` from byte `from` on. */
  function SplitFrom(w: Weight, bucketSize: nat, from: nat): seq<Chunk>
    requires 0 < bucketSize && from <= |w.bytes|
    decreases |w.bytes| - from
  {
    if from == |w.bytes| then []
    else
      var c := ChunkAt(w, bucketSize, from);
      [c] + SplitFrom(w, bucketSize, from + c.meta.chunkSize)
  }

  function Split(ws: seq<Weight>, bucketSize: nat): seq<Chunk>
    requires 0 < bucketSize
  {
    if ws == [] then [] else SplitFrom(ws[0], bucketSize, 0) + Split(ws[1..], bucketSize)
  }

  lemma {:induction false} SplitAppend(ws: seq<Weight>, w: Weight, bucketSize: nat)
    requires 0 < bucketSize
    ensures Split(ws + [w], bucketSize) == Split(ws, bucketSize) + SplitFrom(w, bucketSize, 0)
  {
    if ws == [] {
      assert ws + [w] == [w];
      assert Split([w], bucketSize) == SplitFrom(w, bucketSize, 0) + Split([w][1..], bucketSize);
    } else {
      assert (ws + [w])[1..] == ws[1..] + [w];
      SplitAppend(ws[1..], w, bucketSize);
    }
  }

  /** `split_weight_chunks`, with the generator's yields collected in order. */
  method SplitWeightChunks(weights: seq<Weight>, bucketSize: nat) returns (chunks: seq<Chunk>)
    requires 0 < bucketSize
    ensures chunks == Split(weights, bucketSize)
  {
    chunks := [];
    for i := 0 to |weights|
      invariant chunks == Split(weights[..i], bucketSize)
    {
      var w := weights[i];
      ghost var before := chunks;
      var chunkOffset := 0;
      while chunkOffset < |w.bytes|
        invariant 0 <= chunkOffset <= |w.bytes|
        invariant chunks + SplitFrom(w, bucketSize, chunkOffset) == before + SplitFrom(w, bucketSize, 0)
      {
        var c := ChunkAt(w, bucketSize, chunkOffset);
        chunks := chunks + [c];
        chunkOffset := chunkOffset + c.meta.chunkSize;
      }
      SplitAppend(weights[..i], w, bucketSize);
      assert weights[..i + 1] == weights[..i] + [w];
    }
    assert weights[..|weights|] == weights;
  }

  /** What packing and merging rely on: sizes are right, and a chunk that is not the
      last of its weight fills a whole bucket. */
  predicate WellSized(chunks: seq<Chunk>, bucketSize: nat) {
    forall i :: 0 <= i < |chunks| ==>
                  |chunks[i].data| == chunks[i].meta.chunkSize && 0 < chunks[i].meta.chunkSize <= bucketSize
  }

  predicate FullUnlessLast(chunks: seq<Chunk>, bucketSize: nat) {
    forall i, j :: 0 <= i < j < |chunks| && chunks[i].meta.name == chunks[j].meta.name
                   ==> chunks[i].meta.chunkSize == bucketSize
  }

  lemma {:induction false} SplitFromIsWellSized(w: Weight, bucketSize: nat, from: nat)
    requires 0 < bucketSize && from <= |w.bytes|
    ensures WellSized(SplitFrom(w, bucketSize, from), bucketSize)
    ensures FullUnlessLast(SplitFrom(w, bucketSize, from), bucketSize)
    ensures forall i :: 0 <= i < |SplitFrom(w, bucketSize, from)| ==>
              SplitFrom(w, bucketSize, from)[i].meta.name == w.name
    decreases |w.bytes| - from
  {
    if from < |w.bytes| {
      SplitFromIsWellSized(w, bucketSize, from + ChunkAt(w, bucketSize, from).meta.chunkSize);
    }
  }

  predicate Named(ws: seq<Weight>, name: string) {
    exists k :: 0 <= k < |ws| && ws[k].name == name
  }

  lemma {:induction false} SplitNames(ws: seq<Weight>, bucketSize: nat, i: nat)
    requires 0 < bucketSize && i < |Split(ws, bucketSize)|
    ensures Named(ws, Split(ws, bucketSize)[i].meta.name)
    decreases |ws|
  {
    SplitFromIsWellSized(ws[0], bucketSize, 0);
    var n := |SplitFrom(ws[0], bucketSize, 0)|;
    if n <= i {
      SplitNames(ws[1..], bucketSize, i - n);
      var k :| 0 <= k < |ws[1..]| && ws[1..][k].name == Split(ws[1..], bucketSize)[i - n].meta.name;
      assert ws[k + 1].name == Split(ws, bucketSize)[i].meta.name;
    }
  }

  lemma {:induction false} SplitIsWellSized(ws: seq<Weight>, bucketSize: nat)
    requires 0 < bucketSize
    ensures WellSized(Split(ws, bucketSize), bucketSize)
    ensures DistinctNames(ws) ==> FullUnlessLast(Split(ws, bucketSize), bucketSize)
  {
    if ws != [] {
      SplitFromIsWellSized(ws[0], bucketSize, 0);
      SplitIsWellSized(ws[1..], bucketSize);
      var first, rest := SplitFrom(ws[0], bucketSize, 0), Split(ws[1..], bucketSize);
      if DistinctNames(ws) {
        forall i, j | 0 <= i < |first| && 0 <= j < |rest| ensures first[i].meta.name != rest[j].meta.name {
          SplitNames(ws[1..], bucketSize, j);
        }
        FullUnlessLastOfConcat(first, rest, bucketSize);
      }
    }
  }

  lemma FullUnlessLastOfConcat(xs: seq<Chunk>, ys: seq<Chunk>, bucketSize: nat)
    requires FullUnlessLast(xs, bucketSize) && FullUnlessLast(ys, bucketSize)
    requires forall i, j :: 0 <= i < |xs| && 0 <= j < |ys| ==> xs[i].meta.name != ys[j].meta.name
    ensures FullUnlessLast(xs + ys, bucketSize)
  {
  }

  // ------------------------------------------------------------------ merging

  /** A chunk as a consumer gets it: a uint8 tensor that begins `at` bytes into its storage. */
  datatype Arrived = Arrived(chunk: Chunk, at: nat)

  function Chunks(xs: seq<Arrived>): (r: seq<Chunk>)
    ensures |r| == |xs| && forall i :: 0 <= i < |xs| ==> r[i] == xs[i].chunk
  {
    seq(|xs|, i requires 0 <= i < |xs| => xs[i].chunk)
  }

  /** Fresh from splitting: each chunk is a slice of its own weight. */
  function InPlace(chunks: seq<Chunk>): (r: seq<Arrived>)
    ensures Chunks(r) == chunks && forall i :: 0 <= i < |r| ==> r[i].at == chunks[i].meta.chunkOffset
  {
    var r := seq(|chunks|, i requires 0 <= i < |chunks| => Arrived(chunks[i], chunks[i].meta.chunkOffset));
    assert Chunks(r) == chunks;
    r
  }

  datatype MergeError =
    | WeightNotNone | OffsetNotZero | NameMismatch | OffsetMismatch | SizeMismatch | ShapeChanged | Misaligned

  predicate Small(m: ChunkMeta, bucketSize: nat) {
    Nbytes(m.shape, m.dtype) <= bucketSize
  }

  /** What viewing uint8 memory as a wider dtype demands: a weight that fits one bucket is not
      copied, so its slice must start at a multiple of the item size. */
  predicate Aligned(m: ChunkMeta, at: nat, bucketSize: nat) {
    Small(m, bucketSize) ==> at % m.dtype.itemsize == 0
  }

  predicate AllAligned(xs: seq<Arrived>, bucketSize: nat) {
    forall i :: 0 <= i < |xs| ==> Aligned(xs[i].chunk.meta, xs[i].at, bucketSize)
  }

  /** `merge_weight` and its companions; `received` is the written part of merge_buffer. */
  datatype Partial = Idle | Merging(name: string, shape: seq<nat>, dtype: Dtype, received: seq<byte>)

  datatype MergeState = MergeState(yielded: seq<Weight>, partial: Partial)

  /** The loop body.  A stream that changes the shape of a weight half way would make the
      loop yield memory it never wrote; it has no check for that, the model reports it. */
  function MergeStep(st: MergeState, x: Arrived, bucketSize: nat): Result<MergeState, MergeError> {
    var c := x.chunk;
    var nbytes := Nbytes(c.meta.shape, c.meta.dtype);
    if nbytes <= bucketSize then
      if st.partial != Idle then Err(WeightNotNone)
      else if |c.data| != nbytes then Err(SizeMismatch)
      else if x.at % c.meta.dtype.itemsize != 0 then Err(Misaligned)
      else Ok(st.(yielded := st.yielded + [Weight(c.meta.name, c.meta.shape, c.meta.dtype, c.data)]))
    else if st.partial == Idle && c.meta.chunkOffset != 0 then Err(OffsetNotZero)
    else
      var p := if st.partial == Idle then Merging(c.meta.name, c.meta.shape, c.meta.dtype, []) else st.partial;
      if c.meta.name != p.name then Err(NameMismatch)
      else if (c.meta.shape, c.meta.dtype) != (p.shape, p.dtype) then Err(ShapeChanged)
      else if |p.received| != c.meta.chunkOffset then Err(OffsetMismatch)
      else if |c.data| != c.meta.chunkSize || |p.received| + |c.data| > nbytes then Err(SizeMismatch)
      else if c.meta.chunkOffset + c.meta.chunkSize == nbytes then
        Ok(MergeState(st.yielded + [Weight(p.name, p.shape, p.dtype, p.received + c.data)], Idle))
      else
        Ok(st.(partial := p.(received := p.received + c.data)))
  }

  function MergeAll(st: MergeState, xs: seq<Arrived>, bucketSize: nat): Result<MergeState, MergeError>
    decreases |xs|
  {
    if xs == [] then Ok(st)
    else
      match MergeStep(st, xs[0], bucketSize)
      case Err(e) => Err(e)
      case Ok(st') => MergeAll(st', xs[1..], bucketSize)
  }

  const MERGE_START: MergeState := MergeState([], Idle)

  /** What a consumer of `merge_weight_chunks` receives, or what is raised. */
  function Merge(xs: seq<Arrived>, bucketSize: nat): Result<seq<Weight>, MergeError> {
    match MergeAll(MERGE_START, xs, bucketSize)
    case Err(e) => Err(e)
    case Ok(st) => Ok(st.yielded)
  }

  lemma {:induction false} MergeAllAppend(st: MergeState, xs: seq<Arrived>, ys: seq<Arrived>, bucketSize: nat)
    ensures MergeAll(st, xs + ys, bucketSize) ==
            match MergeAll(st, xs, bucketSize)
            case Err(e) => Err(e)
            case Ok(st') => MergeAll(st', ys, bucketSize)
    decreases |xs|
  {
    if xs == [] {
      assert xs + ys == ys;
    } else {
      assert (xs + ys)[1..] == xs[1..] + ys;
      match MergeStep(st, xs[0], bucketSize)
      case Err(_) =>
      case Ok(st') => MergeAllAppend(st', xs[1..], ys, bucketSize);
    }
  }

  /** A weight larger than a bucket: from byte `from` on, its remaining chunks complete it,
      wherever they lie. */
  lemma {:induction false} MergeRestOfLargeWeight(out: seq<Weight>, w: Weight, xs: seq<Arrived>, bucketSize: nat,
                                                  from: nat)
    requires 0 < bucketSize < |w.bytes| && IsTensor(w) && 0 < from < |w.bytes|
    requires Chunks(xs) == SplitFrom(w, bucketSize, from)
    ensures MergeAll(MergeState(out, Merging(w.name, w.shape, w.dtype, w.bytes[..from])), xs, bucketSize)
         == Ok(MergeState(out + [w], Idle))
    decreases |w.bytes| - from
  {
    var c := ChunkAt(w, bucketSize, from);
    var to := from + c.meta.chunkSize;
    assert w.bytes[..from] + c.data == w.bytes[..to];
    assert xs[0].chunk == Chunks(xs)[0] == c;
    assert Chunks(xs[1..]) == Chunks(xs)[1..] == SplitFrom(w, bucketSize, to);
    if to < |w.bytes| {
      MergeRestOfLargeWeight(out, w, xs[1..], bucketSize, to);
    } else {
      assert w.bytes[..to] == w.bytes;
    }
  }

  /** The chunks of one weight, wherever they lie in memory, give the weight, unless it fits one
      bucket and lies badly. */
  lemma {:induction false} MergeOneWeight(out: seq<Weight>, w: Weight, xs: seq<Arrived>, bucketSize: nat)
    requires 0 < bucketSize && IsTensor(w) && Chunks(xs) == SplitFrom(w, bucketSize, 0)
    ensures MergeAll(MergeState(out, Idle), xs, bucketSize) ==
            if AllAligned(xs, bucketSize) then Ok(MergeState(if w.bytes == [] then out else out + [w], Idle))
            else Err(Misaligned)
  {
    if w.bytes != [] {
      var c := ChunkAt(w, bucketSize, 0);
      assert xs[0].chunk == Chunks(xs)[0] == c;
      assert Chunks(xs[1..]) == Chunks(xs)[1..] == SplitFrom(w, bucketSize, c.meta.chunkSize);
      if |w.bytes| <= bucketSize {
        assert c.data == w.bytes;
        assert SplitFrom(w, bucketSize, |w.bytes|) == [];
        assert xs == [xs[0]];
      } else {
        assert [] + c.data == w.bytes[..bucketSize];
        MergeRestOfLargeWeight(out, w, xs[1..], bucketSize, bucketSize);
        LargeIsAligned(w, xs, bucketSize);
      }
    }
  }

  lemma {:induction false} ChunksCarryShape(w: Weight, bucketSize: nat, from: nat, i: nat)
    requires 0 < bucketSize && from <= |w.bytes| && i < |SplitFrom(w, bucketSize, from)|
    ensures var m := SplitFrom(w, bucketSize, from)[i].meta; m.shape == w.shape && m.dtype == w.dtype
    decreases i
  {
    if i > 0 {
      ChunksCarryShape(w, bucketSize, from + ChunkAt(w, bucketSize, from).meta.chunkSize, i - 1);
    }
  }

  lemma LargeIsAligned(w: Weight, xs: seq<Arrived>, bucketSize: nat)
    requires 0 < bucketSize < |w.bytes| && IsTensor(w) && Chunks(xs) == SplitFrom(w, bucketSize, 0)
    ensures AllAligned(xs, bucketSize)
  {
    forall i | 0 <= i < |xs| ensures Aligned(xs[i].chunk.meta, xs[i].at, bucketSize) {
      ChunksCarryShape(w, bucketSize, 0, i);
      assert xs[i].chunk == Chunks(xs)[i] == SplitFrom(w, bucketSize, 0)[i];
    }
  }

  /** The weights the split loop emits anything for. */
  function NonEmpty(ws: seq<Weight>): seq<Weight> {
    if ws == [] then [] else (if ws[0].bytes == [] then [] else [ws[0]]) + NonEmpty(ws[1..])
  }

  lemma {:induction false} NonEmptyKeepsAll(ws: seq<Weight>)
    ensures |NonEmpty(ws)| <= |ws|
    ensures NonEmpty(ws) == ws <==> forall i :: 0 <= i < |ws| ==> ws[i].bytes != []
  {
    if ws != [] {
      NonEmptyKeepsAll(ws[1..]);
      assert ws == [ws[0]] + ws[1..];
      if ws[0].bytes != [] {
        assert NonEmpty(ws) == [ws[0]] + NonEmpty(ws[1..]);
        assert NonEmpty(ws) == ws <==> NonEmpty(ws[1..]) == ws[1..] by {
          if NonEmpty(ws) == ws {
            assert NonEmpty(ws)[1..] == NonEmpty(ws[1..]);
          }
        }
        if forall i :: 0 <= i < |ws[1..]| ==> ws[1..][i].bytes != [] {
          forall i | 0 <= i < |ws| ensures ws[i].bytes != [] {
            if i > 0 { assert ws[i] == ws[1..][i - 1]; }
          }
        }
      } else {
        assert NonEmpty(ws) == NonEmpty(ws[1..]);
      }
    }
  }

  lemma {:induction false} MergeAllOfSplit(out: seq<Weight>, ws: seq<Weight>, xs: seq<Arrived>, bucketSize: nat)
    requires 0 < bucketSize && AreTensors(ws) && Chunks(xs) == Split(ws, bucketSize)
    ensures MergeAll(MergeState(out, Idle), xs, bucketSize) ==
            if AllAligned(xs, bucketSize) then Ok(MergeState(out + NonEmpty(ws), Idle)) else Err(Misaligned)
    decreases |ws|
  {
    if ws == [] {
      assert out + NonEmpty(ws) == out;
    } else {
      var n := |SplitFrom(ws[0], bucketSize, 0)|;
      var first, rest := xs[..n], xs[n..];
      assert xs == first + rest;
      assert Chunks(first) == Chunks(xs)[..n] == SplitFrom(ws[0], bucketSize, 0);
      assert Chunks(rest) == Chunks(xs)[n..] == Split(ws[1..], bucketSize);
      AlignedInParts(first, rest, bucketSize);
      MergeOneWeight(out, ws[0], first, bucketSize);
      MergeAllAppend(MergeState(out, Idle), first, rest, bucketSize);
      var out' := if ws[0].bytes == [] then out else out + [ws[0]];
      MergeAllOfSplit(out', ws[1..], rest, bucketSize);
      NonEmptyStep(out, ws);
    }
  }

  lemma AlignedInParts(xs: seq<Arrived>, ys: seq<Arrived>, bucketSize: nat)
    ensures AllAligned(xs + ys, bucketSize) <==> AllAligned(xs, bucketSize) && AllAligned(ys, bucketSize)
  {
    var all := xs + ys;
    assert forall i :: 0 <= i < |xs| ==> xs[i] == all[i];
    assert forall i :: 0 <= i < |ys| ==> ys[i] == all[|xs| + i];
  }

  lemma NonEmptyStep(out: seq<Weight>, ws: seq<Weight>)
    requires ws != []
    ensures (if ws[0].bytes == [] then out else out + [ws[0]]) + NonEmpty(ws[1..]) == out + NonEmpty(ws)
  {
    var rest := NonEmpty(ws[1..]);
    if ws[0].bytes == [] {
      assert NonEmpty(ws) == rest;
    } else {
      assert NonEmpty(ws) == [ws[0]] + rest;
      assert out + [ws[0]] + rest == out + ([ws[0]] + rest);
    }
  }

  /** Wherever the chunks of a split come to lie in memory, merging them gives the weights that
      have bytes, in order, if and only if every weight that fits one bucket lies at a multiple
      of its item size; otherwise the view of the first that does not is refused. */
  lemma MergeNeedsAlignment(ws: seq<Weight>, xs: seq<Arrived>, bucketSize: nat)
    requires 0 < bucketSize && AreTensors(ws) && Chunks(xs) == Split(ws, bucketSize)
    ensures Merge(xs, bucketSize) == if AllAligned(xs, bucketSize) then Ok(NonEmpty(ws)) else Err(Misaligned)
  {
    MergeAllOfSplit([], ws, xs, bucketSize);
    assert [] + NonEmpty(ws) == NonEmpty(ws);
  }

  /** A weight that fits one bucket is a single chunk, which starts with the weight. */
  lemma {:induction false} SmallIsOneChunk(ws: seq<Weight>, bucketSize: nat, i: nat)
    requires 0 < bucketSize && AreTensors(ws) && i < |Split(ws, bucketSize)|
    ensures var m := Split(ws, bucketSize)[i].meta; Small(m, bucketSize) ==> m.chunkOffset == 0
    decreases |ws|
  {
    var first := SplitFrom(ws[0], bucketSize, 0);
    if |first| <= i {
      SmallIsOneChunk(ws[1..], bucketSize, i - |first|);
    } else {
      ChunksCarryShape(ws[0], bucketSize, 0, i);
      if |ws[0].bytes| <= bucketSize {
        assert SplitFrom(ws[0], bucketSize, |ws[0].bytes|) == [];
      }
    }
  }

  lemma InPlaceIsAligned(ws: seq<Weight>, bucketSize: nat)
    requires 0 < bucketSize && AreTensors(ws)
    ensures AllAligned(InPlace(Split(ws, bucketSize)), bucketSize)
  {
    var xs := InPlace(Split(ws, bucketSize));
    forall i | 0 <= i < |xs| ensures Aligned(xs[i].chunk.meta, xs[i].at, bucketSize) {
      SmallIsOneChunk(ws, bucketSize, i);
      var chunk := Chunks(xs)[i];
      StartIsAligned(chunk.meta, bucketSize);
    }
  }

  lemma StartIsAligned(m: ChunkMeta, bucketSize: nat)
    requires Small(m, bucketSize) ==> m.chunkOffset == 0
    ensures Aligned(m, m.chunkOffset, bucketSize)
  {
  }

  /** Merging undoes splitting: nothing is raised, and exactly the weights that have
      bytes come back, in order.  The list survives whole if and only if none is empty. */
  lemma MergeUndoesSplit(ws: seq<Weight>, bucketSize: nat)
    requires 0 < bucketSize && AreTensors(ws)
    ensures var merged := Merge(InPlace(Split(ws, bucketSize)), bucketSize);
            && merged == Ok(NonEmpty(ws))
            && (merged == Ok(ws) <==> forall i :: 0 <= i < |ws| ==> ws[i].bytes != [])
  {
    InPlaceIsAligned(ws, bucketSize);
    MergeNeedsAlignment(ws, InPlace(Split(ws, bucketSize)), bucketSize);
    NonEmptyKeepsAll(ws);
  }

  // ---------------------------------------------- merging a stream that goes on

  lemma {:induction false} YieldedOnlyGrows(st: MergeState, xs: seq<Arrived>, bucketSize: nat)
    requires MergeAll(st, xs, bucketSize).Ok?
    ensures st.yielded <= MergeAll(st, xs, bucketSize).value.yielded
    decreases |xs|
  {
    if xs != [] {
      YieldedOnlyGrows(MergeStep(st, xs[0], bucketSize).value, xs[1..], bucketSize);
    }
  }

  /** A part of the stream that is aligned, continued with chunks in place. */
  lemma AlignedPrefix(ws: seq<Weight>, xs: seq<Arrived>, n: nat, bucketSize: nat)
    requires 0 < bucketSize && AreTensors(ws) && Chunks(xs) == Split(ws, bucketSize) && n <= |xs|
    requires AllAligned(xs[..n], bucketSize)
    ensures var rest := InPlace(Split(ws, bucketSize))[n..];
            var merged := MergeAll(MERGE_START, xs[..n], bucketSize);
            && merged.Ok? && MergeAll(merged.value, rest, bucketSize) == Ok(MergeState(NonEmpty(ws), Idle))
  {
    var twins := InPlace(Split(ws, bucketSize));
    var mixed := xs[..n] + twins[n..];
    InPlaceIsAligned(ws, bucketSize);
    AlignedInParts(twins[..n], twins[n..], bucketSize);
    assert twins == twins[..n] + twins[n..];
    AlignedInParts(xs[..n], twins[n..], bucketSize);
    assert Chunks(mixed) == Split(ws, bucketSize);
    MergeAllOfSplit([], ws, mixed, bucketSize);
    assert [] + NonEmpty(ws) == NonEmpty(ws);
    MergeAllAppend(MERGE_START, xs[..n], twins[n..], bucketSize);
  }

  /** A chunk that would merge if it lay in place, but lies badly, is refused. */
  lemma MisalignedStep(st: MergeState, x: Arrived, twin: Arrived, bucketSize: nat)
    requires x.chunk == twin.chunk && MergeStep(st, twin, bucketSize).Ok? && !Aligned(x.chunk.meta, x.at, bucketSize)
    ensures MergeStep(st, x, bucketSize) == Err(Misaligned)
  {
  }

  lemma MisalignedPrefix(ws: seq<Weight>, xs: seq<Arrived>, m: nat, bucketSize: nat)
    requires 0 < bucketSize && AreTensors(ws) && Chunks(xs) == Split(ws, bucketSize) && m < |xs|
    requires AllAligned(xs[..m], bucketSize) && !Aligned(xs[m].chunk.meta, xs[m].at, bucketSize)
    ensures MergeAll(MERGE_START, xs[..m] + [xs[m]], bucketSize) == Err(Misaligned)
  {
    var twins := InPlace(Split(ws, bucketSize));
    AlignedPrefix(ws, xs, m, bucketSize);
    var st := MergeAll(MERGE_START, xs[..m], bucketSize).value;
    assert twins[m..][0] == twins[m] && xs[m].chunk == Chunks(xs)[m] && twins[m].chunk == Chunks(twins)[m];
    MisalignedStep(st, xs[m], twins[m], bucketSize);
    MergeAllAppend(MERGE_START, xs[..m], [xs[m]], bucketSize);
  }

  /** At every point of the stream the weights given so far are a prefix of the list, unless one
      has come that fits one bucket and lies badly: its view was refused. */
  lemma MergeOfPrefix(ws: seq<Weight>, xs: seq<Arrived>, n: nat, bucketSize: nat)
    requires 0 < bucketSize && AreTensors(ws) && Chunks(xs) == Split(ws, bucketSize) && n <= |xs|
    ensures var merged := Merge(xs[..n], bucketSize);
            if AllAligned(xs[..n], bucketSize) then merged.Ok? && merged.value <= NonEmpty(ws)
            else merged == Err(Misaligned)
  {
    if AllAligned(xs[..n], bucketSize) {
      AlignedPrefix(ws, xs, n, bucketSize);
      YieldedOnlyGrows(MergeAll(MERGE_START, xs[..n], bucketSize).value,
                       InPlace(Split(ws, bucketSize))[n..], bucketSize);
    } else {
      var m := FirstMisaligned(xs[..n], bucketSize);
      assert xs[..n][..m] == xs[..m];
      MisalignedPrefix(ws, xs, m, bucketSize);
      MergeAllAppend(MERGE_START, xs[..m] + [xs[m]], xs[m + 1..n], bucketSize);
      assert xs[..n] == xs[..m] + [xs[m]] + xs[m + 1..n];
    }
  }

  lemma {:induction false} FirstMisaligned(xs: seq<Arrived>, bucketSize: nat) returns (m: nat)
    requires !AllAligned(xs, bucketSize)
    ensures m < |xs| && AllAligned(xs[..m], bucketSize) && !Aligned(xs[m].chunk.meta, xs[m].at, bucketSize)
    decreases |xs|
  {
    var front := xs[..|xs| - 1];
    if AllAligned(front, bucketSize) {
      m := |xs| - 1;
      assert xs == front + [xs[m]];
    } else {
      m := FirstMisaligned(front, bucketSize);
      assert front[..m] == xs[..m];
    }
  }

  /** `merge_weight_chunks`: the large-weight buffer is allocated once and written in place. */
  method MergeWeightChunks(chunks: seq<Arrived>, bucketSize: nat) returns (r: Result<seq<Weight>, MergeError>)
    ensures r == Merge(chunks, bucketSize)
  {
    var yielded: seq<Weight> := [];
    var busy := false;
    var mergeName, mergeShape, mergeDtype := "", [], Dtype("", 1);
    var mergeBuffer := new byte[0];
    var mergeOffset: nat := 0;
    ghost var st := MERGE_START;
    for i := 0 to |chunks|
      invariant MergeAll(MERGE_START, chunks, bucketSize) == MergeAll(st, chunks[i..], bucketSize)
      invariant fresh(mergeBuffer)
      invariant st.yielded == yielded
      invariant mergeOffset <= mergeBuffer.Length
      invariant busy ==> mergeBuffer.Length == Nbytes(mergeShape, mergeDtype)
      invariant st.partial ==
                  if busy then Merging(mergeName, mergeShape, mergeDtype, mergeBuffer[..mergeOffset]) else Idle
    {
      var x := chunks[i];
      var c := x.chunk;
      assert chunks[i..][0] == x && chunks[i..][1..] == chunks[i + 1..];
      assert MergeAll(st, chunks[i..], bucketSize) ==
             match MergeStep(st, x, bucketSize)
             case Err(e) => Err(e)
             case Ok(st') => MergeAll(st', chunks[i + 1..], bucketSize);
      var nbytes := Nbytes(c.meta.shape, c.meta.dtype);
      if nbytes <= bucketSize {
        if busy { return Err(WeightNotNone); }
        if |c.data| != nbytes { return Err(SizeMismatch); }
        if x.at % c.meta.dtype.itemsize != 0 { return Err(Misaligned); }
        yielded := yielded + [Weight(c.meta.name, c.meta.shape, c.meta.dtype, c.data)];
      } else {
        if !busy {
          if c.meta.chunkOffset != 0 { return Err(OffsetNotZero); }
          mergeName, mergeShape, mergeDtype := c.meta.name, c.meta.shape, c.meta.dtype;
          mergeBuffer := new byte[nbytes];
          mergeOffset := 0;
          busy := true;
        }
        if c.meta.name != mergeName { return Err(NameMismatch); }
        if (c.meta.shape, c.meta.dtype) != (mergeShape, mergeDtype) { return Err(ShapeChanged); }
        if mergeOffset != c.meta.chunkOffset { return Err(OffsetMismatch); }
        if |c.data| != c.meta.chunkSize || mergeOffset + |c.data| > nbytes { return Err(SizeMismatch); }
        ghost var written := mergeBuffer[..mergeOffset];
        CopyInto(mergeBuffer, mergeOffset, c.data);
        mergeOffset := mergeOffset + c.meta.chunkSize;
        assert mergeBuffer[..mergeOffset] == written + c.data;
        if c.meta.chunkOffset + c.meta.chunkSize == nbytes {
          assert mergeBuffer[..mergeOffset] == mergeBuffer[..];
          yielded := yielded + [Weight(mergeName, mergeShape, mergeDtype, mergeBuffer[..])];
          busy := false;
        }
      }
      st := MergeStep(st, x, bucketSize).value;
    }
    r := Ok(yielded);
  }

  /** `dst[offset : offset + len(src)] = src`. */
  method CopyInto(dst: array<byte>, offset: nat, src: seq<byte>)
    requires offset + |src| <= dst.Length
    modifies dst
    ensures dst[..] == old(dst[..offset]) + src + old(dst[offset + |src|..])
  {
    forall k | 0 <= k < |src| {
      dst[offset + k] := src[k];
    }
  }
}
