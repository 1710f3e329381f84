/** Which streams of chunks `merge_weight_chunks` accepts: exactly those that are the weights it
    yields, each in one piece or in consecutive pieces (verl/verl/checkpoint_engine/base.py). */
module MergeAcceptance {
  import opened Prelude
  import opened WeightChunks

  // ------------------------------------------------------ streams, declaratively

  /** The bytes of all chunks, one after the other. */
  function Data(xs: seq<Arrived>): seq<byte> {
    if xs == [] then [] else xs[0].chunk.data + Data(xs[1..])
  }

  predicate IsPieceOf(x: Arrived, w: Weight) {
    var m := x.chunk.meta;
    m.name == w.name && m.shape == w.shape && m.dtype == w.dtype
  }

  /** Chunk i says how many bytes of its weight come before it, and how many it has; before it the
      weight is not complete.  `received` are the bytes before the first chunk. */
  predicate Follows(received: seq<byte>, xs: seq<Arrived>, i: nat, nbytes: nat)
    requires i < |xs|
  {
    var before, m := |received| + |Data(xs[..i])|, xs[i].chunk.meta;
    m.chunkOffset == before < nbytes && m.chunkSize == |xs[i].chunk.data|
  }

  /** The chunks are what is left of the weight after `received`, in consecutive pieces. */
  predicate PiecesOf(received: seq<byte>, xs: seq<Arrived>, w: Weight) {
    && xs != []
    && (forall i :: 0 <= i < |xs| ==> IsPieceOf(xs[i], w))
    && (forall i :: 0 <= i < |xs| ==> Follows(received, xs, i, |w.bytes|))
    && received + Data(xs) == w.bytes
  }

  /** A weight that fits one bucket comes in one chunk, seen through a view; a larger one in pieces. */
  predicate Makes(xs: seq<Arrived>, w: Weight, bucketSize: nat) {
    && IsTensor(w)
    && if |w.bytes| <= bucketSize then
         && |xs| == 1 && IsPieceOf(xs[0], w) && xs[0].chunk.data == w.bytes
         && xs[0].at % w.dtype.itemsize == 0
       else PiecesOf([], xs, w)
  }

  predicate IsStreamOf(xs: seq<Arrived>, ws: seq<Weight>, bucketSize: nat)
    decreases |ws|
  {
    if ws == [] then xs == []
    else exists n :: 0 < n <= |xs| && Makes(xs[..n], ws[0], bucketSize) && IsStreamOf(xs[n..], ws[1..], bucketSize)
  }

  // ---------------------------------------------------------- such streams merge

  lemma DataFirst(xs: seq<Arrived>, i: nat)
    requires 0 < i <= |xs|
    ensures Data(xs[..i]) == xs[0].chunk.data + Data(xs[1..][..i - 1])
  {
    assert xs[..i][1..] == xs[1..][..i - 1];
  }

  /** The first piece, and the pieces after it. */
  lemma PiecesFirst(received: seq<byte>, xs: seq<Arrived>, w: Weight)
    requires PiecesOf(received, xs, w) && |xs| > 1
    ensures PiecesOf(received + xs[0].chunk.data, xs[1..], w)
    ensures |received + xs[0].chunk.data| < |w.bytes|
  {
    var now, rest := received + xs[0].chunk.data, xs[1..];
    forall i | 0 <= i < |rest| ensures Follows(now, rest, i, |w.bytes|) {
      assert Follows(received, xs, i + 1, |w.bytes|);
      DataFirst(xs, i + 1);
    }
    assert Follows(now, rest, 0, |w.bytes|);
    assert rest[..0] == [];
  }

  function Large(w: Weight, received: seq<byte>): Partial {
    Merging(w.name, w.shape, w.dtype, received)
  }

  lemma {:induction false} PiecesMerge(out: seq<Weight>, received: seq<byte>, xs: seq<Arrived>, w: Weight,
                                       bucketSize: nat)
    requires IsTensor(w) && |w.bytes| > bucketSize && PiecesOf(received, xs, w)
    ensures MergeAll(MergeState(out, Large(w, received)), xs, bucketSize) == Ok(MergeState(out + [w], Idle))
    decreases |xs|
  {
    assert Follows(received, xs, 0, |w.bytes|) && xs[..0] == [];
    var now := received + xs[0].chunk.data;
    if |xs| == 1 {
      assert xs[1..] == [] && Data(xs) == xs[0].chunk.data + [];
      assert now == w.bytes;
      assert MergeStep(MergeState(out, Large(w, received)), xs[0], bucketSize) == Ok(MergeState(out + [w], Idle));
    } else {
      PiecesFirst(received, xs, w);
      PiecesMerge(out, now, xs[1..], w, bucketSize);
    }
  }

  /** The first piece of a weight starts it. */
  lemma FirstPieceStarts(out: seq<Weight>, x: Arrived, w: Weight, bucketSize: nat)
    requires IsPieceOf(x, w) && IsTensor(w) && |w.bytes| > bucketSize && x.chunk.meta.chunkOffset == 0
    ensures MergeStep(MergeState(out, Idle), x, bucketSize) == MergeStep(MergeState(out, Large(w, [])), x, bucketSize)
  {
  }

  lemma MakesMerges(out: seq<Weight>, xs: seq<Arrived>, w: Weight, bucketSize: nat)
    requires Makes(xs, w, bucketSize)
    ensures MergeAll(MergeState(out, Idle), xs, bucketSize) == Ok(MergeState(out + [w], Idle))
  {
    if |w.bytes| <= bucketSize {
      assert xs[1..] == [];
    } else {
      assert Follows([], xs, 0, |w.bytes|) && xs[..0] == [];
      FirstPieceStarts(out, xs[0], w, bucketSize);
      PiecesMerge(out, [], xs, w, bucketSize);
    }
  }

  lemma {:induction false} StreamsMerge(out: seq<Weight>, xs: seq<Arrived>, ws: seq<Weight>, bucketSize: nat)
    requires IsStreamOf(xs, ws, bucketSize)
    ensures MergeAll(MergeState(out, Idle), xs, bucketSize) == Ok(MergeState(out + ws, Idle))
    decreases |ws|
  {
    if ws == [] {
      assert out + ws == out;
    } else {
      var n :| 0 < n <= |xs| && Makes(xs[..n], ws[0], bucketSize) && IsStreamOf(xs[n..], ws[1..], bucketSize);
      var first, rest := xs[..n], xs[n..];
      MakesMerges(out, first, ws[0], bucketSize);
      StreamsMerge(out + [ws[0]], rest, ws[1..], bucketSize);
      MergeAllAppend(MergeState(out, Idle), first, rest, bucketSize);
      assert xs == first + rest;
      MoveFirst(out, ws);
    }
  }

  lemma MoveFirst(out: seq<Weight>, ws: seq<Weight>)
    requires ws != []
    ensures out + [ws[0]] + ws[1..] == out + ws
  {
  }

  // ------------------------------------------------------------- and only such

  /** The stream completes the weight in progress, and what follows is a stream of `ws`. */
  ghost predicate Completes(received: seq<byte>, xs: seq<Arrived>, w: Weight, ws: seq<Weight>, bucketSize: nat) {
    && IsTensor(w) && |w.bytes| > bucketSize
    && exists n :: 0 < n <= |xs| && PiecesOf(received, xs[..n], w) && IsStreamOf(xs[n..], ws, bucketSize)
  }

  /** A piece that completes its weight. */
  lemma LastPiece(received: seq<byte>, xs: seq<Arrived>, w: Weight, ws: seq<Weight>, bucketSize: nat)
    requires xs != [] && IsPieceOf(xs[0], w) && IsTensor(w) && |w.bytes| > bucketSize && |received| < |w.bytes|
    requires xs[0].chunk.meta.chunkOffset == |received| && xs[0].chunk.meta.chunkSize == |xs[0].chunk.data|
    requires received + xs[0].chunk.data == w.bytes && IsStreamOf(xs[1..], ws, bucketSize)
    ensures Completes(received, xs, w, ws, bucketSize)
  {
    var first := xs[..1];
    assert first[..0] == [] && first[1..] == [];
    assert Data(first) == xs[0].chunk.data + [];
    assert Follows(received, first, 0, |w.bytes|);
    assert PiecesOf(received, first, w);
  }

  /** A piece before others. */
  lemma EarlierPiece(received: seq<byte>, xs: seq<Arrived>, w: Weight, ws: seq<Weight>, bucketSize: nat)
    requires xs != [] && IsPieceOf(xs[0], w) && |received| < |w.bytes|
    requires xs[0].chunk.meta.chunkOffset == |received| && xs[0].chunk.meta.chunkSize == |xs[0].chunk.data|
    requires Completes(received + xs[0].chunk.data, xs[1..], w, ws, bucketSize)
    ensures Completes(received, xs, w, ws, bucketSize)
  {
    var now, rest := received + xs[0].chunk.data, xs[1..];
    var n :| 0 < n <= |rest| && PiecesOf(now, rest[..n], w) && IsStreamOf(rest[n..], ws, bucketSize);
    var all := xs[..n + 1];
    assert all[1..] == rest[..n] && xs[n + 1..] == rest[n..];
    AddPiece(received, all, w);
  }

  lemma AddPiece(received: seq<byte>, xs: seq<Arrived>, w: Weight)
    requires xs != [] && IsPieceOf(xs[0], w) && |received| < |w.bytes|
    requires xs[0].chunk.meta.chunkOffset == |received| && xs[0].chunk.meta.chunkSize == |xs[0].chunk.data|
    requires PiecesOf(received + xs[0].chunk.data, xs[1..], w)
    ensures PiecesOf(received, xs, w)
  {
    var now, rest := received + xs[0].chunk.data, xs[1..];
    assert xs[..0] == [];
    forall i | 0 <= i < |xs| ensures IsPieceOf(xs[i], w) && Follows(received, xs, i, |w.bytes|) {
      if i > 0 {
        assert IsPieceOf(rest[i - 1], w) && Follows(now, rest, i - 1, |w.bytes|);
        DataFirst(xs, i);
      }
    }
    assert received + (xs[0].chunk.data + Data(rest)) == now + Data(rest);
  }

  /** An accepted stream from the middle of a weight. */
  lemma {:induction false} FromMiddle(out: seq<Weight>, p: Partial, xs: seq<Arrived>, final: seq<Weight>,
                                      bucketSize: nat)
    returns (w: Weight, ws: seq<Weight>)
    requires p.Merging? && Nbytes(p.shape, p.dtype) > bucketSize && |p.received| < Nbytes(p.shape, p.dtype)
    requires MergeAll(MergeState(out, p), xs, bucketSize) == Ok(MergeState(final, Idle))
    ensures w.name == p.name && w.shape == p.shape && w.dtype == p.dtype
    ensures final == out + [w] + ws && Completes(p.received, xs, w, ws, bucketSize)
    decreases |xs|, 0
  {
    var c := xs[0].chunk;
    var st := MergeStep(MergeState(out, p), xs[0], bucketSize).value;
    if st.partial == Idle {
      w := Weight(p.name, p.shape, p.dtype, p.received + c.data);
      ws := FromStart(out + [w], xs[1..], final, bucketSize);
      LastPiece(p.received, xs, w, ws, bucketSize);
    } else {
      w, ws := FromMiddle(out, st.partial, xs[1..], final, bucketSize);
      EarlierPiece(p.received, xs, w, ws, bucketSize);
    }
  }

  lemma WholeWeight(x: Arrived, rest: seq<Arrived>, ws: seq<Weight>, bucketSize: nat)
    requires var m := x.chunk.meta;
             && Small(m, bucketSize) && |x.chunk.data| == Nbytes(m.shape, m.dtype) && x.at % m.dtype.itemsize == 0
    requires IsStreamOf(rest, ws, bucketSize)
    ensures var m := x.chunk.meta;
            IsStreamOf([x] + rest, [Weight(m.name, m.shape, m.dtype, x.chunk.data)] + ws, bucketSize)
  {
    var m, xs := x.chunk.meta, [x] + rest;
    var w := Weight(m.name, m.shape, m.dtype, x.chunk.data);
    assert xs[..1] == [x] && xs[1..] == rest && ([w] + ws)[1..] == ws;
    assert Makes(xs[..1], w, bucketSize);
  }

  lemma CompletedWeight(xs: seq<Arrived>, w: Weight, ws: seq<Weight>, bucketSize: nat)
    requires Completes([], xs, w, ws, bucketSize)
    ensures IsStreamOf(xs, [w] + ws, bucketSize)
  {
    var n :| 0 < n <= |xs| && PiecesOf([], xs[..n], w) && IsStreamOf(xs[n..], ws, bucketSize);
    assert ([w] + ws)[1..] == ws;
    assert Makes(xs[..n], w, bucketSize);
  }

  /** What an accepted chunk of a weight that fits one bucket is. */
  lemma SmallAccepted(out: seq<Weight>, x: Arrived, bucketSize: nat)
    requires Small(x.chunk.meta, bucketSize) && MergeStep(MergeState(out, Idle), x, bucketSize).Ok?
    ensures var m := x.chunk.meta;
            && |x.chunk.data| == Nbytes(m.shape, m.dtype) && x.at % m.dtype.itemsize == 0
            && MergeStep(MergeState(out, Idle), x, bucketSize)
            == Ok(MergeState(out + [Weight(m.name, m.shape, m.dtype, x.chunk.data)], Idle))
  {
  }

  /** A larger weight starts with nothing received. */
  lemma LargeStarts(out: seq<Weight>, xs: seq<Arrived>, bucketSize: nat)
    requires xs != [] && !Small(xs[0].chunk.meta, bucketSize)
    requires MergeAll(MergeState(out, Idle), xs, bucketSize).Ok?
    ensures var m := xs[0].chunk.meta;
            MergeAll(MergeState(out, Merging(m.name, m.shape, m.dtype, [])), xs, bucketSize)
            == MergeAll(MergeState(out, Idle), xs, bucketSize)
  {
  }

  lemma AppendFirst(out: seq<Weight>, w: Weight, ws: seq<Weight>)
    ensures out + [w] + ws == out + ([w] + ws)
  {
  }

  /** An accepted stream between two weights. */
  lemma {:induction false} FromStart(out: seq<Weight>, xs: seq<Arrived>, final: seq<Weight>, bucketSize: nat)
    returns (ws: seq<Weight>)
    requires MergeAll(MergeState(out, Idle), xs, bucketSize) == Ok(MergeState(final, Idle))
    ensures final == out + ws && IsStreamOf(xs, ws, bucketSize)
    decreases |xs|, 1
  {
    if xs == [] {
      ws := [];
    } else if Small(xs[0].chunk.meta, bucketSize) {
      var m := xs[0].chunk.meta;
      var w := Weight(m.name, m.shape, m.dtype, xs[0].chunk.data);
      SmallAccepted(out, xs[0], bucketSize);
      var rest := FromStart(out + [w], xs[1..], final, bucketSize);
      WholeWeight(xs[0], xs[1..], rest, bucketSize);
      assert xs == [xs[0]] + xs[1..];
      AppendFirst(out, w, rest);
      ws := [w] + rest;
    } else {
      var m := xs[0].chunk.meta;
      LargeStarts(out, xs, bucketSize);
      var w, rest := FromMiddle(out, Merging(m.name, m.shape, m.dtype, []), xs, final, bucketSize);
      CompletedWeight(xs, w, rest, bucketSize);
      AppendFirst(out, w, rest);
      ws := [w] + rest;
    }
  }

  /** A stream is merged to the end, into these weights, if and only if it is a stream of them. */
  lemma MergeAcceptsExactly(xs: seq<Arrived>, ws: seq<Weight>, bucketSize: nat)
    ensures MergeAll(MERGE_START, xs, bucketSize) == Ok(MergeState(ws, Idle)) <==> IsStreamOf(xs, ws, bucketSize)
  {
    if IsStreamOf(xs, ws, bucketSize) {
      StreamsMerge([], xs, ws, bucketSize);
      assert [] + ws == ws;
    }
    if MergeAll(MERGE_START, xs, bucketSize) == Ok(MergeState(ws, Idle)) {
      var found := FromStart([], xs, ws, bucketSize);
      assert [] + found == found;
    }
  }
}
