/** The fused attention projection: query, key and value rows interleaved by group, taken apart
    again, and merged over tensor-parallel shards (verl/scripts/converter_hf_to_mcore.py,
    verl/verl/model_merger/megatron_model_merger.py, verl/scripts/legacy_model_merger.py).
    A matrix is its sequence of rows. */
module QkvLayout {
  import opened Prelude
  import opened RowBlocks

  // --------------------------------------------------------------- interleave

  /** Group j's query, key and value rows, one under the other. */
  function Fused<T>(qs: seq<seq<T>>, ks: seq<seq<T>>, vs: seq<seq<T>>): (r: seq<seq<T>>)
    requires |qs| == |ks| == |vs|
    ensures |r| == |qs|
  {
    seq(|qs|, j requires 0 <= j < |qs| => qs[j] + ks[j] + vs[j])
  }

  /** The converter's expression: view by group, concatenate per group, flatten.  `qSize` query
      rows and `kvSize` key and value rows per group. */
  function Interleave<T>(q: seq<T>, k: seq<T>, v: seq<T>, groups: nat, qSize: nat, kvSize: nat): seq<T>
    requires |q| == groups * qSize && |k| == |v| == groups * kvSize
  {
    Concat(Fused(Blocks(q, groups, qSize), Blocks(k, groups, kvSize), Blocks(v, groups, kvSize)))
  }

  /** Query, key and value rows of a fused matrix. */
  function Deinterleave<T>(rows: seq<T>, groups: nat, qSize: nat, kvSize: nat): (seq<T>, seq<T>, seq<T>)
    requires |rows| == groups * (qSize + 2 * kvSize)
  {
    var w := qSize + 2 * kvSize;
    var blocks := Blocks(rows, groups, w);
    (Concat(Slices(blocks, w, 0, qSize)), Concat(Slices(blocks, w, qSize, qSize + kvSize)),
     Concat(Slices(blocks, w, qSize + kvSize, w)))
  }

  lemma SlicesOfFused<T>(qs: seq<seq<T>>, ks: seq<seq<T>>, vs: seq<seq<T>>, qSize: nat, kvSize: nat)
    requires |qs| == |ks| == |vs| && Uniform(qs, qSize) && Uniform(ks, kvSize) && Uniform(vs, kvSize)
    ensures var w := qSize + 2 * kvSize; var fused := Fused(qs, ks, vs);
            && Uniform(fused, w) && Slices(fused, w, 0, qSize) == qs
            && Slices(fused, w, qSize, qSize + kvSize) == ks && Slices(fused, w, qSize + kvSize, w) == vs
  {
    var w, fused := qSize + 2 * kvSize, Fused(qs, ks, vs);
    forall j | 0 <= j < |qs|
      ensures |fused[j]| == w && fused[j][0..qSize] == qs[j]
      ensures fused[j][qSize..qSize + kvSize] == ks[j] && fused[j][qSize + kvSize..w] == vs[j]
    {
      assert fused[j] == qs[j] + ks[j] + vs[j];
    }
  }

  lemma FusedOfSlices<T>(blocks: seq<seq<T>>, qSize: nat, kvSize: nat)
    requires Uniform(blocks, qSize + 2 * kvSize)
    ensures var w := qSize + 2 * kvSize;
            Fused(Slices(blocks, w, 0, qSize), Slices(blocks, w, qSize, qSize + kvSize),
                  Slices(blocks, w, qSize + kvSize, w)) == blocks
  {
    var w := qSize + 2 * kvSize;
    forall j | 0 <= j < |blocks|
      ensures blocks[j][0..qSize] + blocks[j][qSize..qSize + kvSize] + blocks[j][qSize + kvSize..w] == blocks[j]
    {
    }
  }

  /** Taking apart undoes interleaving, for all head counts and sizes. */
  lemma DeinterleaveUndoesInterleave<T>(q: seq<T>, k: seq<T>, v: seq<T>, groups: nat, qSize: nat, kvSize: nat)
    requires |q| == groups * qSize && |k| == |v| == groups * kvSize
    ensures |Interleave(q, k, v, groups, qSize, kvSize)| == groups * (qSize + 2 * kvSize)
    ensures Deinterleave(Interleave(q, k, v, groups, qSize, kvSize), groups, qSize, kvSize) == (q, k, v)
  {
    var qs, ks, vs := Blocks(q, groups, qSize), Blocks(k, groups, kvSize), Blocks(v, groups, kvSize);
    SlicesOfFused(qs, ks, vs, qSize, kvSize);
    BlocksOfConcat(Fused(qs, ks, vs), qSize + 2 * kvSize);
    ConcatOfBlocks(q, groups, qSize);
    ConcatOfBlocks(k, groups, kvSize);
    ConcatOfBlocks(v, groups, kvSize);
  }

  /** Row r of group j in a matrix of w rows per group. */
  function RowAt<T>(rows: seq<T>, w: nat, j: nat, r: nat): Option<T> {
    MulMono(0, j, w);
    if j * w + r < |rows| then Some(rows[j * w + r]) else None
  }

  lemma RowInBlock<T>(rows: seq<T>, n: nat, w: nat, j: nat, r: nat)
    requires |rows| == n * w && j < n && r < w
    ensures RowAt(rows, w, j, r) == Some(Blocks(rows, n, w)[j][r])
  {
    BlockAt(rows, n, w, j);
  }

  lemma RowOfFused<T>(qs: seq<seq<T>>, ks: seq<seq<T>>, vs: seq<seq<T>>, qSize: nat, kvSize: nat, g: nat, r: nat)
    requires |qs| == |ks| == |vs| && Uniform(qs, qSize) && Uniform(ks, kvSize) && Uniform(vs, kvSize)
    requires g < |qs| && r < qSize + 2 * kvSize
    ensures |Fused(qs, ks, vs)[g]| == qSize + 2 * kvSize
    ensures r < qSize ==> Fused(qs, ks, vs)[g][r] == qs[g][r]
    ensures qSize <= r < qSize + kvSize ==> Fused(qs, ks, vs)[g][r] == ks[g][r - qSize]
    ensures qSize + kvSize <= r ==> Fused(qs, ks, vs)[g][r] == vs[g][r - qSize - kvSize]
  {
    assert Fused(qs, ks, vs)[g] == qs[g] + ks[g] + vs[g];
  }

  lemma RowOfInterleaved<T>(q: seq<T>, k: seq<T>, v: seq<T>, groups: nat, qSize: nat, kvSize: nat, g: nat, r: nat)
    requires |q| == groups * qSize && |k| == |v| == groups * kvSize
    requires g < groups && r < qSize + 2 * kvSize
    ensures var fused := Fused(Blocks(q, groups, qSize), Blocks(k, groups, kvSize), Blocks(v, groups, kvSize))[g];
            && |fused| == qSize + 2 * kvSize
            && RowAt(Interleave(q, k, v, groups, qSize, kvSize), qSize + 2 * kvSize, g, r) == Some(fused[r])
  {
    var qs, ks, vs := Blocks(q, groups, qSize), Blocks(k, groups, kvSize), Blocks(v, groups, kvSize);
    SlicesOfFused(qs, ks, vs, qSize, kvSize);
    BlocksOfConcat(Fused(qs, ks, vs), qSize + 2 * kvSize);
    RowInBlock(Interleave(q, k, v, groups, qSize, kvSize), groups, qSize + 2 * kvSize, g, r);
  }

  /** Row r of group g of the fused matrix: the group's query rows come first, then its key rows,
      then its value rows. */
  lemma InterleavedRow<T>(q: seq<T>, k: seq<T>, v: seq<T>, groups: nat, qSize: nat, kvSize: nat, g: nat, r: nat)
    requires |q| == groups * qSize && |k| == |v| == groups * kvSize
    requires g < groups && r < qSize + 2 * kvSize
    ensures var row := RowAt(Interleave(q, k, v, groups, qSize, kvSize), qSize + 2 * kvSize, g, r);
            row.Some? && row == if r < qSize then RowAt(q, qSize, g, r)
                                else if r < qSize + kvSize then RowAt(k, kvSize, g, r - qSize)
                                else RowAt(v, kvSize, g, r - qSize - kvSize)
  {
    var qs, ks, vs := Blocks(q, groups, qSize), Blocks(k, groups, kvSize), Blocks(v, groups, kvSize);
    RowOfInterleaved(q, k, v, groups, qSize, kvSize, g, r);
    RowOfFused(qs, ks, vs, qSize, kvSize, g, r);
    if r < qSize {
      RowInBlock(q, groups, qSize, g, r);
    } else if r < qSize + kvSize {
      RowInBlock(k, groups, kvSize, g, r - qSize);
    } else {
      RowInBlock(v, groups, kvSize, g, r - qSize - kvSize);
    }
  }

  /** And interleaving undoes taking apart: nothing of a fused matrix is lost. */
  lemma InterleaveUndoesDeinterleave<T>(rows: seq<T>, groups: nat, qSize: nat, kvSize: nat)
    requires |rows| == groups * (qSize + 2 * kvSize)
    ensures var (q, k, v) := Deinterleave(rows, groups, qSize, kvSize);
            && |q| == groups * qSize && |k| == |v| == groups * kvSize
            && Interleave(q, k, v, groups, qSize, kvSize) == rows
  {
    var w := qSize + 2 * kvSize;
    var blocks := Blocks(rows, groups, w);
    BlocksOfConcat(Slices(blocks, w, 0, qSize), qSize);
    BlocksOfConcat(Slices(blocks, w, qSize, qSize + kvSize), kvSize);
    BlocksOfConcat(Slices(blocks, w, qSize + kvSize, w), kvSize);
    FusedOfSlices(blocks, qSize, kvSize);
    ConcatOfBlocks(rows, groups, w);
  }

  // -------------------------------------------------------------- taking apart

  datatype LayoutError = HeadsNotDivisible | RowsNotDivisible | WrongSplit | NoShards | NoGroups

  /** The loop body both mergers share, over the chunks of a tensor: `chunk.split([q, kv, kv])`,
      which raises when a chunk has another number of rows. */
  method SplitAll<T>(chunks: seq<seq<T>>, qSize: nat, kvSize: nat)
    returns (r: Result<(seq<seq<T>>, seq<seq<T>>, seq<seq<T>>), LayoutError>)
    ensures r.Ok? <==> Uniform(chunks, qSize + 2 * kvSize)
    ensures r.Ok? ==> var w := qSize + 2 * kvSize;
                      r.value == (Slices(chunks, w, 0, qSize), Slices(chunks, w, qSize, qSize + kvSize),
                                  Slices(chunks, w, qSize + kvSize, w))
  {
    var w := qSize + 2 * kvSize;
    var qs: seq<seq<T>>, ks: seq<seq<T>>, vs: seq<seq<T>> := [], [], [];
    for j := 0 to |chunks|
      invariant |qs| == |ks| == |vs| == j
      invariant forall i :: 0 <= i < j ==> |chunks[i]| == w && qs[i] == chunks[i][0..qSize]
                                           && ks[i] == chunks[i][qSize..qSize + kvSize]
                                           && vs[i] == chunks[i][qSize + kvSize..w]
    {
      var chunk := chunks[j];
      if |chunk| != w {
        return Err(WrongSplit);
      }
      qs := qs + [chunk[0..qSize]];
      ks := ks + [chunk[qSize..qSize + kvSize]];
      vs := vs + [chunk[qSize + kvSize..w]];
    }
    assert Uniform(chunks, w);
    assert qs == Slices(chunks, w, 0, qSize);
    assert ks == Slices(chunks, w, qSize, qSize + kvSize);
    assert vs == Slices(chunks, w, qSize + kvSize, w);
    r := Ok((qs, ks, vs));
  }

  /** Chunking and splitting, when the split sizes do not exceed the rows. */
  method SplitChunks<T>(rows: seq<T>, n: nat, qSize: nat, kvSize: nat)
    returns (r: Result<(seq<seq<T>>, seq<seq<T>>, seq<seq<T>>), LayoutError>)
    requires 0 < n && n * (qSize + 2 * kvSize) <= |rows|
    ensures r.Ok? <==> |rows| == n * (qSize + 2 * kvSize)
    ensures r.Ok? ==> var w := qSize + 2 * kvSize; var blocks := Blocks(rows, n, w);
                      r.value == (Slices(blocks, w, 0, qSize), Slices(blocks, w, qSize, qSize + kvSize),
                                  Slices(blocks, w, qSize + kvSize, w))
  {
    ghost var w := qSize + 2 * kvSize;
    r := SplitAll(Chunk(rows, n), qSize, kvSize);
    if |rows| == n * w {
      ChunkOfWholeBlocks(rows, n, w);
    } else {
      FirstChunkTooLong(rows, n, w);
    }
  }

  // -------------------------------------------------------------- the mergers

  /** The split sizes never exceed the rows, and use them up exactly when the groups divide the key
      rows. */
  lemma SplitSizes(rows: nat, a: nat, ratio: nat, groups: nat, q: nat, kv: nat)
    requires 0 < groups && rows == a * (ratio + 2) && q == a * ratio / groups && kv == a / groups
    ensures groups * (q + 2 * kv) <= rows && (groups * (q + 2 * kv) == rows <==> a % groups == 0)
    ensures a % groups == 0 ==> q == kv * ratio
  {
    var s, n := a % groups, a * ratio;
    assert rows == n + 2 * a;
    assert groups * q <= n;
    assert a == groups * kv + s;
    assert groups * (q + 2 * kv) == groups * q + 2 * (groups * kv);
    if s == 0 {
      assert n == groups * (kv * ratio);
      DivOfMultiple(groups, kv * ratio);
    }
  }

  /** One tensor of `a` key rows, `a` value rows and `ratio * a` query rows in `groups` groups. */
  method TakeApart<T>(rows: seq<T>, a: nat, ratio: nat, groups: nat)
    returns (r: Result<(seq<seq<T>>, seq<seq<T>>, seq<seq<T>>), LayoutError>)
    requires 0 < groups && |rows| == a * (ratio + 2)
    ensures r.Ok? <==> a % groups == 0
    ensures r.Ok? ==> var q, kv := a / groups * ratio, a / groups;
                      && |rows| == groups * (q + 2 * kv)
                      && var blocks := Blocks(rows, groups, q + 2 * kv);
                         r.value == (Slices(blocks, q + 2 * kv, 0, q), Slices(blocks, q + 2 * kv, q, q + kv),
                                     Slices(blocks, q + 2 * kv, q + kv, q + 2 * kv))
  {
    var qSize, kvSize := SizesOf(|rows|, a, ratio, groups);
    r := SplitChunks(rows, groups, qSize, kvSize);
  }

  /** `split_size` */
  method SizesOf(rows: nat, a: nat, ratio: nat, groups: nat) returns (qSize: nat, kvSize: nat)
    requires 0 < groups && rows == a * (ratio + 2)
    ensures groups * (qSize + 2 * kvSize) <= rows
    ensures groups * (qSize + 2 * kvSize) == rows <==> a % groups == 0
    ensures a % groups == 0 ==> qSize == a / groups * ratio && kvSize == a / groups
  {
    qSize, kvSize := a * ratio / groups, a / groups;
    SplitSizes(rows, a, ratio, groups, qSize, kvSize);
  }

  /** The number of key rows of a fused tensor, or the assertion that fails. */
  function KeyRows(rows: nat, heads: nat, kv: nat): (r: Result<nat, LayoutError>)
    requires 0 < kv
    ensures r.Ok? ==> rows == r.value * (heads / kv + 2)
  {
    if heads % kv != 0 then Err(HeadsNotDivisible)
    else
      var width := heads / kv + 2;
      if rows % width != 0 then Err(RowsNotDivisible) else Ok(rows / width)
  }

  /** The parts are those of a fused tensor of `groups` groups. */
  ghost predicate IsDeinterleaved<T>(parts: (seq<T>, seq<T>, seq<T>), rows: seq<T>, groups: nat, q: nat, kv: nat) {
    |rows| == groups * (q + 2 * kv) && parts == Deinterleave(rows, groups, q, kv)
  }

  /** A tensor can be taken apart exactly when its rows are a multiple of a row for every head. */
  lemma WholeHeads(rows: nat, heads: nat, kv: nat)
    requires 0 < kv
    ensures KeyRows(rows, heads, kv).Ok? && KeyRows(rows, heads, kv).value % kv == 0
            <==> heads % kv == 0 && rows % (heads + 2 * kv) == 0
    ensures KeyRows(rows, heads, kv) == Err(HeadsNotDivisible) <==> heads % kv != 0
  {
    if heads % kv == 0 {
      var width := heads / kv + 2;
      assert kv * (heads / kv) == heads;
      assert kv * width == heads + 2 * kv;
      if rows % (heads + 2 * kv) == 0 {
        var q := rows / (heads + 2 * kv);
        assert rows == (heads + 2 * kv) * q == width * (kv * q);
        DivOfMultiple(width, kv * q);
        DivOfMultiple(kv, q);
      }
      if rows % width == 0 && (rows / width) % kv == 0 {
        var q := rows / width / kv;
        assert rows == width * (kv * q) == (heads + 2 * kv) * q;
        DivOfMultiple(heads + 2 * kv, q);
      }
    }
  }

  /** `_split_tensors` for a fused attention tensor: it succeeds exactly when the groups divide the
      key rows, and then takes the tensor apart. */
  method SplitTensors<T>(rows: seq<T>, heads: nat, kv: nat) returns (r: Result<(seq<T>, seq<T>, seq<T>), LayoutError>)
    requires 0 < kv
    ensures r.Ok? <==> KeyRows(|rows|, heads, kv).Ok? && KeyRows(|rows|, heads, kv).value % kv == 0
    ensures r.Ok? <==> heads % kv == 0 && |rows| % (heads + 2 * kv) == 0
    ensures r.Ok? ==> var size, ratio := KeyRows(|rows|, heads, kv).value / kv, heads / kv;
                      IsDeinterleaved(r.value, rows, kv, size * ratio, size)
  {
    WholeHeads(|rows|, heads, kv);
    var keyRows := KeyRows(|rows|, heads, kv);
    if keyRows.Err? {
      return Err(keyRows.error);
    }
    var lists := TakeApart(rows, keyRows.value, heads / kv, kv);
    if lists.Err? {
      return Err(lists.error);
    }
    var (qs, ks, vs) := lists.value;
    r := Ok((Concat(qs), Concat(ks), Concat(vs)));
  }

  /** The three lists of pieces of a tensor of `groups` groups. */
  ghost predicate ArePieces<T>(lists: (seq<seq<T>>, seq<seq<T>>, seq<seq<T>>), rows: seq<T>, groups: nat, q: nat,
                               kv: nat)
  {
    |rows| == groups * (q + 2 * kv) &&
    var blocks := Blocks(rows, groups, q + 2 * kv);
    lists == (Slices(blocks, q + 2 * kv, 0, q), Slices(blocks, q + 2 * kv, q, q + kv),
              Slices(blocks, q + 2 * kv, q + kv, q + 2 * kv))
  }

  lemma PiecesAppend<T>(xs: (seq<seq<T>>, seq<seq<T>>, seq<seq<T>>), a: seq<T>, m: nat,
                        ys: (seq<seq<T>>, seq<seq<T>>, seq<seq<T>>), b: seq<T>, n: nat, q: nat, kv: nat)
    requires ArePieces(xs, a, m, q, kv) && ArePieces(ys, b, n, q, kv)
    ensures ArePieces((xs.0 + ys.0, xs.1 + ys.1, xs.2 + ys.2), a + b, m + n, q, kv)
  {
    var w := q + 2 * kv;
    BlocksAppend(a, m, b, n, w);
    SlicesAppend(Blocks(a, m, w), Blocks(b, n, w), w, 0, q);
    SlicesAppend(Blocks(a, m, w), Blocks(b, n, w), w, q, q + kv);
    SlicesAppend(Blocks(a, m, w), Blocks(b, n, w), w, q + kv, w);
  }

  lemma PiecesAreDeinterleaved<T>(xs: (seq<seq<T>>, seq<seq<T>>, seq<seq<T>>), rows: seq<T>, groups: nat, q: nat,
                                  kv: nat)
    requires ArePieces(xs, rows, groups, q, kv)
    ensures IsDeinterleaved((Concat(xs.0), Concat(xs.1), Concat(xs.2)), rows, groups, q, kv)
  {
  }

  /** The loop over the shards. */
  method CollectShards<T>(shards: seq<seq<T>>, a: nat, ratio: nat, groups: nat)
    returns (r: Result<(seq<T>, seq<T>, seq<T>), LayoutError>)
    requires 0 < groups && shards != [] && Uniform(shards, a * (ratio + 2))
    ensures r.Ok? <==> a % groups == 0
    ensures r.Ok? ==> IsDeinterleaved(r.value, Concat(shards), |shards| * groups, a / groups * ratio, a / groups)
  {
    var qs: seq<seq<T>>, ks: seq<seq<T>>, vs: seq<seq<T>> := [], [], [];
    ghost var q, size := a / groups * ratio, a / groups;
    for t := 0 to |shards|
      invariant t > 0 ==> a % groups == 0
      invariant ArePieces((qs, ks, vs), Concat(shards[..t]), t * groups, q, size)
    {
      var lists := TakeApart(shards[t], a, ratio, groups);
      if lists.Err? {
        return Err(lists.error);
      }
      ConcatLast(shards, t);
      PiecesAppend((qs, ks, vs), Concat(shards[..t]), t * groups, lists.value, shards[t], groups, q, size);
      assert t * groups + groups == (t + 1) * groups;
      qs, ks, vs := qs + lists.value.0, ks + lists.value.1, vs + lists.value.2;
    }
    assert shards[..|shards|] == shards;
    PiecesAreDeinterleaved((qs, ks, vs), Concat(shards), |shards| * groups, q, size);
    r := Ok((Concat(qs), Concat(ks), Concat(vs)));
  }

  /** `_merge_across_tp` for fused attention tensors of equal size. */
  method MergeAcrossTp<T>(shards: seq<seq<T>>, heads: nat, kv: nat)
    returns (r: Result<(seq<T>, seq<T>, seq<T>), LayoutError>)
    requires 0 < kv && (shards != [] ==> Uniform(shards, |shards[0]|))
    ensures shards == [] ==> r == Err(if heads % kv != 0 then HeadsNotDivisible else NoShards)
    ensures shards != [] ==>
              (r.Ok? <==> var keyRows := KeyRows(|shards[0]|, heads, kv);
                          keyRows.Ok? && 0 < kv / |shards| && keyRows.value % (kv / |shards|) == 0)
    ensures r.Ok? ==> var groups, ratio := kv / |shards|, heads / kv;
                      var size := KeyRows(|shards[0]|, heads, kv).value / groups;
                      IsDeinterleaved(r.value, Concat(shards), |shards| * groups, size * ratio, size)
  {
    if shards == [] {
      return Err(if heads % kv != 0 then HeadsNotDivisible else NoShards);
    }
    var keyRows := KeyRows(|shards[0]|, heads, kv);
    if keyRows.Err? {
      return Err(keyRows.error);
    }
    var groups, ratio := kv / |shards|, heads / kv;
    if groups == 0 {
      return Err(NoGroups);
    }
    r := CollectShards(shards, keyRows.value, ratio, groups);
  }

  lemma ScaledKeyRows(rows: nat, t: nat, heads: nat, kv: nat)
    requires 0 < kv && KeyRows(rows, heads, kv).Ok?
    ensures KeyRows(t * rows, heads, kv) == Ok(t * KeyRows(rows, heads, kv).value)
  {
    var a, width := KeyRows(rows, heads, kv).value, heads / kv + 2;
    assert t * rows == width * (t * a);
    DivOfMultiple(width, t * a);
    assert (t * rows) % width == 0;
  }

  /** When the shards divide the key-value heads, merging the shards is taking their concatenation
      apart: what the merge returns the split returns, and they succeed together when each shard
      has a whole number of key rows. */
  method MergeIsSplitOfConcat<T>(shards: seq<seq<T>>, heads: nat, kv: nat)
    returns (merged: Result<(seq<T>, seq<T>, seq<T>), LayoutError>, split: Result<(seq<T>, seq<T>, seq<T>),
             LayoutError>)
    requires 0 < kv && shards != [] && Uniform(shards, |shards[0]|) && kv % |shards| == 0
    ensures merged.Ok? ==> split == merged
    ensures KeyRows(|shards[0]|, heads, kv).Ok? ==> (merged.Ok? <==> split.Ok?)
  {
    merged := MergeAcrossTp(shards, heads, kv);
    split := SplitTensors(Concat(shards), heads, kv);
    if KeyRows(|shards[0]|, heads, kv).Ok? {
      BlocksOfConcat(shards, |shards[0]|);
      ScaledKeyRows(|shards[0]|, |shards|, heads, kv);
      SameGroups(KeyRows(|shards[0]|, heads, kv).value, |shards|, kv);
    }
  }

  lemma SameGroups(a: nat, t: nat, kv: nat)
    requires 0 < kv && 0 < t && kv % t == 0
    ensures 0 < kv / t && t * (kv / t) == kv
    ensures (t * a) % kv == 0 <==> a % (kv / t) == 0
    ensures a % (kv / t) == 0 ==> (t * a) / kv == a / (kv / t)
  {
    var g := kv / t;
    assert kv == t * g;
    if a % g == 0 {
      var b := a / g;
      assert t * a == t * (g * b) == kv * b;
      DivOfMultiple(kv, b);
      assert (t * a) % kv == 0;
    }
    if (t * a) % kv == 0 {
      var b := (t * a) / kv;
      assert t * a == kv * b == t * (g * b);
      CancelLeft(t, a, g * b);
      assert a % g == 0 by { DivOfMultiple(g, b); }
    }
  }

  lemma CancelLeft(t: nat, x: int, y: int)
    requires 0 < t && t * x == t * y
    ensures x == y
  {
    MulMono(x + 1, y, t);
    MulMono(y + 1, x, t);
  }

  /** Converter, then merger: `head_dim` rows per head, `kv` dividing `heads`. */
  method ConvertAndSplit<T>(q: seq<T>, k: seq<T>, v: seq<T>, heads: nat, kv: nat, headDim: nat)
    returns (r: Result<(seq<T>, seq<T>, seq<T>), LayoutError>)
    requires 0 < kv && heads % kv == 0
    requires |q| == heads * headDim && |k| == |v| == kv * headDim
    ensures r == Ok((q, k, v))
  {
    var qSize := headDim * heads / kv;
    ViewSizes(heads, kv, headDim);
    var fused := Interleave(q, k, v, kv, qSize, headDim);
    DeinterleaveUndoesInterleave(q, k, v, kv, qSize, headDim);
    FusedKeyRows(heads, kv, headDim);
    r := SplitTensors(fused, heads, kv);
  }

  lemma ViewSizes(heads: nat, kv: nat, headDim: nat)
    requires 0 < kv && heads % kv == 0
    ensures headDim * heads / kv == headDim * (heads / kv) && kv * (headDim * heads / kv) == heads * headDim
  {
    var g := heads / kv;
    assert heads == kv * g;
    assert headDim * heads == kv * (headDim * g);
    DivOfMultiple(kv, headDim * g);
  }

  lemma FusedKeyRows(heads: nat, kv: nat, headDim: nat)
    requires 0 < kv && heads % kv == 0
    ensures var rows := kv * (headDim * heads / kv + 2 * headDim);
            && KeyRows(rows, heads, kv) == Ok(kv * headDim)
            && (kv * headDim) % kv == 0 && (kv * headDim) / kv == headDim
  {
    ViewSizes(heads, kv, headDim);
    var g := heads / kv;
    assert kv * (headDim * g + 2 * headDim) == (g + 2) * (kv * headDim);
    DivOfMultiple(g + 2, kv * headDim);
    DivOfMultiple(kv, headDim);
  }
}
