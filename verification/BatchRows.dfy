/** The batch table: tensor columns and object columns over the same rows, padded, chunked, split,
    concatenated and repeated (verl/verl/protocol.py).  meta_info is not modelled. */
module BatchRows {
  import opened Prelude
  import opened RowBlocks

  type Columns<T> = map<string, seq<T>>

  /** A DataProto of `rows` rows; `tensors` is None when it has no TensorDict. */
  datatype Batch<A, B> = Batch(rows: nat, tensors: Option<Columns<A>>, objects: Columns<B>)

  predicate AllRows<T>(c: Columns<T>, n: nat) {
    forall key :: key in c ==> |c[key]| == n
  }

  predicate Valid<A, B>(b: Batch<A, B>) {
    (b.tensors.Some? ==> AllRows(b.tensors.value, b.rows)) && AllRows(b.objects, b.rows)
  }

  // ---------------------------------------------------------------- row maps

  predicate Fits(index: seq<nat>, n: nat) {
    forall i :: 0 <= i < |index| ==> index[i] < n
  }

  /** The rows of one column that an index lists, in its order. */
  function Pick<T>(column: seq<T>, index: seq<nat>): (r: seq<T>)
    requires Fits(index, |column|)
    ensures |r| == |index|
  {
    seq(|index|, i requires 0 <= i < |index| => column[index[i]])
  }

  function PickColumns<T>(c: Columns<T>, n: nat, index: seq<nat>): (r: Columns<T>)
    requires AllRows(c, n) && Fits(index, n)
    ensures AllRows(r, |index|)
  {
    map key | key in c :: Pick(c[key], index)
  }

  /** One row map for all columns of a batch. */
  function Gather<A, B>(b: Batch<A, B>, index: seq<nat>): (r: Batch<A, B>)
    requires Valid(b) && Fits(index, b.rows)
    ensures Valid(r)
  {
    Batch(|index|, if b.tensors.Some? then Some(PickColumns(b.tensors.value, b.rows, index)) else None,
          PickColumns(b.objects, b.rows, index))
  }

  /** lo, lo + 1, ..., hi - 1 */
  function Range(lo: nat, hi: nat): (r: seq<nat>)
    requires lo <= hi
    ensures |r| == hi - lo && Fits(r, hi)
  {
    seq(hi - lo, i requires 0 <= i => lo + i)
  }

  lemma PickAll<T>(column: seq<T>)
    ensures Pick(column, Range(0, |column|)) == column
  {
  }

  lemma GatherAll<A, B>(b: Batch<A, B>)
    requires Valid(b)
    ensures Gather(b, Range(0, b.rows)) == b
  {
    var r := Gather(b, Range(0, b.rows));
    forall key | key in b.objects ensures r.objects[key] == b.objects[key] {
      PickAll(b.objects[key]);
    }
    if b.tensors.Some? {
      forall key | key in b.tensors.value ensures r.tensors.value[key] == b.tensors.value[key] {
        PickAll(b.tensors.value[key]);
      }
      assert r.tensors.value == b.tensors.value;
    }
    assert r.objects == b.objects;
  }

  /** `data[lo:hi]` for 0 <= lo <= hi <= len. */
  function Slice<A, B>(b: Batch<A, B>, lo: nat, hi: nat): (r: Batch<A, B>)
    requires Valid(b) && lo <= hi <= b.rows
    ensures Valid(r)
  {
    Batch(hi - lo,
          if b.tensors.Some? then Some(map key | key in b.tensors.value :: b.tensors.value[key][lo..hi]) else None,
          map key | key in b.objects :: b.objects[key][lo..hi])
  }

  lemma RangeIsPick<T>(column: seq<T>, lo: nat, hi: nat)
    requires lo <= hi <= |column|
    ensures column[lo..hi] == Pick(column, Range(lo, hi))
  {
  }

  lemma SliceIsGather<A, B>(b: Batch<A, B>, lo: nat, hi: nat)
    requires Valid(b) && lo <= hi <= b.rows
    ensures Slice(b, lo, hi) == Gather(b, Range(lo, hi))
  {
    var index := Range(lo, hi);
    var l, r := Slice(b, lo, hi), Gather(b, index);
    forall key | key in b.objects ensures l.objects[key] == r.objects[key] {
      RangeIsPick(b.objects[key], lo, hi);
    }
    assert l.objects == r.objects;
    if b.tensors.Some? {
      forall key | key in b.tensors.value ensures l.tensors.value[key] == r.tensors.value[key] {
        RangeIsPick(b.tensors.value[key], lo, hi);
      }
      assert l.tensors.value == r.tensors.value;
    }
  }

  // ------------------------------------------------------------------ concat

  function ConcatColumns<T>(a: Columns<T>, b: Columns<T>): Columns<T>
    requires a.Keys == b.Keys
  {
    map key | key in a :: a[key] + b[key]
  }

  predicate SameColumns<A, B>(a: Batch<A, B>, b: Batch<A, B>) {
    && a.objects.Keys == b.objects.Keys && (a.tensors.Some? <==> b.tensors.Some?)
    && (a.tensors.Some? ==> a.tensors.value.Keys == b.tensors.value.Keys)
  }

  function Join<A, B>(a: Batch<A, B>, b: Batch<A, B>): (r: Batch<A, B>)
    requires Valid(a) && Valid(b) && SameColumns(a, b)
    ensures Valid(r)
  {
    Batch(a.rows + b.rows, if a.tensors.Some? then Some(ConcatColumns(a.tensors.value, b.tensors.value)) else None,
          ConcatColumns(a.objects, b.objects))
  }

  lemma JoinOfPicks<T>(c: Columns<T>, n: nat, x: seq<nat>, y: seq<nat>)
    requires AllRows(c, n) && Fits(x, n) && Fits(y, n)
    ensures ConcatColumns(PickColumns(c, n, x), PickColumns(c, n, y)) == PickColumns(c, n, x + y)
  {
    forall key | key in c ensures Pick(c[key], x) + Pick(c[key], y) == Pick(c[key], x + y) {
    }
  }

  /** Joining two gathers of one batch is gathering by the joined index. */
  lemma JoinOfGathers<A, B>(b: Batch<A, B>, x: seq<nat>, y: seq<nat>)
    requires Valid(b) && Fits(x, b.rows) && Fits(y, b.rows)
    ensures SameColumns(Gather(b, x), Gather(b, y))
    ensures Fits(x + y, b.rows) && Join(Gather(b, x), Gather(b, y)) == Gather(b, x + y)
  {
    JoinOfPicks(b.objects, b.rows, x, y);
    if b.tensors.Some? {
      JoinOfPicks(b.tensors.value, b.rows, x, y);
    }
  }

  datatype BatchError = NothingToConcat | UnequalChunks | TooFewChunks | ZeroSize

  ghost predicate Joinable<A, B>(pieces: seq<Batch<A, B>>) {
    forall k :: 0 <= k < |pieces| ==> Valid(pieces[k]) && SameColumns(pieces[0], pieces[k])
  }

  /** The pieces' rows, column by column, one piece after the other. */
  ghost function JoinAll<A, B>(pieces: seq<Batch<A, B>>): (r: Batch<A, B>)
    requires pieces != [] && Joinable(pieces)
    ensures Valid(r) && SameColumns(pieces[0], r)
    decreases |pieces|
  {
    var n := |pieces| - 1;
    if n == 0 then pieces[0] else Join(JoinAll(pieces[..n]), pieces[n])
  }

  /** `DataProto.concat` of pieces with the same columns. */
  method ConcatBatches<A, B>(pieces: seq<Batch<A, B>>) returns (r: Result<Batch<A, B>, BatchError>)
    requires Joinable(pieces)
    ensures r == if pieces == [] then Err(NothingToConcat) else Ok(JoinAll(pieces))
  {
    if pieces == [] {
      return Err(NothingToConcat);
    }
    var joined := pieces[0];
    for k := 1 to |pieces|
      invariant joined == JoinAll(pieces[..k])
    {
      assert pieces[..k + 1][..k] == pieces[..k];
      joined := Join(joined, pieces[k]);
    }
    assert pieces[..|pieces|] == pieces;
    r := Ok(joined);
  }

  ghost predicate AreGathers<A, B>(pieces: seq<Batch<A, B>>, b: Batch<A, B>, indices: seq<seq<nat>>)
    requires Valid(b)
  {
    |indices| == |pieces| &&
    forall k :: 0 <= k < |pieces| ==> Fits(indices[k], b.rows) && pieces[k] == Gather(b, indices[k])
  }

  /** Gathered pieces of a batch, joined, are gathered by all their indices. */
  lemma {:induction false} JoinAllOfGathers<A, B>(pieces: seq<Batch<A, B>>, b: Batch<A, B>, indices: seq<seq<nat>>)
    requires Valid(b) && pieces != [] && AreGathers(pieces, b, indices)
    ensures Joinable(pieces) && Fits(Concat(indices), b.rows) && JoinAll(pieces) == Gather(b, Concat(indices))
    decreases |pieces|
  {
    var n := |pieces| - 1;
    ConcatLast(indices, n);
    assert indices[..n + 1] == indices;
    if n == 0 {
      assert indices[..0] == [] && Concat(indices) == indices[0];
    } else {
      JoinAllOfGathers(pieces[..n], b, indices[..n]);
      JoinOfGathers(b, Concat(indices[..n]), indices[n]);
    }
  }

  // ------------------------------------------------------------- pad and unpad

  /** Row i of a padded batch is row i mod n. */
  function Wrapped(n: nat, total: nat): (r: seq<nat>)
    requires 0 < n
    ensures |r| == total && Fits(r, n)
  {
    seq(total, i requires 0 <= i => i % n)
  }

  lemma WrapStep(n: nat, done: nat, take: nat)
    requires 0 < n && done % n == 0 && take <= n
    ensures Wrapped(n, done + take) == Wrapped(n, done) + Range(0, take)
  {
    var l, r := Wrapped(n, done + take), Wrapped(n, done) + Range(0, take);
    forall j | 0 <= j < done + take ensures l[j] == r[j] {
      if j >= done {
        ModAfter(n, done, j - done);
      }
    }
  }

  lemma ModAfter(n: nat, done: nat, i: nat)
    requires 0 < n && done % n == 0 && i < n
    ensures (done + i) % n == i
  {
    DivUnique(done + i, n, done / n, i);
  }

  lemma WrapWhole(n: nat, done: nat)
    requires 0 < n && done % n == 0
    ensures (done + n) % n == 0
  {
    DivUnique(done + n, n, done / n + 1, 0);
  }

  function PadSize(n: nat, divisor: nat): nat
    requires 0 < divisor
  {
    if n % divisor == 0 then 0 else divisor - n % divisor
  }

  /** The padded length is the least multiple of the divisor that is not below n. */
  lemma PaddedLength(n: nat, divisor: nat, m: nat)
    requires 0 < divisor
    ensures (n + PadSize(n, divisor)) % divisor == 0
    ensures n <= m && m % divisor == 0 ==> n + PadSize(n, divisor) <= m
  {
    var q, r := n / divisor, n % divisor;
    if r != 0 {
      assert n + PadSize(n, divisor) == divisor * (q + 1) + 0;
      DivUnique(n + PadSize(n, divisor), divisor, q + 1, 0);
      if n <= m && m % divisor == 0 {
        var p := m / divisor;
        assert m == divisor * p;
        MulMono(p, q, divisor);
        MulMono(q + 1, p, divisor);
      }
    }
  }

  /** `pad_dataproto_to_divisor` */
  method PadToDivisor<A, B>(b: Batch<A, B>, divisor: nat) returns (r: Result<(Batch<A, B>, nat), BatchError>)
    requires Valid(b)
    ensures r.Err? <==> divisor == 0
    ensures r.Ok? ==> r.value.1 == PadSize(b.rows, divisor)
    ensures r.Ok? && b.rows == 0 ==> r.value.0 == b
    ensures r.Ok? && b.rows > 0 ==> r.value.0 == Gather(b, Wrapped(b.rows, b.rows + PadSize(b.rows, divisor)))
  {
    if divisor == 0 {
      return Err(ZeroSize);
    }
    var n := b.rows;
    if n % divisor == 0 {
      if n > 0 {
        GatherAll(b);
        WrapStep(n, 0, n);
        assert Wrapped(n, n) == Range(0, n);
      }
      return Ok((b, 0));
    }
    var padSize := divisor - n % divisor;
    var pieces, indices := PaddingPieces(b, padSize);
    JoinAllOfGathers(pieces, b, indices);
    var padded := ConcatBatches(pieces);
    r := Ok((padded.value, padSize));
  }

  /** The batch itself, and the slices that fill it up. */
  method PaddingPieces<A, B>(b: Batch<A, B>, padSize: nat)
    returns (pieces: seq<Batch<A, B>>, ghost indices: seq<seq<nat>>)
    requires Valid(b) && 0 < b.rows
    ensures pieces != [] && AreGathers(pieces, b, indices) && Concat(indices) == Wrapped(b.rows, b.rows + padSize)
  {
    var n := b.rows;
    GatherAll(b);
    pieces, indices := [b], [Range(0, n)];
    WrapStep(n, 0, n);
    ghost var none: seq<seq<nat>> := [];
    ConcatSnoc(none, Range(0, n));
    assert none + [Range(0, n)] == indices && Wrapped(n, 0) == [] && Concat(none) == [];
    var remaining := padSize;
    ghost var done := n;
    WrapWhole(n, 0);
    while remaining > 0
      invariant 0 <= remaining <= padSize && pieces != [] && AreGathers(pieces, b, indices)
      invariant done == n + padSize - remaining && Concat(indices) == Wrapped(n, done)
      invariant remaining > 0 ==> done % n == 0
    {
      var take := Min(remaining, n);
      SliceIsGather(b, 0, take);
      WrapStep(n, done, take);
      WrapWhole(n, done);
      ConcatSnoc(indices, Range(0, take));
      pieces := pieces + [Slice(b, 0, take)];
      indices, done := indices + [Range(0, take)], done + take;
      remaining := remaining - take;
    }
    assert done == n + padSize;
  }

  lemma ConcatSnoc<T>(xs: seq<seq<T>>, x: seq<T>)
    ensures Concat(xs + [x]) == Concat(xs) + x
  {
    ConcatAppend(xs, [x]);
    assert [x][1..] == [];
  }

  /** `unpad_dataproto` */
  method Unpad<A, B>(b: Batch<A, B>, padSize: nat) returns (r: Batch<A, B>)
    requires Valid(b)
    ensures r == Slice(b, 0, if padSize <= b.rows then b.rows - padSize else 0)
  {
    if padSize == 0 {
      SliceIsGather(b, 0, b.rows);
      GatherAll(b);
      return b;
    }
    r := Slice(b, 0, if padSize <= b.rows then b.rows - padSize else 0);
  }

  lemma PickOfPick<T>(c: Columns<T>, n: nat, x: seq<nat>, y: seq<nat>)
    requires AllRows(c, n) && Fits(x, n) && Fits(y, |x|)
    ensures PickColumns(PickColumns(c, n, x), |x|, y) == PickColumns(c, n, Pick(x, y))
  {
    forall key | key in c ensures Pick(Pick(c[key], x), y) == Pick(c[key], Pick(x, y)) {
    }
  }

  lemma GatherOfGather<A, B>(b: Batch<A, B>, x: seq<nat>, y: seq<nat>)
    requires Valid(b) && Fits(x, b.rows) && Fits(y, |x|)
    ensures Fits(Pick(x, y), b.rows) && Gather(Gather(b, x), y) == Gather(b, Pick(x, y))
  {
    PickOfPick(b.objects, b.rows, x, y);
    if b.tensors.Some? {
      PickOfPick(b.tensors.value, b.rows, x, y);
    }
  }

  /** Unpadding undoes padding. */
  lemma UnpadUndoesPad<A, B>(b: Batch<A, B>, pad: nat)
    requires Valid(b) && 0 < b.rows
    ensures Slice(Gather(b, Wrapped(b.rows, b.rows + pad)), 0, b.rows) == b
  {
    var n := b.rows;
    var index := Wrapped(n, n + pad);
    SliceIsGather(Gather(b, index), 0, n);
    GatherOfGather(b, index, Range(0, n));
    forall i | 0 <= i < n ensures i % n == i {
      DivUnique(i, n, 0, i);
    }
    assert Pick(index, Range(0, n)) == Range(0, n);
    GatherAll(b);
  }

  // ---------------------------------------------------------- chunk and split

  /** `np.array_split` at cut points. */
  function SplitAt<T>(column: seq<T>, cuts: seq<nat>): (r: seq<seq<T>>)
    requires forall i :: 0 <= i < |cuts| ==> cuts[i] <= |column|
    requires forall i :: 0 <= i < |cuts| - 1 ==> cuts[i] <= cuts[i + 1]
    ensures |r| == |cuts| + 1
  {
    seq(|cuts| + 1, i requires 0 <= i <= |cuts| =>
      column[if i == 0 then 0 else cuts[i - 1]..if i == |cuts| then |column| else cuts[i]])
  }

  /** The sum of the first m sizes: `np.cumsum(sizes)[m - 1]`. */
  function Total(sizes: seq<nat>, m: nat): nat
    requires m <= |sizes|
  {
    if m == 0 then 0 else Total(sizes, m - 1) + sizes[m - 1]
  }

  lemma {:induction false} TotalGrows(sizes: seq<nat>, m: nat, m': nat)
    requires m <= m' <= |sizes|
    ensures Total(sizes, m) <= Total(sizes, m')
    decreases m'
  {
    if m < m' {
      TotalGrows(sizes, m, m' - 1);
    }
  }

  /** `np.cumsum(sizes)[:-1]` */
  function Cuts(sizes: seq<nat>): (r: seq<nat>)
    requires sizes != []
    ensures |r| == |sizes| - 1 && forall i :: 0 <= i < |r| ==> r[i] == Total(sizes, i + 1)
    ensures forall i :: 0 <= i < |r| ==> r[i] <= Total(sizes, |sizes|)
    ensures forall i :: 0 <= i < |r| - 1 ==> r[i] <= r[i + 1]
  {
    var r := seq(|sizes| - 1, i requires 0 <= i < |sizes| - 1 => Total(sizes, i + 1));
    assert forall i :: 0 <= i < |r| ==> r[i] <= Total(sizes, |sizes|) && (i + 1 < |r| ==> r[i] <= r[i + 1]) by {
      forall i: nat | i < |r| ensures r[i] <= Total(sizes, |sizes|) && (i + 1 < |r| ==> r[i] <= r[i + 1]) {
        TotalGrows(sizes, i + 1, |sizes|);
        TotalGrows(sizes, i + 1, i + 2);
      }
    }
    r
  }

  /** The batch sizes of the pieces `TensorDict.chunk` makes of n rows. */
  function ChunkSizes(n: nat, k: nat): (r: seq<nat>)
    requires 0 < k
    ensures |r| == |Chunk(Range(0, n), k)|
  {
    var pieces := Chunk(Range(0, n), k);
    seq(|pieces|, i requires 0 <= i < |pieces| => |pieces[i]|)
  }

  /** The section sizes of `np.array_split(_, k)`: the first n mod k sections get one row more. */
  function SectionSizes(n: nat, k: nat): (r: seq<nat>)
    requires 0 < k
    ensures |r| == k
  {
    seq(k, i requires 0 <= i < k => n / k + if i < n % k then 1 else 0)
  }

  /** The sizes at which the object columns are cut: those of the tensor pieces, if there are any. */
  function PieceSizes(tensors: bool, n: nat, k: nat): seq<nat>
    requires 0 < k
  {
    if tensors then ChunkSizes(n, k) else SectionSizes(n, k)
  }

  /** Where piece i begins. */
  function Start(tensors: bool, n: nat, k: nat, i: nat): nat
    requires 0 < k
  {
    if tensors then ChunkStart(n, CeilDiv(n, k), i) else SectionStart(n / k, n % k, i)
  }

  function ChunkStart(n: nat, size: nat, i: nat): nat {
    MulMono(0, i, size);
    Min(i * size, n)
  }

  /** i sections of q rows, the first `more` of them with one more. */
  function SectionStart(q: nat, more: nat, i: nat): nat {
    MulMono(0, i, q);
    i * q + Min(i, more)
  }

  lemma LastStart(tensors: bool, n: nat, k: nat)
    requires 0 < k
    ensures Start(tensors, n, k, 0) == 0 && Start(tensors, n, k, k) == n
  {
    CeilDivBounds(n, k);
    assert n == k * (n / k) + n % k;
  }

  /** One step from the start of a piece to the start of the next. */
  lemma NextStart(n: nat, k: nat, i: nat)
    requires 0 < k
    ensures Start(false, n, k, i + 1) == Start(false, n, k, i) + n / k + if i < n % k then 1 else 0
    ensures (i + 1) * CeilDiv(n, k) == i * CeilDiv(n, k) + CeilDiv(n, k)
  {
    NextSection(n / k, n % k, i);
  }

  lemma NextSection(q: nat, more: nat, i: nat)
    ensures SectionStart(q, more, i + 1) == SectionStart(q, more, i) + q + if i < more then 1 else 0
  {
    assert (i + 1) * q == i * q + q;
  }

  lemma ChunkStartsGrow(n: nat, size: nat, i: nat, j: nat)
    requires i <= j
    ensures ChunkStart(n, size, i) <= ChunkStart(n, size, j)
  {
    MulMono(i, j, size);
  }

  lemma SectionStartsGrow(q: nat, more: nat, i: nat, j: nat)
    requires i <= j
    ensures SectionStart(q, more, i) <= SectionStart(q, more, j)
  {
    MulMono(i, j, q);
  }

  lemma StartsGrow(tensors: bool, n: nat, k: nat, i: nat, j: nat)
    requires 0 < k && i <= j
    ensures Start(tensors, n, k, i) <= Start(tensors, n, k, j)
  {
    ChunkStartsGrow(n, CeilDiv(n, k), i, j);
    SectionStartsGrow(n / k, n % k, i, j);
  }

  lemma StartsInside(tensors: bool, n: nat, k: nat, i: nat)
    requires 0 < k && i < k
    ensures Start(tensors, n, k, i) <= Start(tensors, n, k, i + 1) <= n
  {
    StartsGrow(tensors, n, k, i, i + 1);
    StartsGrow(tensors, n, k, i + 1, k);
    LastStart(tensors, n, k);
  }

  /** Cutting n rows into chunks of equal size, the last one smaller, gives k chunks. */
  predicate MakesAllChunks(n: nat, k: nat)
    requires 0 < k
  {
    CeilDivBounds(n, k);
    n > 0 ==> CeilDiv(n, CeilDiv(n, k)) == k
  }

  /** A tensor column gives k chunks exactly then, and chunk i is the rows from its start on. */
  lemma ChunkCount<T>(column: seq<T>, k: nat)
    requires 0 < k
    ensures |Chunk(column, k)| == k <==> MakesAllChunks(|column|, k)
  {
    if column != [] {
      CeilDivBounds(|column|, k);
      ChunksOfCount(column, CeilDiv(|column|, k));
    }
  }

  lemma ChunkIsRange<T>(column: seq<T>, k: nat, i: nat)
    requires 0 < k && MakesAllChunks(|column|, k) && i < k
    ensures Start(true, |column|, k, i) <= Start(true, |column|, k, i + 1) <= |column|
    ensures |Chunk(column, k)| == k
    ensures Chunk(column, k)[i] == column[Start(true, |column|, k, i)..Start(true, |column|, k, i + 1)]
  {
    ChunkCount(column, k);
    StartsInside(true, |column|, k, i);
    NextStart(|column|, k, i);
    if column != [] {
      CeilDivBounds(|column|, k);
      ChunksOfAt(column, CeilDiv(|column|, k), i);
    }
  }

  lemma {:induction false} SizesAddUp(tensors: bool, n: nat, k: nat, m: nat)
    requires 0 < k && m <= k && (tensors ==> MakesAllChunks(n, k))
    ensures |PieceSizes(tensors, n, k)| == k && Total(PieceSizes(tensors, n, k), m) == Start(tensors, n, k, m)
  {
    if tensors {
      ChunkCount(Range(0, n), k);
    }
    LastStart(tensors, n, k);
    if m > 0 {
      SizesAddUp(tensors, n, k, m - 1);
      NextStart(n, k, m - 1);
      if tensors {
        ChunkIsRange(Range(0, n), k, m - 1);
      }
    }
  }

  /** Cut at the cumulated sizes, an object column gives the rows from the same start on. */
  lemma SplitIsRange<T>(column: seq<T>, tensors: bool, k: nat, i: nat)
    requires 0 < k && i < k && (tensors ==> MakesAllChunks(|column|, k))
    ensures |PieceSizes(tensors, |column|, k)| == k && Total(PieceSizes(tensors, |column|, k), k) == |column|
    ensures Start(tensors, |column|, k, i) <= Start(tensors, |column|, k, i + 1) <= |column|
    ensures SplitAt(column, Cuts(PieceSizes(tensors, |column|, k)))[i]
         == column[Start(tensors, |column|, k, i)..Start(tensors, |column|, k, i + 1)]
  {
    var n := |column|;
    SizesAddUp(tensors, n, k, k);
    LastStart(tensors, n, k);
    SizesAddUp(tensors, n, k, i);
    SizesAddUp(tensors, n, k, i + 1);
    StartsInside(tensors, n, k, i);
  }

  /** The rows of piece i of k. */
  function ChunkRange(tensors: bool, n: nat, k: nat, i: nat): (r: seq<nat>)
    requires 0 < k && i < k
    ensures Fits(r, n)
  {
    StartsInside(tensors, n, k, i);
    Range(Start(tensors, n, k, i), Start(tensors, n, k, i + 1))
  }

  function ChunkRanges(tensors: bool, n: nat, k: nat, m: nat): (r: seq<seq<nat>>)
    requires 0 < k && m <= k
    ensures |r| == m && forall i :: 0 <= i < m ==> r[i] == ChunkRange(tensors, n, k, i)
  {
    seq(m, i requires 0 <= i < m => ChunkRange(tensors, n, k, i))
  }

  lemma RangesAppend(lo: nat, hi: nat)
    requires lo <= hi
    ensures Range(0, lo) + Range(lo, hi) == Range(0, hi)
  {
  }

  /** The pieces' rows, one after the other, are all rows. */
  lemma {:induction false} ChunkRangesCover(tensors: bool, n: nat, k: nat, m: nat)
    requires 0 < k && m <= k
    ensures Concat(ChunkRanges(tensors, n, k, m)) == Range(0, Start(tensors, n, k, m))
  {
    if m == 0 {
      LastStart(tensors, n, k);
    } else {
      var before, last := ChunkRanges(tensors, n, k, m - 1), ChunkRange(tensors, n, k, m - 1);
      ChunkRangesCover(tensors, n, k, m - 1);
      StartsInside(tensors, n, k, m - 1);
      assert ChunkRanges(tensors, n, k, m) == before + [last];
      ConcatSnoc(before, last);
      RangesAppend(Start(tensors, n, k, m - 1), Start(tensors, n, k, m));
    }
  }

  /** Piece i of every column, each chunked or cut at the cumulated sizes. */
  function ChunkColumns<T>(c: Columns<T>, n: nat, k: nat, i: nat): Columns<T>
    requires AllRows(c, n) && 0 < k && i < k && MakesAllChunks(n, k)
  {
    map key | key in c :: (ChunkCount(c[key], k); Chunk(c[key], k)[i])
  }

  function SplitColumns<T>(c: Columns<T>, n: nat, sizes: seq<nat>, i: nat): Columns<T>
    requires AllRows(c, n) && i < |sizes| && Total(sizes, |sizes|) == n
  {
    map key | key in c :: SplitAt(c[key], Cuts(sizes))[i]
  }

  predicate Chunkable<A, B>(b: Batch<A, B>, k: nat) {
    0 < k && (b.tensors.Some? ==> MakesAllChunks(b.rows, k))
  }

  /** Piece i, built from chunked tensors and split objects. */
  function ChunkOf<A, B>(b: Batch<A, B>, k: nat, i: nat): Batch<A, B>
    requires Valid(b) && Chunkable(b, k) && i < k
  {
    SizesAddUp(b.tensors.Some?, b.rows, k, k);
    LastStart(b.tensors.Some?, b.rows, k);
    var sizes := PieceSizes(b.tensors.Some?, b.rows, k);
    Batch(sizes[i], if b.tensors.Some? then Some(ChunkColumns(b.tensors.value, b.rows, k, i)) else None,
          SplitColumns(b.objects, b.rows, sizes, i))
  }

  lemma SplitColumnsIsPick<T>(c: Columns<T>, tensors: bool, n: nat, k: nat, i: nat)
    requires AllRows(c, n) && 0 < k && i < k && (tensors ==> MakesAllChunks(n, k))
    requires |PieceSizes(tensors, n, k)| == k && Total(PieceSizes(tensors, n, k), k) == n
    ensures SplitColumns(c, n, PieceSizes(tensors, n, k), i) == PickColumns(c, n, ChunkRange(tensors, n, k, i))
  {
    var l, r := SplitColumns(c, n, PieceSizes(tensors, n, k), i), PickColumns(c, n, ChunkRange(tensors, n, k, i));
    forall key | key in c ensures l[key] == r[key] {
      SplitIsRange(c[key], tensors, k, i);
      RangeIsPick(c[key], Start(tensors, n, k, i), Start(tensors, n, k, i + 1));
    }
  }

  lemma ChunkColumnsIsPick<T>(c: Columns<T>, n: nat, k: nat, i: nat)
    requires AllRows(c, n) && 0 < k && i < k && MakesAllChunks(n, k)
    ensures ChunkColumns(c, n, k, i) == PickColumns(c, n, ChunkRange(true, n, k, i))
  {
    var l, r := ChunkColumns(c, n, k, i), PickColumns(c, n, ChunkRange(true, n, k, i));
    forall key | key in c ensures l[key] == r[key] {
      ChunkIsRange(c[key], k, i);
      RangeIsPick(c[key], Start(true, n, k, i), Start(true, n, k, i + 1));
    }
  }

  /** Tensors and objects of a piece are moved by the same row map, whatever its size. */
  lemma ChunkIsGather<A, B>(b: Batch<A, B>, k: nat, i: nat)
    requires Valid(b) && Chunkable(b, k) && i < k
    ensures ChunkOf(b, k, i) == Gather(b, ChunkRange(b.tensors.Some?, b.rows, k, i))
  {
    var tensors := b.tensors.Some?;
    SizesAddUp(tensors, b.rows, k, k);
    LastStart(tensors, b.rows, k);
    SizesAddUp(tensors, b.rows, k, i);
    SizesAddUp(tensors, b.rows, k, i + 1);
    StartsInside(tensors, b.rows, k, i);
    SplitColumnsIsPick(b.objects, tensors, b.rows, k, i);
    if tensors {
      ChunkColumnsIsPick(b.tensors.value, b.rows, k, i);
    }
  }

  /** Cut without tensors, the pieces differ by one row at most, the longer ones first. */
  lemma SectionsAreEven(n: nat, k: nat, i: nat, j: nat)
    requires 0 < k && i <= j < k
    ensures |ChunkRange(false, n, k, j)| <= |ChunkRange(false, n, k, i)| <= |ChunkRange(false, n, k, j)| + 1
  {
    NextStart(n, k, i);
    NextStart(n, k, j);
  }

  /** Cut with tensors, all pieces but the last have the same number of rows, and that one no more. */
  lemma ChunksAreFull(n: nat, k: nat, i: nat)
    requires 0 < k && i < k && MakesAllChunks(n, k)
    ensures |ChunkRange(true, n, k, i)| <= CeilDiv(n, k)
    ensures i < k - 1 ==> |ChunkRange(true, n, k, i)| == CeilDiv(n, k)
  {
    StartsInside(true, n, k, i);
    ChunkLength(n, CeilDiv(n, k), i);
    if n > 0 && i < k - 1 {
      ChunkFits(n, k, CeilDiv(n, k), i);
    }
  }

  lemma ChunkLength(n: nat, size: nat, i: nat)
    ensures ChunkStart(n, size, i + 1) <= ChunkStart(n, size, i) + size
    ensures (i + 1) * size <= n ==> ChunkStart(n, size, i + 1) == ChunkStart(n, size, i) + size
  {
    assert (i + 1) * size == i * size + size;
  }

  lemma ChunkFits(n: nat, k: nat, size: nat, i: nat)
    requires 0 < size && 0 < n && CeilDiv(n, size) == k && i < k - 1
    ensures (i + 1) * size <= n
  {
    CeilDivBounds(n, size);
    MulMono(i + 1, k - 1, size);
  }

  /** With a whole number w of rows for each chunk, piece i is rows i*w .. (i+1)*w - 1. */
  lemma EqualChunks(tensors: bool, n: nat, k: nat)
    requires 0 < k && n % k == 0
    ensures MakesAllChunks(n, k)
    ensures forall i: nat :: i <= k ==> Start(tensors, n, k, i) == i * (n / k)
  {
    var w := n / k;
    assert n == k * w;
    CeilDivIs(n, k, w) by {
      assert w * k == n;
      assert (w - 1) * k == n - k;
    }
    if n > 0 {
      CeilDivIs(n, w, k) by {
        assert (k - 1) * w == n - w;
      }
    }
    forall i: nat | i <= k ensures Start(tensors, n, k, i) == i * w {
      MulMono(i, k, w);
    }
  }

  /** `chunk`; `padding` is is_padding_enabled().  With padding the pieces may differ in size, but
      a table with tensors must give all k of them. */
  method ChunkBatch<A, B>(b: Batch<A, B>, k: nat, padding: bool) returns (r: Result<seq<Batch<A, B>>, BatchError>)
    requires Valid(b)
    ensures 0 < k ==> (r.Ok? <==> (padding || b.rows % k == 0) && (b.tensors.Some? ==> MakesAllChunks(b.rows, k)))
    ensures 0 < k && b.rows % k == 0 ==> r.Ok?
    ensures r == Err(UnequalChunks) <==> !padding && 0 < k && b.rows % k != 0
    ensures k == 0 ==> r == if padding && b.tensors.None? && |b.objects| == 0 then Ok([]) else Err(ZeroSize)
    ensures r.Ok? ==> |r.value| == k
    ensures r.Ok? ==> forall i :: 0 <= i < k ==> r.value[i] == Gather(b, ChunkRange(b.tensors.Some?, b.rows, k, i))
  {
    if !padding {
      if k == 0 { return Err(ZeroSize); }
      if b.rows % k != 0 { return Err(UnequalChunks); }
    }
    if k == 0 {
      return if b.tensors.None? && |b.objects| == 0 then Ok([]) else Err(ZeroSize);
    }
    ChunkCount(Range(0, b.rows), k);
    if b.rows % k == 0 {
      EqualChunks(b.tensors.Some?, b.rows, k);
    }
    if b.tensors.Some? && |ChunkSizes(b.rows, k)| != k {
      return Err(TooFewChunks);
    }
    var output: seq<Batch<A, B>> := [];
    for i := 0 to k
      invariant |output| == i
      invariant forall j :: 0 <= j < i ==> output[j] == Gather(b, ChunkRange(b.tensors.Some?, b.rows, k, j))
    {
      ChunkIsGather(b, k, i);
      output := output + [ChunkOf(b, k, i)];
    }
    r := Ok(output);
  }

  /** Five rows cannot be chunked for four workers: chunks of two rows make only three. */
  lemma FiveRowsForFour()
    ensures !MakesAllChunks(5, 4)
    ensures |Chunk(Range(0, 5), 4)| == 3
  {
    CeilDivIs(5, 4, 2);
    CeilDivIs(5, 2, 3);
    ChunksOfCount(Range(0, 5), 2);
  }

  /** `split` */
  method SplitBatch<A, B>(b: Batch<A, B>, size: nat)
    returns (r: Result<seq<Batch<A, B>>, BatchError>, ghost indices: seq<seq<nat>>)
    requires Valid(b)
    ensures r.Ok? <==> 0 < size
    ensures r.Ok? ==> |r.value| == CeilDiv(b.rows, size)
                      && AreGathers(r.value, b, indices) && Concat(indices) == Range(0, b.rows)
    ensures r.Ok? ==> forall i :: 0 <= i < |r.value| - 1 ==> r.value[i].rows == size
  {
    indices := [];
    if size == 0 {
      return Err(ZeroSize), indices;
    }
    var output: seq<Batch<A, B>>, i := [], 0;
    while i < b.rows
      invariant AreGathers(output, b, indices) && i == |output| * size
      invariant |output| > 0 ==> (|output| - 1) * size < b.rows
      invariant Concat(indices) == Range(0, Min(i, b.rows))
      invariant forall j :: 0 <= j < |output| ==> output[j].rows == size || (j == |output| - 1 && i >= b.rows)
      decreases b.rows - i
    {
      var hi := Min(i + size, b.rows);
      SliceIsGather(b, i, hi);
      ConcatSnoc(indices, Range(i, hi));
      assert Range(0, i) + Range(i, hi) == Range(0, hi);
      output := output + [Slice(b, i, hi)];
      indices := indices + [Range(i, hi)];
      assert |output| * size == (|output| - 1) * size + size;
      i := i + size;
    }
    CeilDivIs(b.rows, size, |output|);
    r := Ok(output);
  }

  /** Chunks, concatenated, are the batch, of equal size or not. */
  method ConcatOfChunks<A, B>(b: Batch<A, B>, k: nat, padding: bool) returns (r: Result<Batch<A, B>, BatchError>)
    requires Valid(b) && 0 < k
    ensures r.Ok? <==> (padding || b.rows % k == 0) && (b.tensors.Some? ==> MakesAllChunks(b.rows, k))
    ensures b.rows % k == 0 ==> r.Ok?
    ensures r.Ok? ==> r.value == b
  {
    var chunks := ChunkBatch(b, k, padding);
    if chunks.Err? {
      return Err(chunks.error);
    }
    ghost var tensors := b.tensors.Some?;
    ChunkRangesCover(tensors, b.rows, k, k);
    LastStart(tensors, b.rows, k);
    GatherAll(b);
    JoinAllOfGathers(chunks.value, b, ChunkRanges(tensors, b.rows, k, k));
    r := ConcatBatches(chunks.value);
  }

  /** Splits, concatenated, are the batch, unless there is no row: then there is nothing to
      concatenate, and it raises. */
  method ConcatOfSplits<A, B>(b: Batch<A, B>, size: nat) returns (r: Result<Batch<A, B>, BatchError>)
    requires Valid(b) && 0 < size
    ensures r == if b.rows > 0 then Ok(b) else Err(NothingToConcat)
  {
    var pieces, indices := SplitBatch(b, size);
    GatherAll(b);
    CeilDivBounds(b.rows, size);
    if b.rows == 0 {
      CeilDivIs(0, size, 0);
    } else {
      JoinAllOfGathers(pieces.value, b, indices);
    }
    r := ConcatBatches(pieces.value);
  }

  /** The path of a batch to k workers and back: padded to a multiple of k, chunked, concatenated
      and unpadded, it is unchanged. */
  method Dispatch<A, B>(b: Batch<A, B>, k: nat) returns (r: Batch<A, B>)
    requires Valid(b) && 0 < k && 0 < b.rows
    ensures r == b
  {
    var padded := PadToDivisor(b, k);
    var (data, padSize) := padded.value;
    PaddedLength(b.rows, k, b.rows);
    var joined := ConcatOfChunks(data, k, false);
    UnpadUndoesPad(b, padSize);
    r := Unpad(joined.value, padSize);
  }

  // ------------------------------------------------------------------ repeat

  /** Row j of the repeated table is this row of the table. */
  function RepeatedRow(n: nat, times: nat, interleave: bool, j: nat): (r: nat)
    requires j < n * times
    ensures r < n
  {
    MulMono(n, 0, times);
    MulMono(times, 0, n);
    assert n * times == times * n;
    QuotientBelow(j, n, times);
    if interleave then j / times else j % n
  }

  function RepeatedRows(n: nat, times: nat, interleave: bool): (r: seq<nat>)
    ensures |r| == n * times && Fits(r, n)
    ensures forall j: nat :: j < |r| ==> r[j] == RepeatedRow(n, times, interleave, j)
  {
    MulMono(0, n, times);
    seq(n * times, j requires 0 <= j < n * times => RepeatedRow(n, times, interleave, j))
  }

  lemma QuotientBelow(j: nat, n: nat, w: nat)
    requires j < n * w
    ensures 0 < w && j / w < n && j % w < w
  {
    var q, r := DivMod(j, n, w);
  }

  lemma DivMod(j: nat, n: nat, w: nat) returns (q: nat, r: nat)
    requires j < n * w
    ensures 0 < w && q == j / w < n && r == j % w < w && j == q * w + r
  {
    assert w == 0 ==> n * w == 0;
    q, r := j / w, j % w;
    assert j == w * q + r;
    MulMono(n, q, w);
  }

  /** Row j of a concatenation of blocks of w rows. */
  lemma RowOfConcat<T>(xs: seq<seq<T>>, w: nat, j: nat)
    requires Uniform(xs, w) && j < |xs| * w
    ensures |Concat(xs)| == |xs| * w && 0 < w && j / w < |xs| && Concat(xs)[j] == xs[j / w][j % w]
  {
    BlocksOfConcat(xs, w);
    var q, r := DivMod(j, |xs|, w);
    BlockAt(Concat(xs), |xs|, w, q);
    RowOfSlice(Concat(xs), q * w, w, r);
  }

  lemma RowOfSlice<T>(rows: seq<T>, start: nat, w: nat, r: nat)
    requires start + w <= |rows| && r < w
    ensures rows[start..start + w][r] == rows[start + r]
  {
  }

  function Copies<T>(x: T, times: nat): (r: seq<T>)
    ensures |r| == times && forall j :: 0 <= j < times ==> r[j] == x
  {
    seq(times, _ => x)
  }

  // Tensors.

  /** The index that `repeat_interleave` selects by: 0 `times` times, then 1 `times` times, ... */
  function InterleavedIndex(n: nat, times: nat): seq<nat> {
    Concat(seq(n, (i: nat) requires i < n => Copies(i, times)))
  }

  lemma InterleavedIndexRows(n: nat, times: nat)
    ensures InterleavedIndex(n, times) == RepeatedRows(n, times, true)
  {
    var xs: seq<seq<nat>> := seq(n, (i: nat) requires i < n => Copies(i, times));
    BlocksOfConcat(xs, times);
    forall j: nat | j < n * times ensures Concat(xs)[j] == RepeatedRow(n, times, true, j) {
      RowOfConcat(xs, times, j);
    }
  }

  /** `tensor.repeat_interleave(times, dim=0)` */
  function RepeatInterleave<T>(column: seq<T>, times: nat): seq<T> {
    InterleavedIndexRows(|column|, times);
    Pick(column, InterleavedIndex(|column|, times))
  }

  function Unsqueeze<T>(column: seq<T>): seq<seq<T>> {
    [column]
  }

  /** A view with the single row repeated. */
  function Expand<T>(matrix: seq<seq<T>>, times: nat): seq<seq<T>>
    requires |matrix| == 1
  {
    Copies(matrix[0], times)
  }

  /** `reshape(-1, ...)`: the rows in row-major order. */
  function Reshape<T>(matrix: seq<seq<T>>, w: nat): seq<T>
    requires Uniform(matrix, w)
  {
    MulMono(0, |matrix|, w);
    seq(|matrix| * w, j requires 0 <= j < |matrix| * w => (QuotientBelow(j, |matrix|, w); matrix[j / w][j % w]))
  }

  function RepeatTensor<T>(column: seq<T>, times: nat, interleave: bool): seq<T> {
    if interleave then RepeatInterleave(column, times)
    else Reshape(Expand(Unsqueeze(column), times), |column|)
  }

  lemma RepeatTensorRows<T>(column: seq<T>, times: nat, interleave: bool)
    ensures RepeatTensor(column, times, interleave) == Pick(column, RepeatedRows(|column|, times, interleave))
  {
    var n := |column|;
    if interleave {
      InterleavedIndexRows(n, times);
    } else {
      var l, r := RepeatTensor(column, times, false), Pick(column, RepeatedRows(n, times, false));
      assert |l| == times * n == n * times == |r|;
      forall j: nat | j < |l| ensures l[j] == r[j] {
        QuotientBelow(j, times, n);
      }
    }
  }

  // Objects.

  /** `np.repeat(column, times, axis=0)`: each row copied out `times` times. */
  function RepeatEach<T>(column: seq<T>, times: nat): seq<T> {
    if column == [] then [] else Copies(column[0], times) + RepeatEach(column[1..], times)
  }

  /** `np.tile`: the column as the only row of a matrix, that row repeated, and flattened. */
  function Tile<T>(column: seq<T>, times: nat): seq<T> {
    Concat(RepeatEach([column], times))
  }

  function RepeatObject<T>(column: seq<T>, times: nat, interleave: bool): seq<T> {
    if interleave then RepeatEach(column, times) else Tile(column, times)
  }

  lemma {:induction false} RepeatEachRows<T>(column: seq<T>, times: nat)
    ensures RepeatEach(column, times) == Concat(seq(|column|, i requires 0 <= i < |column| => Copies(column[i], times)))
    decreases |column|
  {
    var xs := seq(|column|, i requires 0 <= i < |column| => Copies(column[i], times));
    if column != [] {
      RepeatEachRows(column[1..], times);
      var rest := seq(|column[1..]|, i requires 0 <= i < |column[1..]| => Copies(column[1..][i], times));
      assert xs[1..] == rest;
      assert xs[0] == Copies(column[0], times);
    }
  }

  lemma RepeatObjectRows<T>(column: seq<T>, times: nat, interleave: bool)
    ensures RepeatObject(column, times, interleave) == Pick(column, RepeatedRows(|column|, times, interleave))
  {
    var n := |column|;
    var r := Pick(column, RepeatedRows(n, times, interleave));
    if interleave {
      RepeatEachRows(column, times);
      var xs := seq(n, i requires 0 <= i < n => Copies(column[i], times));
      BlocksOfConcat(xs, times);
      forall j: nat | j < |r| ensures Concat(xs)[j] == r[j] {
        RowOfConcat(xs, times, j);
      }
    } else {
      TileRows(column, times);
    }
  }

  lemma TileRows<T>(column: seq<T>, times: nat)
    ensures Tile(column, times) == Pick(column, RepeatedRows(|column|, times, false))
  {
    var n, r := |column|, Pick(column, RepeatedRows(|column|, times, false));
    var xs := RepeatEach([column], times);
    assert xs == Copies(column, times) by {
      assert [column][1..] == [];
      assert RepeatEach([column][1..], times) == [];
    }
    BlocksOfConcat(xs, n);
    assert |Concat(xs)| == times * n == n * times == |r|;
    forall j: nat | j < |r| ensures Concat(xs)[j] == r[j] {
      RowOfConcat(xs, n, j);
    }
  }

  /** `repeat`: tensors by torch, objects by numpy. */
  function RepeatBatch<A, B>(b: Batch<A, B>, times: nat, interleave: bool): Batch<A, B> {
    MulMono(0, b.rows, times);
    Batch(b.rows * times,
          if b.tensors.Some?
          then Some(map key | key in b.tensors.value :: RepeatTensor(b.tensors.value[key], times, interleave))
          else None,
          map key | key in b.objects :: RepeatObject(b.objects[key], times, interleave))
  }

  /** Both kinds of columns are moved by the same row map, in both modes. */
  lemma RepeatIsGather<A, B>(b: Batch<A, B>, times: nat, interleave: bool)
    requires Valid(b)
    ensures RepeatBatch(b, times, interleave) == Gather(b, RepeatedRows(b.rows, times, interleave))
  {
    var l, r := RepeatBatch(b, times, interleave), Gather(b, RepeatedRows(b.rows, times, interleave));
    forall key | key in b.objects ensures l.objects[key] == r.objects[key] {
      RepeatObjectRows(b.objects[key], times, interleave);
    }
    assert l.objects == r.objects;
    if b.tensors.Some? {
      forall key | key in b.tensors.value ensures l.tensors.value[key] == r.tensors.value[key] {
        RepeatTensorRows(b.tensors.value[key], times, interleave);
      }
      assert l.tensors.value == r.tensors.value;
    }
  }
}
