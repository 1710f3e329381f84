/** What the NIXL and NCCL engines share: the state of the send loop over two swapped buffers,
    and the chunks a receiver yields from received buckets. */
module DoubleBuffer {
  import opened Prelude
  import opened WeightChunks
  import opened BucketPacking

  /** What rank 0 has to send, the buffer size, and the number of ranks behind it. */
  datatype Config = Config(chunks: seq<Chunk>, bucketSize: nat, receivers: nat)

  predicate GoodConfig(c: Config) {
    && 0 < c.bucketSize && 0 < c.receivers
    && WellSized(c.chunks, c.bucketSize)
    && FullUnlessLast(c.chunks, c.bucketSize)
  }

  /** The two registered buffers of a rank; they are named by a bool. */
  datatype Bufs = Bufs(first: seq<byte>, second: seq<byte>) {
    function Get(which: bool): seq<byte> {
      if which then second else first
    }

    function Set(which: bool, buf: seq<byte>): Bufs {
      if which then this.(second := buf) else this.(first := buf)
    }
  }

  /** The configuration of a transfer of `ws` to `receivers` ranks. */
  function TransferOf(ws: seq<Weight>, bucketSize: nat, receivers: nat): Config
    requires 0 < bucketSize
  {
    Config(Split(ws, bucketSize), bucketSize, receivers)
  }

  datatype SenderPc = Filling | Closing | SenderDone

  /** Rank 0 inside `send_weights`.  `cur` names send_buf, `next` the chunk to pack next,
      `waiting` the number of the transfer operation that has not been awaited yet. */
  datatype Sender = Sender(
    pc: SenderPc, next: nat, offset: nat, metas: seq<Placed>, cur: bool, bufs: Bufs,
    published: nat, waiting: Option<nat>)

  function Zeros(n: nat): seq<byte> {
    seq(n, _ => 0)
  }

  /** Nothing more fits: the loop over chunks must hand over the open bucket, or it is over. */
  predicate MustClose(c: Config, sd: Sender) {
    sd.next < |c.chunks| ==> sd.offset + c.chunks[sd.next].meta.chunkSize > c.bucketSize
  }

  /** `buf[offset : offset + len(data)] = data` */
  function WriteAt(buf: seq<byte>, offset: nat, data: seq<byte>): (r: seq<byte>)
    ensures |r| == |buf|
  {
    if offset + |data| <= |buf| then buf[..offset] + data + buf[offset + |data|..] else buf
  }

  /** The view `buf[offset : offset + chunk_size]`. */
  function View(buf: seq<byte>, m: Placed): Arrived {
    var from := Min(m.offset, |buf|);
    Arrived(Chunk(m.meta, buf[from..Min(m.offset + m.meta.chunkSize, |buf|)]), from)
  }

  function DoFill(c: Config, sd: Sender): Sender
    requires sd.next < |c.chunks|
  {
    var chunk := c.chunks[sd.next];
    sd.(next := sd.next + 1,
        metas := sd.metas + [Placed(chunk.meta, sd.offset)],
        bufs := sd.bufs.Set(sd.cur, WriteAt(sd.bufs.Get(sd.cur), sd.offset, chunk.data)),
        offset := sd.offset + chunk.meta.chunkSize)
  }

  /** Hand over send_buf; inside the loop the buffers are then swapped and a new bucket begun. */
  function DoPublish(c: Config, sd: Sender): Sender {
    var offered := sd.(published := sd.published + 1, waiting := Some(sd.published));
    if sd.next < |c.chunks| then offered.(cur := !sd.cur, metas := [], offset := 0)
    else offered.(pc := Closing)
  }

  /** The buckets rank 0 has to transfer. */
  function Sent(c: Config): seq<Bucket> {
    Buckets(c.chunks, c.bucketSize)
  }

  predicate Sized(size: nat, bufs: Bufs) {
    |bufs.first| == |bufs.second| == size
  }

  /** Rank 0's local variables agree with the packing of the chunks it has consumed. */
  predicate SenderInv(c: Config, sd: Sender)
    requires GoodConfig(c)
  {
    && Sized(c.bucketSize, sd.bufs)
    && sd.next <= |c.chunks|
    && sd.published <= |Sent(c)|
    && (sd.pc == Filling ==>
          var p := PackPrefix(c.chunks, sd.next, c.bucketSize);
          if sd.published == |p.closed| then
            sd.metas == p.open.metas && sd.offset == |p.open.payload| && SlicesOf(p.open, sd.bufs.Get(sd.cur))
          else
            && sd.published == |p.closed| + 1 && sd.metas == [] && sd.offset == 0
            && sd.next < |c.chunks| && !Fits(p.open, c.chunks[sd.next], c.bucketSize))
    && (sd.pc != Filling ==> sd.next == |c.chunks| && sd.published == |Sent(c)|)
    && (sd.pc == Closing ==> sd.waiting.Some?)
    && (sd.pc == SenderDone ==> sd.waiting == None)
    && (sd.waiting.Some? ==> sd.published > 0)
  }

  lemma ClosedIsPrefixOfSent(c: Config, n: nat)
    requires n <= |c.chunks|
    ensures PackPrefix(c.chunks, n, c.bucketSize).closed <= Sent(c)
    ensures |PackPrefix(c.chunks, n, c.bucketSize).closed| < |Sent(c)|
  {
    ClosedOnlyGrows(c.chunks, n, |c.chunks|, c.bucketSize);
    var closed, all := PackPrefix(c.chunks, n, c.bucketSize).closed, PackPrefix(c.chunks, |c.chunks|, c.bucketSize);
    assert closed <= all.closed && Sent(c) == all.closed + [all.open];
  }

  lemma OpenIsClosed(c: Config, n: nat)
    requires n < |c.chunks| && !Fits(PackPrefix(c.chunks, n, c.bucketSize).open, c.chunks[n], c.bucketSize)
    ensures var p := PackPrefix(c.chunks, n, c.bucketSize);
            PackPrefix(c.chunks, n + 1, c.bucketSize).closed == p.closed + [p.open]
  {
  }

  lemma ElementOfPrefix(closed: seq<Bucket>, open: Bucket, longer: seq<Bucket>, all: seq<Bucket>)
    requires longer == closed + [open] && longer <= all
    ensures |closed| < |all| && all[|closed|] == open
  {
    assert longer[|closed|] == open;
  }

  lemma MoreBucketsFollow(c: Config, n: nat)
    requires n < |c.chunks| && !Fits(PackPrefix(c.chunks, n, c.bucketSize).open, c.chunks[n], c.bucketSize)
    ensures |PackPrefix(c.chunks, n, c.bucketSize).closed| + 1 < |Sent(c)|
  {
    OpenIsClosed(c, n);
    ClosedIsPrefixOfSent(c, n + 1);
  }

  lemma InnerBucketIsSent(c: Config, n: nat)
    requires n < |c.chunks| && !Fits(PackPrefix(c.chunks, n, c.bucketSize).open, c.chunks[n], c.bucketSize)
    ensures var p := PackPrefix(c.chunks, n, c.bucketSize);
            |p.closed| < |Sent(c)| && Sent(c)[|p.closed|] == p.open
  {
    OpenIsClosed(c, n);
    ClosedIsPrefixOfSent(c, n + 1);
    var p, q := PackPrefix(c.chunks, n, c.bucketSize), PackPrefix(c.chunks, n + 1, c.bucketSize);
    ElementOfPrefix(p.closed, p.open, q.closed, Sent(c));
  }

  lemma LastBucketIsSent(c: Config)
    ensures var p := PackPrefix(c.chunks, |c.chunks|, c.bucketSize);
            |p.closed| + 1 == |Sent(c)| && Sent(c)[|p.closed|] == p.open
  {
  }

  /** The open bucket is handed over as it is when the next chunk does not fit, or at the end. */
  lemma FullBucketIsSent(c: Config, n: nat)
    requires n <= |c.chunks|
    requires n < |c.chunks| ==> !Fits(PackPrefix(c.chunks, n, c.bucketSize).open, c.chunks[n], c.bucketSize)
    ensures var p := PackPrefix(c.chunks, n, c.bucketSize);
            && |p.closed| < |Sent(c)| && Sent(c)[|p.closed|] == p.open
            && (|p.closed| + 1 == |Sent(c)| <==> n == |c.chunks|)
  {
    if n < |c.chunks| {
      InnerBucketIsSent(c, n);
      MoreBucketsFollow(c, n);
    } else {
      LastBucketIsSent(c);
    }
  }

  lemma WriteExtends(b: Bucket, buf: seq<byte>, data: seq<byte>)
    requires SlicesOf(b, buf) && |b.payload| + |data| <= |buf|
    ensures var buf' := WriteAt(buf, |b.payload|, data);
            |b.payload + data| <= |buf'| && buf'[..|b.payload + data|] == b.payload + data
  {
    var buf' := WriteAt(buf, |b.payload|, data);
    assert buf'[..|b.payload + data|] == buf[..|b.payload|] + data;
  }

  lemma FillKeepsSender(c: Config, sd: Sender)
    requires GoodConfig(c) && SenderInv(c, sd) && sd.pc == Filling
    requires sd.next < |c.chunks| && !MustClose(c, sd)
    ensures SenderInv(c, DoFill(c, sd))
  {
    var p := PackPrefix(c.chunks, sd.next, c.bucketSize);
    var chunk := c.chunks[sd.next];
    var open := if sd.published == |p.closed| then p.open else EMPTY_BUCKET;
    assert SlicesOf(open, sd.bufs.Get(sd.cur));
    WriteExtends(open, sd.bufs.Get(sd.cur), chunk.data);
    var q := PackPrefix(c.chunks, sd.next + 1, c.bucketSize);
    assert q.open == Put(open, chunk);
    ClosedIsPrefixOfSent(c, sd.next + 1);
  }

  lemma PublishKeepsSender(c: Config, sd: Sender)
    requires GoodConfig(c) && SenderInv(c, sd) && sd.pc == Filling && MustClose(c, sd)
    ensures SenderInv(c, DoPublish(c, sd))
    ensures sd.published < |Sent(c)| && sd.metas == Sent(c)[sd.published].metas
    ensures SlicesOf(Sent(c)[sd.published], sd.bufs.Get(sd.cur))
    ensures sd.published + 1 == |Sent(c)| <==> sd.next == |c.chunks|
  {
    var p := PackPrefix(c.chunks, sd.next, c.bucketSize);
    assert sd.next < |c.chunks| ==> c.chunks[sd.next].meta.chunkSize <= c.bucketSize;
    assert sd.published == |p.closed|;
    FullBucketIsSent(c, sd.next);
  }

  lemma FillKeepsNamesApart(c: Config, sd: Sender)
    requires GoodConfig(c) && SenderInv(c, sd) && sd.pc == Filling && sd.next < |c.chunks| && !MustClose(c, sd)
    ensures NotYetIn(sd.metas, c.chunks[sd.next].meta.name)
  {
    OpenNamesAreDistinct(c.chunks, sd.next + 1, c.bucketSize);
    var b := PackPrefix(c.chunks, sd.next + 1, c.bucketSize).open;
    var p := PackPrefix(c.chunks, sd.next, c.bucketSize);
    var m := Placed(c.chunks[sd.next].meta, sd.offset);
    assert b == Put(if sd.published == |p.closed| then p.open else EMPTY_BUCKET, c.chunks[sd.next]);
    assert b.metas == sd.metas + [m];
    forall k | 0 <= k < |sd.metas| ensures sd.metas[k].meta.name != m.meta.name {
      assert b.metas[k] == sd.metas[k] && b.metas[|sd.metas|] == m;
    }
  }

  // ------------------------------------------------------------------- yields

  /** The chunks a receiver has yielded when it has yielded all of n buckets and the first k
      chunks of the next. */
  function YieldedUpTo(sent: seq<Bucket>, n: nat, k: nat): seq<Arrived>
    requires AllTile(sent) && n <= |sent|
    requires k > 0 ==> n < |sent| && k <= |sent[n].metas|
  {
    UnpackAll(sent, n) + if k == 0 then [] else Unpack(sent[n])[..k]
  }

  lemma OneMoreYield(sent: seq<Bucket>, n: nat, k: nat)
    requires AllTile(sent) && n < |sent| && k < |sent[n].metas|
    ensures YieldedUpTo(sent, n, k) + [Unpack(sent[n])[k]] == YieldedUpTo(sent, n, k + 1)
  {
    TakeOneMore(Unpack(sent[n]), k + 1);
  }

  lemma WholeBucketYielded(sent: seq<Bucket>, n: nat)
    requires AllTile(sent) && n < |sent|
    ensures YieldedUpTo(sent, n, |sent[n].metas|) == YieldedUpTo(sent, n + 1, 0)
  {
    var u := Unpack(sent[n]);
    assert u[..|u|] == u;
  }

  lemma {:induction false} UnpackAllIsPrefix(bs: seq<Bucket>, n: nat, m: nat)
    requires AllTile(bs) && n <= m <= |bs|
    ensures UnpackAll(bs, n) <= UnpackAll(bs, m)
    decreases m - n
  {
    if n < m {
      UnpackAllIsPrefix(bs, n, m - 1);
    }
  }

  lemma YieldedIsPrefix(sent: seq<Bucket>, n: nat, k: nat)
    requires AllTile(sent) && n <= |sent| && (k > 0 ==> n < |sent| && k <= |sent[n].metas|)
    ensures YieldedUpTo(sent, n, k) <= UnpackAll(sent, |sent|)
  {
    if k == 0 {
      UnpackAllIsPrefix(sent, n, |sent|);
    } else {
      UnpackAllIsPrefix(sent, n + 1, |sent|);
      var u := Unpack(sent[n]);
      assert UnpackAll(sent, n + 1) == UnpackAll(sent, n) + u;
      assert u[..k] <= u;
    }
  }

  /** What a receiver yields in the end: rank 0's chunks, each at the offset where it was packed. */
  function AllPlaced(c: Config): (r: seq<Arrived>)
    ensures Chunks(r) == c.chunks
  {
    var r := PlacedChunks(c.chunks, |c.chunks|, c.bucketSize);
    assert Chunks(r) == c.chunks;
    r
  }

  lemma PrefixOfPlaced(c: Config, xs: seq<Arrived>)
    requires xs <= AllPlaced(c)
    ensures Chunks(xs) <= c.chunks
  {
    assert Chunks(xs) == Chunks(AllPlaced(c))[..|xs|];
  }

  /** Merging what a receiver yields in the end. */
  lemma MergeOfAllPlaced(ws: seq<Weight>, bucketSize: nat, receivers: nat)
    requires 0 < bucketSize && AreTensors(ws)
    ensures Merge(AllPlaced(TransferOf(ws, bucketSize, receivers)), bucketSize)
         == if WellPlaced(Split(ws, bucketSize), bucketSize) then Ok(NonEmpty(ws)) else Err(Misaligned)
  {
    MergeOfPlaced(ws, bucketSize);
    UnpackUndoesPack(Split(ws, bucketSize), bucketSize);
  }

  /** Merging what a receiver has yielded so far. */
  lemma MergeSoFar(ws: seq<Weight>, bucketSize: nat, receivers: nat, xs: seq<Arrived>)
    requires 0 < bucketSize && AreTensors(ws) && xs <= AllPlaced(TransferOf(ws, bucketSize, receivers))
    ensures var merged := Merge(xs, bucketSize);
            if AllAligned(xs, bucketSize) then merged.Ok? && merged.value <= NonEmpty(ws) else merged == Err(Misaligned)
  {
    var all := AllPlaced(TransferOf(ws, bucketSize, receivers));
    assert xs == all[..|xs|];
    MergeOfPrefix(ws, all, |xs|, bucketSize);
  }

  // ------------------------------------------------------------- progress measures

  /** Cost of the rounds still to go, at `cost` a round. */
  function RoundsLeft(rounds: nat, got: nat, cost: nat): nat {
    if got <= rounds then
      MulMono(0, rounds - got, cost);
      (rounds - got) * cost
    else 0
  }

  function Sum(xs: seq<nat>): nat {
    if xs == [] then 0 else xs[0] + Sum(xs[1..])
  }

  lemma {:induction false} SumUpdate(xs: seq<nat>, i: nat, x: nat)
    requires i < |xs|
    ensures Sum(xs[i := x]) + xs[i] == Sum(xs) + x
  {
    if i == 0 {
      assert xs[i := x][1..] == xs[1..];
    } else {
      assert xs[i := x][1..] == xs[1..][i - 1 := x];
      SumUpdate(xs[1..], i - 1, x);
    }
  }

  /** When one cost falls and the others stay, the total falls. */
  lemma SumFalls(xs: seq<nat>, ys: seq<nat>, i: nat)
    requires i < |xs| == |ys| && ys[i] < xs[i] && forall k :: 0 <= k < |xs| && k != i ==> ys[k] == xs[k]
    ensures Sum(ys) < Sum(xs)
  {
    assert ys == xs[i := ys[i]];
    SumUpdate(xs, i, ys[i]);
  }

  /** The largest number of entries of a bucket. */
  function MaxMetas(bs: seq<Bucket>): nat {
    if bs == [] then 0
    else
      var m := MaxMetas(bs[1..]);
      if |bs[0].metas| > m then |bs[0].metas| else m
  }

  lemma {:induction false} MaxMetasBounds(bs: seq<Bucket>, i: nat)
    requires i < |bs|
    ensures |bs[i].metas| <= MaxMetas(bs)
  {
    if i > 0 {
      MaxMetasBounds(bs[1..], i - 1);
    }
  }
}
