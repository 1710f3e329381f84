/** The NCCL engine as a step relation: rank 0 fills one buffer while a background thread
    broadcasts the other; every receiver yields from one buffer while a background thread
    receives into the other (verl/verl/checkpoint_engine/nccl_checkpoint_engine.py).

    A broadcast sends single bytes of rank 0's buffer, in any order, into one FIFO channel per
    receiver; a receiver copies the bytes that have been sent, in any order, once it has taken the
    metadata.  Rank 0's operation can be over as soon as all its bytes are in the channels, or at
    any time later.  Metadata reaches each receiver through a FIFO queue of its own. */
module NcclBroadcast {
  import opened Prelude
  import opened WeightChunks
  import opened BucketPacking
  import opened DoubleBuffer

  datatype Meta = Meta(metas: seq<Placed>, isLast: bool)

  /** The BroadcastOperation of rank 0 that has not been awaited; `announced` once its thread
      has sent the metadata. */
  datatype RootOp = RootOp(buf: bool, meta: Meta, announced: bool)

  /** One broadcast on its way to one receiver; the bytes in `pending` have not been sent yet. */
  datatype Packet = Packet(data: seq<byte>, pending: set<nat>)

  /** What is on its way to a receiver: metadata, and broadcasts. */
  datatype Link = Link(queue: seq<Meta>, channel: seq<Packet>)

  /** The BroadcastOperation of a receiver into the buffer `dst` it was created with. */
  datatype RecvOp = RecvOp(dst: bool, meta: Option<Meta>, pending: set<nat>, done: bool)

  datatype Phase = Starting | Yielding(at: nat) | AwaitingOp | Finished

  /** A rank inside `_receive_weight_chunks`; before the first bucket it has nothing to yield. */
  datatype Receiver = Receiver(
    phase: Phase, cur: bool, bufs: Bufs, got: nat, metas: seq<Placed>, isLast: bool,
    op: Option<RecvOp>, yielded: seq<Arrived>)

  datatype State = State(sender: Sender, op: Option<RootOp>, recv: seq<Receiver>, links: seq<Link>)

  datatype ReceiverStep = Start | TakeMeta | CopyByte(j: nat) | Complete | Yield | StopYielding | AwaitOp

  datatype Step = Fill | StartOp | Announce | SendByte(i: nat, j: nat) | AwaitRootOp | At(i: nat, step: ReceiverStep)

  // ------------------------------------------------------------------- steps

  function Init(c: Config): State {
    var bufs := Bufs(Zeros(c.bucketSize), Zeros(c.bucketSize));
    State(
      Sender(Filling, 0, 0, [], false, bufs, 0, None), None,
      seq(c.receivers, _ => Receiver(Starting, false, bufs, 0, [], false, None, [])),
      seq(c.receivers, _ => Link([], [])))
  }

  predicate Shaped(c: Config, s: State) {
    |s.recv| == |s.links| == c.receivers
  }

  /** Buckets a receiver has completely in its buffers. */
  function Copied(r: Receiver): nat {
    r.got + if r.op.Some? && r.op.value.done then 1 else 0
  }

  /** Buckets whose metadata a receiver has taken. */
  function Taken(r: Receiver): nat {
    r.got + if r.op.Some? && r.op.value.meta.Some? then 1 else 0
  }

  function LastPacket(l: Link): Packet
    requires l.channel != []
  {
    l.channel[|l.channel| - 1]
  }

  /** Bytes of the last broadcast that have not been sent to a receiver. */
  function Unsent(l: Link): set<nat> {
    if l.channel == [] then {} else LastPacket(l).pending
  }

  predicate EnabledAt(r: Receiver, l: Link, step: ReceiverStep) {
    match step
    case Start => r.phase == Starting
    case TakeMeta => r.op.Some? && r.op.value.meta == None && l.queue != []
    case CopyByte(j) =>
      && r.op.Some? && r.op.value.meta.Some? && !r.op.value.done && j in r.op.value.pending
      && l.channel != [] && j !in l.channel[0].pending
    case Complete =>
      r.op.Some? && r.op.value.meta.Some? && !r.op.value.done && r.op.value.pending == {} && l.channel != []
    case Yield => r.phase.Yielding? && r.phase.at < |r.metas|
    case StopYielding => r.phase.Yielding? && r.phase.at >= |r.metas|
    case AwaitOp => r.phase == AwaitingOp && r.op.Some? && r.op.value.done && r.op.value.meta.Some?
  }

  predicate Enabled(c: Config, s: State, step: Step)
    requires Shaped(c, s)
  {
    match step
    case Fill => s.sender.pc == Filling && s.sender.next < |c.chunks| && !MustClose(c, s.sender)
    case StartOp => s.sender.pc == Filling && MustClose(c, s.sender) && s.op == None
    case Announce => s.op.Some? && !s.op.value.announced
    case SendByte(i, j) => s.op.Some? && s.op.value.announced && i < c.receivers && j in Unsent(s.links[i])
    case AwaitRootOp =>
      && (s.sender.pc == Closing || (s.sender.pc == Filling && MustClose(c, s.sender)))
      && s.op.Some? && s.op.value.announced
      && forall i :: 0 <= i < |s.links| ==> Unsent(s.links[i]) == {}
    case At(i, rs) => i < c.receivers && EnabledAt(s.recv[i], s.links[i], rs)
  }

  /** `buf[j] = src[j]` */
  function CopyOne(buf: seq<byte>, src: seq<byte>, j: nat): (r: seq<byte>)
    ensures |r| == |buf|
  {
    if j < |buf| && j < |src| then buf[j := src[j]] else buf
  }

  function ApplyAt(c: Config, r: Receiver, l: Link, step: ReceiverStep): (Receiver, Link)
    requires EnabledAt(r, l, step)
  {
    match step
    case Start =>
      (r.(phase := Yielding(0),
          op := if r.isLast then None else Some(RecvOp(!r.cur, None, Indices(c.bucketSize), false))), l)
    case TakeMeta => (r.(op := Some(r.op.value.(meta := Some(l.queue[0])))), l.(queue := l.queue[1..]))
    case CopyByte(j) =>
      var o := r.op.value;
      (r.(bufs := r.bufs.Set(o.dst, CopyOne(r.bufs.Get(o.dst), l.channel[0].data, j)),
          op := Some(o.(pending := o.pending - {j}))), l)
    case Complete => (r.(op := Some(r.op.value.(done := true))), l.(channel := l.channel[1..]))
    case Yield =>
      var view := View(r.bufs.Get(r.cur), r.metas[r.phase.at]);
      (r.(phase := Yielding(r.phase.at + 1), yielded := r.yielded + [view]), l)
    case StopYielding => (r.(phase := if r.op.Some? then AwaitingOp else Finished), l)
    case AwaitOp =>
      var m := r.op.value.meta.value;
      (r.(phase := Starting, cur := !r.cur, got := r.got + 1, metas := m.metas, isLast := m.isLast, op := None), l)
  }

  function RootBuf(s: State): seq<byte> {
    if s.op.Some? then s.sender.bufs.Get(s.op.value.buf) else []
  }

  /** A new broadcast of `size` bytes begins. */
  function Begin(l: Link, m: Meta, size: nat): Link {
    Link(l.queue + [m], l.channel + [Packet(Zeros(size), Indices(size))])
  }

  function Send(l: Link, src: seq<byte>, j: nat): Link
    requires l.channel != []
  {
    var p := LastPacket(l);
    l.(channel := l.channel[|l.channel| - 1 := Packet(CopyOne(p.data, src, j), p.pending - {j})])
  }

  function Apply(c: Config, s: State, step: Step): (s': State)
    requires Shaped(c, s) && Enabled(c, s, step)
    ensures Shaped(c, s')
  {
    match step
    case Fill => s.(sender := DoFill(c, s.sender))
    case StartOp =>
      s.(sender := DoPublish(c, s.sender),
         op := Some(RootOp(s.sender.cur, Meta(s.sender.metas, s.sender.next == |c.chunks|), false)))
    case Announce =>
      var o := s.op.value;
      s.(op := Some(o.(announced := true)),
         links := seq(|s.links|, i requires 0 <= i < |s.links| => Begin(s.links[i], o.meta, c.bucketSize)))
    case SendByte(i, j) => s.(links := s.links[i := Send(s.links[i], RootBuf(s), j)])
    case AwaitRootOp =>
      s.(sender := s.sender.(pc := if s.sender.pc == Closing then SenderDone else Filling, waiting := None), op := None)
    case At(i, rs) =>
      var (r', l') := ApplyAt(c, s.recv[i], s.links[i], rs);
      s.(recv := s.recv[i := r'], links := s.links[i := l'])
  }

  predicate IsRun(c: Config, s: State, steps: seq<Step>)
    requires Shaped(c, s)
    decreases |steps|
  {
    steps == [] || (Enabled(c, s, steps[0]) && IsRun(c, Apply(c, s, steps[0]), steps[1..]))
  }

  function Final(c: Config, s: State, steps: seq<Step>): (r: State)
    requires Shaped(c, s) && IsRun(c, s, steps)
    ensures Shaped(c, r)
    decreases |steps|
  {
    if steps == [] then s else Final(c, Apply(c, s, steps[0]), steps[1..])
  }

  ghost predicate Reachable(c: Config, s: State) {
    exists steps: seq<Step> :: IsRun(c, Init(c), steps) && Final(c, Init(c), steps) == s
  }

  predicate AllDone(s: State) {
    s.sender.pc == SenderDone && forall i :: 0 <= i < |s.recv| ==> s.recv[i].phase == Finished
  }

  // --------------------------------------------------------------- invariant

  function MetaOf(sent: seq<Bucket>, n: nat): Meta
    requires n < |sent|
  {
    Meta(sent[n].metas, n + 1 == |sent|)
  }

  predicate OpInv(size: nat, sent: seq<Bucket>, r: Receiver, o: RecvOp) {
    && r.got < |sent| && o.dst == !r.cur
    && (o.meta.Some? ==> o.meta.value == MetaOf(sent, r.got))
    && o.pending <= Indices(size)
    && (o.meta == None ==> !o.done && o.pending == Indices(size))
    && (o.done ==> o.pending == {} && SlicesOf(sent[r.got], r.bufs.Get(o.dst)))
  }

  predicate HoldingInv(size: nat, sent: seq<Bucket>, r: Receiver) {
    && Sized(size, r.bufs)
    && r.got <= |sent|
    && r.isLast == (r.got == |sent|)
    && (r.got == 0 ==> r.metas == [])
    && (r.got > 0 ==> r.metas == sent[r.got - 1].metas && SlicesOf(sent[r.got - 1], r.bufs.Get(r.cur)))
    && (r.op.Some? ==> OpInv(size, sent, r, r.op.value))
    && match r.phase
       case Starting => r.op == None
       case Yielding(_) => r.op.Some? == !r.isLast
       case AwaitingOp => r.op.Some?
       case Finished => r.isLast && r.op == None
  }

  predicate YieldInv(sent: seq<Bucket>, r: Receiver)
    requires AllTile(sent)
  {
    && r.got <= |sent|
    && var before := if r.got == 0 then 0 else r.got - 1;
       match r.phase
       case Starting => r.yielded == YieldedUpTo(sent, before, 0)
       case Yielding(k) =>
         && k <= |r.metas|
         && (if r.got == 0 then k == 0 else k <= |sent[before].metas|)
         && r.yielded == YieldedUpTo(sent, before, k)
       case AwaitingOp => r.yielded == YieldedUpTo(sent, r.got, 0)
       case Finished => r.yielded == YieldedUpTo(sent, r.got, 0)
  }

  /** The metadata on its way is that of the last buckets announced. */
  predicate QueueInv(sent: seq<Bucket>, announced: nat, queue: seq<Meta>) {
    |queue| <= announced <= |sent| &&
    forall k :: 0 <= k < |queue| ==> queue[k] == MetaOf(sent, announced - |queue| + k)
  }

  predicate PacketInv(size: nat, b: Bucket, p: Packet) {
    && |p.data| == size && p.pending <= Indices(size)
    && (p.pending == {} ==> SlicesOf(b, p.data))
  }

  /** The broadcasts on their way are those of the last buckets announced; all but the last one
      have been sent completely. */
  predicate ChannelInv(size: nat, sent: seq<Bucket>, announced: nat, channel: seq<Packet>) {
    && |channel| <= announced <= |sent|
    && (forall k :: 0 <= k < |channel| ==> PacketInv(size, sent[announced - |channel| + k], channel[k]))
    && (forall k :: 0 <= k < |channel| - 1 ==> channel[k].pending == {})
  }

  /** A receiver inside a broadcast has copied bytes that were sent, into the buffer it named. */
  predicate CallInv(size: nat, r: Receiver, channel: seq<Packet>) {
    r.op.Some? && r.op.value.meta.Some? && !r.op.value.done ==>
      && channel != [] && |channel[0].data| == |r.bufs.Get(r.op.value.dst)| == size
      && forall j: nat :: j < size && j !in r.op.value.pending ==>
           j !in channel[0].pending && r.bufs.Get(r.op.value.dst)[j] == channel[0].data[j]
  }

  /** Receiver and link, when `announced` broadcasts have been announced. */
  predicate LinkInv(size: nat, sent: seq<Bucket>, announced: nat, r: Receiver, l: Link) {
    && QueueInv(sent, announced, l.queue) && ChannelInv(size, sent, announced, l.channel)
    && Taken(r) + |l.queue| == announced && Copied(r) + |l.channel| == announced
    && CallInv(size, r, l.channel)
  }

  /** What rank 0 has sent of its current operation is in its buffer. */
  predicate SendInv(size: nat, sent: seq<Bucket>, published: nat, op: Option<RootOp>, src: seq<byte>, l: Link) {
    match op
    case None => Unsent(l) == {}
    case Some(o) =>
      && 0 < published <= |sent| && |src| == size && SlicesOf(sent[published - 1], src)
      && o.meta == MetaOf(sent, published - 1)
      && if !o.announced then Unsent(l) == {}
         else l.channel != [] ==> SentSoFar(size, LastPacket(l), src)
  }

  predicate SentSoFar(size: nat, p: Packet, src: seq<byte>) {
    |p.data| == |src| == size && forall j: nat :: j < size && j !in p.pending ==> p.data[j] == src[j]
  }

  function Announced(published: nat, op: Option<RootOp>): nat {
    if op.Some? && !op.value.announced && published > 0 then published - 1 else published
  }

  predicate SenderOpInv(sd: Sender, op: Option<RootOp>) {
    && op.Some? == sd.waiting.Some?
    && (op.Some? ==> op.value.buf == if sd.pc == Filling then !sd.cur else sd.cur)
  }

  predicate LinkAt(c: Config, s: State, i: nat)
    requires Shaped(c, s) && i < c.receivers
  {
    && LinkInv(c.bucketSize, Sent(c), Announced(s.sender.published, s.op), s.recv[i], s.links[i])
    && SendInv(c.bucketSize, Sent(c), s.sender.published, s.op, RootBuf(s), s.links[i])
  }

  predicate ReceiverAt(c: Config, s: State, i: nat)
    requires Shaped(c, s) && i < c.receivers && AllTile(Sent(c))
  {
    HoldingInv(c.bucketSize, Sent(c), s.recv[i]) && YieldInv(Sent(c), s.recv[i])
  }

  predicate Inv(c: Config, s: State)
    requires GoodConfig(c)
  {
    && Shaped(c, s)
    && AllTile(Sent(c))
    && SenderInv(c, s.sender) && SenderOpInv(s.sender, s.op)
    && (forall i: nat :: i < c.receivers ==> ReceiverAt(c, s, i))
    && (forall i: nat :: i < c.receivers ==> LinkAt(c, s, i))
  }

  lemma InitInv(c: Config)
    requires GoodConfig(c)
    ensures Inv(c, Init(c))
  {
    var s := Init(c);
    BucketsAreGood(c.chunks, c.bucketSize);
    assert PackPrefix(c.chunks, 0, c.bucketSize).open == EMPTY_BUCKET;
    assert SlicesOf(EMPTY_BUCKET, s.sender.bufs.Get(false));
    forall i: nat | i < c.receivers
      ensures ReceiverAt(c, s, i) && LinkAt(c, s, i)
    {
      assert YieldedUpTo(Sent(c), 0, 0) == [];
    }
  }

  // ------------------------------------------------------------- rank 0's steps

  /** Filling writes send_buf; the buffer of a broadcast in flight is the other one. */
  lemma FillKeeps(c: Config, s: State)
    requires GoodConfig(c) && Inv(c, s) && Enabled(c, s, Fill)
    ensures Inv(c, Apply(c, s, Fill))
  {
    var s' := Apply(c, s, Fill);
    FillKeepsSender(c, s.sender);
    assert RootBuf(s') == RootBuf(s);
    forall i: nat | i < c.receivers ensures LinkAt(c, s', i) && ReceiverAt(c, s', i) {
      assert LinkAt(c, s, i) && ReceiverAt(c, s, i);
    }
  }

  lemma StartOpKeeps(c: Config, s: State)
    requires GoodConfig(c) && Inv(c, s) && Enabled(c, s, StartOp)
    ensures Inv(c, Apply(c, s, StartOp))
  {
    var s' := Apply(c, s, StartOp);
    PublishKeepsSender(c, s.sender);
    StartOpOffers(c, s);
    forall i: nat | i < c.receivers ensures LinkAt(c, s', i) && ReceiverAt(c, s', i) {
      assert LinkAt(c, s, i) && ReceiverAt(c, s, i);
      NewOpKeepsSend(c.bucketSize, Sent(c), s.sender.published, s'.op.value, RootBuf(s'), s.links[i]);
    }
  }

  /** The operation created is that of the next bucket, which its buffer holds. */
  lemma StartOpOffers(c: Config, s: State)
    requires GoodConfig(c) && Inv(c, s) && Enabled(c, s, StartOp)
    ensures var s' := Apply(c, s, StartOp);
            && s.sender.published < |Sent(c)|
            && |RootBuf(s')| == c.bucketSize && SlicesOf(Sent(c)[s.sender.published], RootBuf(s'))
            && s'.op.value.meta == MetaOf(Sent(c), s.sender.published)
  {
    PublishKeepsSender(c, s.sender);
  }

  lemma NewOpKeepsSend(size: nat, sent: seq<Bucket>, published: nat, o: RootOp, src: seq<byte>, l: Link)
    requires published < |sent| && |src| == size && SlicesOf(sent[published], src)
    requires !o.announced && o.meta == MetaOf(sent, published) && Unsent(l) == {}
    ensures SendInv(size, sent, published + 1, Some(o), src, l)
  {
  }

  /** A new broadcast begins when all bytes of the one before are in the channels. */
  lemma BeginKeepsLink(size: nat, sent: seq<Bucket>, published: nat, o: RootOp, src: seq<byte>, r: Receiver, l: Link)
    requires 0 < size && !o.announced && SendInv(size, sent, published, Some(o), src, l)
    requires LinkInv(size, sent, published - 1, r, l)
    ensures LinkInv(size, sent, published, r, Begin(l, o.meta, size))
    ensures SendInv(size, sent, published, Some(o.(announced := true)), src, Begin(l, o.meta, size))
  {
    BeginKeepsQueue(sent, published, l.queue, o.meta);
    BeginKeepsChannel(size, sent, published, l);
  }

  lemma BeginKeepsQueue(sent: seq<Bucket>, published: nat, queue: seq<Meta>, m: Meta)
    requires 0 < published <= |sent| && QueueInv(sent, published - 1, queue) && m == MetaOf(sent, published - 1)
    ensures QueueInv(sent, published, queue + [m])
  {
  }

  lemma BeginKeepsChannel(size: nat, sent: seq<Bucket>, published: nat, l: Link)
    requires 0 < size && 0 < published <= |sent| && ChannelInv(size, sent, published - 1, l.channel) && Unsent(l) == {}
    ensures ChannelInv(size, sent, published, l.channel + [Packet(Zeros(size), Indices(size))])
  {
    assert 0 in Indices(size);
    var channel := l.channel + [Packet(Zeros(size), Indices(size))];
    forall k | 0 <= k < |channel| ensures PacketInv(size, sent[published - |channel| + k], channel[k]) {
      if k < |l.channel| {
        assert channel[k] == l.channel[k];
      }
    }
  }

  lemma AnnounceKeeps(c: Config, s: State)
    requires GoodConfig(c) && Inv(c, s) && Enabled(c, s, Announce)
    ensures Inv(c, Apply(c, s, Announce))
  {
    var s' := Apply(c, s, Announce);
    forall i: nat | i < c.receivers ensures LinkAt(c, s', i) && ReceiverAt(c, s', i) {
      assert ReceiverAt(c, s, i);
      AnnounceKeepsLink(c, s, i);
    }
  }

  lemma AnnounceKeepsLink(c: Config, s: State, i: nat)
    requires GoodConfig(c) && Inv(c, s) && Enabled(c, s, Announce) && i < c.receivers
    ensures var s' := Apply(c, s, Announce); Shaped(c, s') && LinkAt(c, s', i)
  {
    assert LinkAt(c, s, i);
    BeginKeepsLink(c.bucketSize, Sent(c), s.sender.published, s.op.value, RootBuf(s), s.recv[i], s.links[i]);
  }

  /** The last packet with one more byte is rank 0's buffer as far as it has been sent. */
  lemma SendKeepsPacket(size: nat, b: Bucket, p: Packet, src: seq<byte>, j: nat)
    requires PacketInv(size, b, p) && SentSoFar(size, p, src) && SlicesOf(b, src) && j in p.pending
    ensures var p' := Packet(CopyOne(p.data, src, j), p.pending - {j});
            PacketInv(size, b, p') && SentSoFar(size, p', src)
  {
    var p' := Packet(CopyOne(p.data, src, j), p.pending - {j});
    assert j in Indices(size);
    assert SentSoFar(size, p', src);
    if p'.pending == {} {
      assert p'.data == src;
    }
  }

  lemma SendKeepsChannel(size: nat, sent: seq<Bucket>, announced: nat, l: Link, src: seq<byte>, j: nat)
    requires ChannelInv(size, sent, announced, l.channel) && l.channel != [] && j in Unsent(l)
    requires SlicesOf(sent[announced - 1], src) && SentSoFar(size, LastPacket(l), src)
    ensures ChannelInv(size, sent, announced, Send(l, src, j).channel)
    ensures SentSoFar(size, LastPacket(Send(l, src, j)), src)
  {
    var last: nat, p := |l.channel| - 1, LastPacket(l);
    assert PacketInv(size, sent[announced - |l.channel| + last], l.channel[last]);
    SendKeepsPacket(size, sent[announced - 1], p, src, j);
    WithLastPacket(size, sent, announced, l.channel, Packet(CopyOne(p.data, src, j), p.pending - {j}));
  }

  lemma WithLastPacket(size: nat, sent: seq<Bucket>, announced: nat, channel: seq<Packet>, p: Packet)
    requires ChannelInv(size, sent, announced, channel) && channel != [] && PacketInv(size, sent[announced - 1], p)
    ensures ChannelInv(size, sent, announced, channel[|channel| - 1 := p])
  {
    var channel' := channel[|channel| - 1 := p];
    forall k | 0 <= k < |channel'| ensures PacketInv(size, sent[announced - |channel'| + k], channel'[k]) {
      if k < |channel| - 1 {
        assert channel'[k] == channel[k];
      }
    }
  }

  /** What a receiver has copied had been sent before. */
  lemma SendKeepsCall(size: nat, r: Receiver, l: Link, src: seq<byte>, j: nat)
    requires CallInv(size, r, l.channel) && l.channel != [] && j in Unsent(l) && j < size
    ensures CallInv(size, r, Send(l, src, j).channel)
  {
  }

  lemma SendByteKeeps(c: Config, s: State, i: nat, j: nat)
    requires GoodConfig(c) && Inv(c, s) && Enabled(c, s, SendByte(i, j))
    ensures Inv(c, Apply(c, s, SendByte(i, j)))
  {
    var s' := Apply(c, s, SendByte(i, j));
    assert LinkAt(c, s, i) && ReceiverAt(c, s, i);
    SendKeepsLink(c.bucketSize, Sent(c), s.sender.published, s.op.value, RootBuf(s), s.recv[i], s.links[i], j);
    forall k: nat | k < c.receivers ensures LinkAt(c, s', k) && ReceiverAt(c, s', k) {
      assert LinkAt(c, s, k) && ReceiverAt(c, s, k);
    }
  }

  lemma SendKeepsLink(size: nat, sent: seq<Bucket>, published: nat, o: RootOp, src: seq<byte>, r: Receiver, l: Link,
                      j: nat)
    requires o.announced && SendInv(size, sent, published, Some(o), src, l) && LinkInv(size, sent, published, r, l)
    requires j in Unsent(l)
    ensures LinkInv(size, sent, published, r, Send(l, src, j))
    ensures SendInv(size, sent, published, Some(o), src, Send(l, src, j))
  {
    var last: nat := |l.channel| - 1;
    assert PacketInv(size, sent[published - |l.channel| + last], l.channel[last]);
    assert j in Indices(size);
    SendKeepsChannel(size, sent, published, l, src, j);
    SendKeepsCall(size, r, l, src, j);
  }

  lemma AwaitRootOpKeeps(c: Config, s: State)
    requires GoodConfig(c) && Inv(c, s) && Enabled(c, s, AwaitRootOp)
    ensures Inv(c, Apply(c, s, AwaitRootOp))
  {
    var s' := Apply(c, s, AwaitRootOp);
    forall i: nat | i < c.receivers ensures LinkAt(c, s', i) && ReceiverAt(c, s', i) {
      assert LinkAt(c, s, i) && ReceiverAt(c, s, i);
    }
  }

  // -------------------------------------------------------- a receiver's steps

  /** A byte copied lands in the buffer the operation was created with, and had been sent. */
  lemma CopyKeepsLink(c: Config, sent: seq<Bucket>, announced: nat, r: Receiver, l: Link, j: nat)
    requires HoldingInv(c.bucketSize, sent, r) && LinkInv(c.bucketSize, sent, announced, r, l)
    requires EnabledAt(r, l, CopyByte(j))
    ensures var (r', l') := ApplyAt(c, r, l, CopyByte(j));
            HoldingInv(c.bucketSize, sent, r') && LinkInv(c.bucketSize, sent, announced, r', l')
  {
    assert j in Indices(c.bucketSize);
  }

  /** A receiver that has copied everything holds the bucket. */
  lemma AllCopied(size: nat, sent: seq<Bucket>, announced: nat, r: Receiver, l: Link)
    requires LinkInv(size, sent, announced, r, l) && EnabledAt(r, l, Complete) && r.got < |sent|
    ensures SlicesOf(sent[r.got], r.bufs.Get(r.op.value.dst)) && l.channel[0].pending == {}
  {
    var p := l.channel[0];
    assert PacketInv(size, sent[announced - |l.channel| + 0], p);
    assert forall j :: j in p.pending ==> j in Indices(size);
    assert p.pending == {};
    assert r.bufs.Get(r.op.value.dst) == p.data;
  }

  lemma RestOfChannel(size: nat, sent: seq<Bucket>, announced: nat, channel: seq<Packet>)
    requires ChannelInv(size, sent, announced, channel) && channel != []
    ensures ChannelInv(size, sent, announced, channel[1..])
  {
    var rest := channel[1..];
    forall k | 0 <= k < |rest| ensures PacketInv(size, sent[announced - |rest| + k], rest[k]) {
      assert PacketInv(size, sent[announced - |channel| + (k + 1)], channel[k + 1]);
    }
  }

  lemma CompleteKeepsLink(c: Config, sent: seq<Bucket>, announced: nat, r: Receiver, l: Link)
    requires HoldingInv(c.bucketSize, sent, r) && LinkInv(c.bucketSize, sent, announced, r, l)
    requires EnabledAt(r, l, Complete)
    ensures var (r', l') := ApplyAt(c, r, l, Complete);
            HoldingInv(c.bucketSize, sent, r') && LinkInv(c.bucketSize, sent, announced, r', l')
  {
    AllCopied(c.bucketSize, sent, announced, r, l);
    RestOfChannel(c.bucketSize, sent, announced, l.channel);
  }

  lemma RestOfQueue(sent: seq<Bucket>, announced: nat, queue: seq<Meta>)
    requires QueueInv(sent, announced, queue) && queue != []
    ensures QueueInv(sent, announced, queue[1..]) && queue[0] == MetaOf(sent, announced - |queue|)
  {
    var rest := queue[1..];
    forall k | 0 <= k < |rest| ensures rest[k] == MetaOf(sent, announced - |rest| + k) {
      assert queue[k + 1] == MetaOf(sent, announced - |queue| + (k + 1));
    }
    assert queue[0] == MetaOf(sent, announced - |queue| + 0);
  }

  lemma TakeMetaKeepsLink(c: Config, sent: seq<Bucket>, announced: nat, r: Receiver, l: Link)
    requires HoldingInv(c.bucketSize, sent, r) && LinkInv(c.bucketSize, sent, announced, r, l)
    requires EnabledAt(r, l, TakeMeta)
    ensures var (r', l') := ApplyAt(c, r, l, TakeMeta);
            HoldingInv(c.bucketSize, sent, r') && LinkInv(c.bucketSize, sent, announced, r', l')
  {
    RestOfQueue(sent, announced, l.queue);
    assert Copied(r) == Taken(r) == r.got;
    assert PacketInv(c.bucketSize, sent[announced - |l.channel| + 0], l.channel[0]);
  }

  /** The swap: the bucket received becomes the bucket held. */
  lemma AwaitOpKeepsLink(c: Config, sent: seq<Bucket>, announced: nat, r: Receiver, l: Link)
    requires HoldingInv(c.bucketSize, sent, r) && LinkInv(c.bucketSize, sent, announced, r, l)
    requires EnabledAt(r, l, AwaitOp)
    ensures var (r', l') := ApplyAt(c, r, l, AwaitOp);
            HoldingInv(c.bucketSize, sent, r') && LinkInv(c.bucketSize, sent, announced, r', l')
  {
  }

  lemma YieldingKeepsLink(c: Config, sent: seq<Bucket>, announced: nat, r: Receiver, l: Link, step: ReceiverStep)
    requires HoldingInv(c.bucketSize, sent, r) && LinkInv(c.bucketSize, sent, announced, r, l)
    requires EnabledAt(r, l, step) && (step == Start || step == Yield || step == StopYielding)
    ensures var (r', l') := ApplyAt(c, r, l, step);
            HoldingInv(c.bucketSize, sent, r') && LinkInv(c.bucketSize, sent, announced, r', l')
  {
  }

  lemma ReceiverStepKeepsLink(c: Config, sent: seq<Bucket>, announced: nat, r: Receiver, l: Link, step: ReceiverStep)
    requires HoldingInv(c.bucketSize, sent, r) && LinkInv(c.bucketSize, sent, announced, r, l) && EnabledAt(r, l, step)
    ensures var (r', l') := ApplyAt(c, r, l, step);
            HoldingInv(c.bucketSize, sent, r') && LinkInv(c.bucketSize, sent, announced, r', l')
  {
    match step
    case Complete => CompleteKeepsLink(c, sent, announced, r, l);
    case TakeMeta => TakeMetaKeepsLink(c, sent, announced, r, l);
    case CopyByte(j) => CopyKeepsLink(c, sent, announced, r, l, j);
    case AwaitOp => AwaitOpKeepsLink(c, sent, announced, r, l);
    case _ => YieldingKeepsLink(c, sent, announced, r, l, step);
  }

  /** A receiver takes packets off its channel only when they have been sent completely. */
  lemma ReceiverStepKeepsSend(c: Config, sent: seq<Bucket>, published: nat, op: Option<RootOp>, src: seq<byte>,
                              announced: nat, r: Receiver, l: Link, step: ReceiverStep)
    requires SendInv(c.bucketSize, sent, published, op, src, l) && LinkInv(c.bucketSize, sent, announced, r, l)
    requires HoldingInv(c.bucketSize, sent, r) && EnabledAt(r, l, step)
    ensures SendInv(c.bucketSize, sent, published, op, src, ApplyAt(c, r, l, step).1)
    ensures Unsent(ApplyAt(c, r, l, step).1) == Unsent(l)
  {
    if step == Complete {
      AllCopied(c.bucketSize, sent, announced, r, l);
      if |l.channel| > 1 {
        assert LastPacket(l.(channel := l.channel[1..])) == LastPacket(l);
      }
    }
  }

  lemma YieldOneKeeps(c: Config, sent: seq<Bucket>, r: Receiver, l: Link)
    requires AllTile(sent) && HoldingInv(c.bucketSize, sent, r) && YieldInv(sent, r) && EnabledAt(r, l, Yield)
    ensures YieldInv(sent, ApplyAt(c, r, l, Yield).0)
  {
    var b := sent[r.got - 1];
    SliceOfBuffer(b, r.bufs.Get(r.cur), r.phase.at);
    assert View(r.bufs.Get(r.cur), r.metas[r.phase.at]) == Unpack(b)[r.phase.at];
    OneMoreYield(sent, r.got - 1, r.phase.at);
  }

  lemma ReceiverStepKeepsYields(c: Config, sent: seq<Bucket>, r: Receiver, l: Link, step: ReceiverStep)
    requires AllTile(sent) && HoldingInv(c.bucketSize, sent, r) && YieldInv(sent, r) && EnabledAt(r, l, step)
    ensures YieldInv(sent, ApplyAt(c, r, l, step).0)
  {
    match step
    case Yield => YieldOneKeeps(c, sent, r, l);
    case StopYielding => StopYieldingYields(c.bucketSize, sent, r, ApplyAt(c, r, l, step).0);
    case _ => OtherStepsYieldNothing(c, sent, r, l, step);
  }

  lemma StopYieldingYields(size: nat, sent: seq<Bucket>, r: Receiver, r': Receiver)
    requires AllTile(sent) && HoldingInv(size, sent, r) && YieldInv(sent, r)
    requires r.phase.Yielding? && r.phase.at >= |r.metas|
    requires r' == r.(phase := AwaitingOp) || r' == r.(phase := Finished)
    ensures YieldInv(sent, r')
  {
    if r.got > 0 {
      WholeBucketYielded(sent, r.got - 1);
    }
  }

  lemma OtherStepsYieldNothing(c: Config, sent: seq<Bucket>, r: Receiver, l: Link, step: ReceiverStep)
    requires AllTile(sent) && HoldingInv(c.bucketSize, sent, r) && YieldInv(sent, r)
    requires EnabledAt(r, l, step) && step != Yield && step != StopYielding
    ensures YieldInv(sent, ApplyAt(c, r, l, step).0)
  {
    assert ApplyAt(c, r, l, step).0.yielded == r.yielded;
  }

  lemma FromReceiver(c: Config, s: State, i: nat, r: Receiver, l: Link)
    requires GoodConfig(c) && Inv(c, s) && i < c.receivers
    requires HoldingInv(c.bucketSize, Sent(c), r) && YieldInv(Sent(c), r)
    requires LinkInv(c.bucketSize, Sent(c), Announced(s.sender.published, s.op), r, l)
    requires SendInv(c.bucketSize, Sent(c), s.sender.published, s.op, RootBuf(s), l)
    ensures Inv(c, s.(recv := s.recv[i := r], links := s.links[i := l]))
  {
    var s' := s.(recv := s.recv[i := r], links := s.links[i := l]);
    forall k: nat | k < c.receivers ensures LinkAt(c, s', k) && ReceiverAt(c, s', k) {
      assert LinkAt(c, s, k) && ReceiverAt(c, s, k);
    }
  }

  lemma ReceiverStepKeeps(c: Config, s: State, i: nat, rs: ReceiverStep)
    requires GoodConfig(c) && Inv(c, s) && Enabled(c, s, At(i, rs))
    ensures Inv(c, Apply(c, s, At(i, rs)))
  {
    assert LinkAt(c, s, i) && ReceiverAt(c, s, i);
    var r, l, n := s.recv[i], s.links[i], Announced(s.sender.published, s.op);
    ReceiverStepKeepsLink(c, Sent(c), n, r, l, rs);
    ReceiverStepKeepsSend(c, Sent(c), s.sender.published, s.op, RootBuf(s), n, r, l, rs);
    ReceiverStepKeepsYields(c, Sent(c), r, l, rs);
    var (r', l') := ApplyAt(c, r, l, rs);
    FromReceiver(c, s, i, r', l');
  }

  lemma StepKeepsInv(c: Config, s: State, step: Step)
    requires GoodConfig(c) && Inv(c, s) && Enabled(c, s, step)
    ensures Inv(c, Apply(c, s, step))
  {
    match step
    case Fill => FillKeeps(c, s);
    case StartOp => StartOpKeeps(c, s);
    case Announce => AnnounceKeeps(c, s);
    case SendByte(i, j) => SendByteKeeps(c, s, i, j);
    case AwaitRootOp => AwaitRootOpKeeps(c, s);
    case At(i, rs) => ReceiverStepKeeps(c, s, i, rs);
  }

  lemma {:induction false} RunKeepsInv(c: Config, s: State, steps: seq<Step>)
    requires GoodConfig(c) && Inv(c, s) && IsRun(c, s, steps)
    ensures Inv(c, Final(c, s, steps))
    decreases |steps|
  {
    if steps != [] {
      StepKeepsInv(c, s, steps[0]);
      RunKeepsInv(c, Apply(c, s, steps[0]), steps[1..]);
    }
  }

  lemma ReachableInv(c: Config, s: State)
    requires GoodConfig(c) && Reachable(c, s)
    ensures Inv(c, s)
  {
    var steps: seq<Step> :| IsRun(c, Init(c), steps) && Final(c, Init(c), steps) == s;
    InitInv(c);
    RunKeepsInv(c, Init(c), steps);
  }

  // ------------------------------------------------------------------ theorems

  /** The sender never writes a buffer with a broadcast in flight. */
  lemma BroadcastBufferIsStable(c: Config, s: State, step: Step)
    requires GoodConfig(c) && Reachable(c, s) && Enabled(c, s, step) && s.op.Some?
    ensures Apply(c, s, step).sender.bufs.Get(s.op.value.buf) == s.sender.bufs.Get(s.op.value.buf)
  {
    ReachableInv(c, s);
  }

  /** send_buf of receiver i: its name and its contents. */
  function SendBuf(s: State, i: nat): (bool, seq<byte>)
    requires i < |s.recv|
  {
    (s.recv[i].cur, s.recv[i].bufs.Get(s.recv[i].cur))
  }

  /** Between two swaps an operation that was created writes the buffer that is recv_buf now. */
  lemma OperationsFillRecvBuf(c: Config, s: State, i: nat)
    requires GoodConfig(c) && Inv(c, s) && i < c.receivers && s.recv[i].op.Some?
    ensures s.recv[i].op.value.dst == !s.recv[i].cur
  {
    assert ReceiverAt(c, s, i);
  }

  lemma SendBufStays(c: Config, r: Receiver, l: Link, step: ReceiverStep)
    requires EnabledAt(r, l, step) && step != AwaitOp
    requires r.op.Some? ==> r.op.value.dst == !r.cur
    ensures var r' := ApplyAt(c, r, l, step).0;
            r'.cur == r.cur && r'.bufs.Get(r.cur) == r.bufs.Get(r.cur)
  {
  }

  lemma OnlySwapsTouchSendBuf(c: Config, s: State, step: Step, i: nat)
    requires GoodConfig(c) && Inv(c, s) && Enabled(c, s, step) && i < c.receivers && step != At(i, AwaitOp)
    ensures SendBuf(Apply(c, s, step), i) == SendBuf(s, i)
  {
    if step.At? && step.i == i {
      if s.recv[i].op.Some? {
        OperationsFillRecvBuf(c, s, i);
      }
      SendBufStays(c, s.recv[i], s.links[i], step.step);
    }
  }

  /** From one swap of receiver i to the next, whatever all ranks do meanwhile, its send_buf
      keeps its name and its contents, and with it every view that was yielded from it. */
  lemma {:induction false} SendBufIsStableUntilSwap(c: Config, s: State, steps: seq<Step>, i: nat)
    requires GoodConfig(c) && Inv(c, s) && IsRun(c, s, steps) && i < c.receivers
    requires forall k :: 0 <= k < |steps| ==> steps[k] != At(i, AwaitOp)
    ensures SendBuf(Final(c, s, steps), i) == SendBuf(s, i)
    decreases |steps|
  {
    if steps != [] {
      OnlySwapsTouchSendBuf(c, s, steps[0], i);
      StepKeepsInv(c, s, steps[0]);
      SendBufIsStableUntilSwap(c, Apply(c, s, steps[0]), steps[1..], i);
    }
  }

  /** A step that is a request of the consumer of receiver i for its next chunk. */
  predicate Requests(step: Step, i: nat) {
    step == At(i, Yield) || step == At(i, StopYielding)
  }

  lemma {:induction false} NoSwapWithoutRequest(c: Config, s: State, steps: seq<Step>, i: nat)
    requires Shaped(c, s) && IsRun(c, s, steps) && i < c.receivers && s.recv[i].phase.Yielding?
    requires forall k :: 0 <= k < |steps| ==> !Requests(steps[k], i)
    ensures forall k :: 0 <= k < |steps| ==> steps[k] != At(i, AwaitOp)
    decreases |steps|
  {
    if steps != [] {
      assert Apply(c, s, steps[0]).recv[i].phase == s.recv[i].phase;
      NoSwapWithoutRequest(c, Apply(c, s, steps[0]), steps[1..], i);
      forall k | 0 < k < |steps| ensures steps[k] != At(i, AwaitOp) {
        assert steps[k] == steps[1..][k - 1];
      }
    }
  }

  /** No view changes between being yielded and the next request of the consumer, over any run
      of all ranks in between. */
  lemma YieldedViewsAreStable(c: Config, s: State, steps: seq<Step>, i: nat)
    requires GoodConfig(c) && Reachable(c, s) && Shaped(c, s) && IsRun(c, s, steps)
    requires i < c.receivers && s.recv[i].phase.Yielding?
    requires forall k :: 0 <= k < |steps| ==> !Requests(steps[k], i)
    ensures SendBuf(Final(c, s, steps), i) == SendBuf(s, i)
  {
    ReachableInv(c, s);
    NoSwapWithoutRequest(c, s, steps, i);
    SendBufIsStableUntilSwap(c, s, steps, i);
  }

  /** The assertion that a chunk's name is not yet in bucket_meta never fires. */
  lemma NoAssertionFires(c: Config, s: State)
    requires GoodConfig(c) && Reachable(c, s) && Enabled(c, s, Fill)
    ensures NotYetIn(s.sender.metas, c.chunks[s.sender.next].meta.name)
    ensures s.sender.offset + c.chunks[s.sender.next].meta.chunkSize <= c.bucketSize
  {
    ReachableInv(c, s);
    FillKeepsNamesApart(c, s.sender);
  }

  lemma YieldedIsPrefixOfAll(sent: seq<Bucket>, r: Receiver)
    requires AllTile(sent) && YieldInv(sent, r) && (r.phase == Finished ==> r.got == |sent|)
    ensures r.yielded <= UnpackAll(sent, |sent|)
    ensures r.phase == Finished ==> r.yielded == UnpackAll(sent, |sent|)
  {
    var before := if r.got == 0 then 0 else r.got - 1;
    match r.phase
    case Starting => YieldedIsPrefix(sent, before, 0);
    case Yielding(k) => YieldedIsPrefix(sent, before, k);
    case AwaitingOp => YieldedIsPrefix(sent, r.got, 0);
    case Finished => assert YieldedUpTo(sent, r.got, 0) == UnpackAll(sent, |sent|);
  }

  /** Every receiver yields rank 0's chunks in order, at the offsets where rank 0 placed them:
      a prefix of them in every reachable state, all of them once it has finished. */
  lemma EveryRankYieldsTheChunks(c: Config, s: State, i: nat)
    requires GoodConfig(c) && Reachable(c, s) && i < c.receivers
    ensures s.recv[i].yielded <= AllPlaced(c) && Chunks(s.recv[i].yielded) <= c.chunks
    ensures s.recv[i].phase == Finished ==> s.recv[i].yielded == AllPlaced(c)
  {
    YieldedArePlaced(c, s, i);
    PrefixOfPlaced(c, s.recv[i].yielded);
  }

  lemma YieldedArePlaced(c: Config, s: State, i: nat)
    requires GoodConfig(c) && Reachable(c, s) && i < c.receivers
    ensures s.recv[i].yielded <= AllPlaced(c)
    ensures s.recv[i].phase == Finished ==> s.recv[i].yielded == AllPlaced(c)
  {
    ReachableInv(c, s);
    assert ReceiverAt(c, s, i);
    UnpackUndoesPack(c.chunks, c.bucketSize);
    YieldedIsPrefixOfAll(Sent(c), s.recv[i]);
  }

  /** In every reachable state `receive_weights` has given each rank a prefix of the trainer's
      list of weights (without the empty ones), unless a weight has come that fits one bucket
      and that rank 0 did not place at a multiple of its item size: that one is refused. */
  lemma EveryRankReceivesAPrefix(ws: seq<Weight>, bucketSize: nat, receivers: nat, s: State, i: nat)
    requires 0 < bucketSize && AreTensors(ws) && DistinctNames(ws) && 0 < receivers
    requires Reachable(TransferOf(ws, bucketSize, receivers), s) && i < receivers
    ensures i < |s.recv|
    ensures var merged := Merge(s.recv[i].yielded, bucketSize);
            if AllAligned(s.recv[i].yielded, bucketSize) then merged.Ok? && merged.value <= NonEmpty(ws)
            else merged == Err(Misaligned)
  {
    SplitIsWellSized(ws, bucketSize);
    YieldedArePlaced(TransferOf(ws, bucketSize, receivers), s, i);
    MergeSoFar(ws, bucketSize, receivers, s.recv[i].yielded);
  }

  /** Refinement: when all chunks have been yielded, every rank has been given the trainer's
      weights (without the empty ones), if and only if rank 0 placed each weight that fits one
      bucket at a multiple of its item size. */
  lemma EveryRankReceivesTheWeights(ws: seq<Weight>, bucketSize: nat, receivers: nat, s: State, i: nat)
    requires 0 < bucketSize && AreTensors(ws) && DistinctNames(ws) && 0 < receivers
    requires Reachable(TransferOf(ws, bucketSize, receivers), s) && AllDone(s) && i < receivers
    ensures i < |s.recv| && Merge(s.recv[i].yielded, bucketSize)
                            == if WellPlaced(Split(ws, bucketSize), bucketSize)
                               then Ok(NonEmpty(ws)) else Err(Misaligned)
  {
    var c := TransferOf(ws, bucketSize, receivers);
    SplitIsWellSized(ws, bucketSize);
    YieldedArePlaced(c, s, i);
    MergeOfAllPlaced(ws, bucketSize, receivers);
  }

  // ---------------------------------------------------------------- progress

  /** Once rank 0 has sent everything, a receiver that has not finished can move. */
  lemma ReceiverMoves(size: nat, sent: seq<Bucket>, r: Receiver, l: Link) returns (step: ReceiverStep)
    requires HoldingInv(size, sent, r) && LinkInv(size, sent, |sent|, r, l) && Unsent(l) == {} && r.phase != Finished
    ensures EnabledAt(r, l, step)
  {
    if r.phase == Starting { return Start; }
    if r.phase.Yielding? {
      return if r.phase.at < |r.metas| then Yield else StopYielding;
    }
    if r.op.value.done { return AwaitOp; }
    if r.op.value.meta == None { return TakeMeta; }
    if r.op.value.pending == {} { return Complete; }
    var j :| j in r.op.value.pending;
    assert l.channel[0].pending == {} by {
      if |l.channel| == 1 {
        assert l.channel[0] == LastPacket(l);
      }
    }
    return CopyByte(j);
  }

  /** Rank 0 never waits for a receiver. */
  lemma SenderMoves(c: Config, s: State) returns (step: Step)
    requires GoodConfig(c) && Inv(c, s) && s.sender.pc != SenderDone
    ensures Enabled(c, s, step)
  {
    var sd := s.sender;
    if sd.pc == Filling && !MustClose(c, sd) { return Fill; }
    if sd.pc == Filling && s.op == None { return StartOp; }
    if !s.op.value.announced { return Announce; }
    if i: nat :| i < |s.links| && Unsent(s.links[i]) != {} {
      var j :| j in Unsent(s.links[i]);
      return SendByte(i, j);
    }
    return AwaitRootOp;
  }

  /** No reachable state in which some rank is unfinished is stuck. */
  lemma NeverStuck(c: Config, s: State) returns (step: Step)
    requires GoodConfig(c) && Reachable(c, s) && !AllDone(s)
    ensures Enabled(c, s, step)
  {
    ReachableInv(c, s);
    if s.sender.pc != SenderDone {
      step := SenderMoves(c, s);
      return;
    }
    var i: nat :| i < |s.recv| && s.recv[i].phase != Finished;
    assert LinkAt(c, s, i) && ReceiverAt(c, s, i);
    var rs := ReceiverMoves(c.bucketSize, Sent(c), s.recv[i], s.links[i]);
    return At(i, rs);
  }
}
