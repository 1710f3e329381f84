/** The NIXL relay chain as a step relation: rank 0 packs and offers buckets, every other
    rank reads a bucket from its predecessor into one buffer while it offers and yields the
    bucket in its other buffer (verl/verl/checkpoint_engine/nixl_checkpoint_engine.py).

    Between two `await` points a rank runs alone, so each such stretch is one step.  A
    transfer copies single bytes, in any order, at any time between its start and its
    completion.  Messages and notifications travel through one FIFO queue per link. */
module NixlRelay {
  import opened Prelude
  import opened WeightChunks
  import opened BucketPacking
  import opened DoubleBuffer

  /** The message of a ReadableOperation: its notify key (keys are fresh, so the number of the
      operation stands for the uuid), the offered buffer, and the bucket's metadata. */
  datatype Msg = Msg(key: nat, src: bool, metas: seq<Placed>, isLast: bool)

  datatype Phase = Offering | Waiting | Yielding(at: nat) | AwaitingReadable | AwaitingRead | Finished

  /** A read in flight from the predecessor's buffer `src` into the buffer `dst` named when it
      began; the bytes in `pending` have not been copied yet. */
  datatype Xfer = Xfer(
    key: nat, src: bool, dst: bool, metas: seq<Placed>, isLast: bool, pending: set<nat>, done: bool)

  /** A rank inside `_receive_weight_chunks`.  `got` counts completed reads; the bucket read
      last lies in buffer `cur` (send_buf) with its metadata.  Before the first read there is
      nothing to offer or to yield, so the code before the loop is the loop with got == 0. */
  datatype Receiver = Receiver(
    phase: Phase, cur: bool, bufs: Bufs, got: nat, metas: seq<Placed>, isLast: bool,
    waiting: Option<nat>, xfer: Option<Xfer>, yielded: seq<Arrived>)

  /** Receiver i is rank i + 1.  msgs[i] leads from rank i to rank i + 1, acks[i] back. */
  datatype State = State(sender: Sender, recv: seq<Receiver>, msgs: seq<seq<Msg>>, acks: seq<seq<nat>>)

  /** What a step of one receiver can touch: itself, the queues to its predecessor, and the
      queues to its successor. */
  datatype Local = Local(r: Receiver, inMsgs: seq<Msg>, inAcks: seq<nat>, outMsgs: seq<Msg>, outAcks: seq<nat>)

  datatype ReceiverStep =
    | Offer | TakeMessage | Yield | StopYielding | AwaitReadable | AwaitRead
    | CopyByte(j: nat) | Complete

  datatype Step = Fill | AwaitAck | Publish | AwaitLastAck | At(i: nat, step: ReceiverStep)

  // ------------------------------------------------------------------- steps

  function Init(c: Config): State {
    var bufs := Bufs(Zeros(c.bucketSize), Zeros(c.bucketSize));
    State(
      Sender(Filling, 0, 0, [], false, bufs, 0, None),
      seq(c.receivers, _ => Receiver(Waiting, false, bufs, 0, [], false, None, None, [])),
      seq(c.receivers, _ => []),
      seq(c.receivers, _ => []))
  }

  predicate Shaped(c: Config, s: State) {
    |s.recv| == |s.msgs| == |s.acks| == c.receivers
  }

  predicate HasNext(c: Config, i: nat) {
    i + 1 < c.receivers
  }

  /** The buffers of rank i, the predecessor of receiver i. */
  function SourceBufs(s: State, i: nat): Bufs
    requires i <= |s.recv|
  {
    if i == 0 then s.sender.bufs else s.recv[i - 1].bufs
  }

  function LocalOf(c: Config, s: State, i: nat): Local
    requires Shaped(c, s) && i < c.receivers
  {
    if HasNext(c, i) then Local(s.recv[i], s.msgs[i], s.acks[i], s.msgs[i + 1], s.acks[i + 1])
    else Local(s.recv[i], s.msgs[i], s.acks[i], [], [])
  }

  function SetLocal(c: Config, s: State, i: nat, l: Local): (s': State)
    requires Shaped(c, s) && i < c.receivers
    ensures Shaped(c, s')
  {
    var s1 := s.(recv := s.recv[i := l.r], msgs := s.msgs[i := l.inMsgs], acks := s.acks[i := l.inAcks]);
    if HasNext(c, i) then s1.(msgs := s1.msgs[i + 1 := l.outMsgs], acks := s1.acks[i + 1 := l.outAcks]) else s1
  }

  predicate EnabledAt(l: Local, step: ReceiverStep) {
    match step
    case Offer => l.r.phase == Offering
    case TakeMessage => l.r.phase == Waiting && l.inMsgs != []
    case Yield => l.r.phase.Yielding? && l.r.phase.at < |l.r.metas|
    case StopYielding => l.r.phase.Yielding? && l.r.phase.at >= |l.r.metas|
    case AwaitReadable => l.r.phase == AwaitingReadable && (l.r.waiting != None ==> l.outAcks != [])
    case AwaitRead => l.r.phase == AwaitingRead && l.r.xfer.Some? && l.r.xfer.value.done
    case CopyByte(j) => l.r.xfer.Some? && !l.r.xfer.value.done && j in l.r.xfer.value.pending
    case Complete => l.r.xfer.Some? && !l.r.xfer.value.done && l.r.xfer.value.pending == {}
  }

  predicate Enabled(c: Config, s: State, step: Step)
    requires Shaped(c, s) && 0 < c.receivers
  {
    match step
    case Fill => s.sender.pc == Filling && s.sender.next < |c.chunks| && !MustClose(c, s.sender)
    case AwaitAck => s.sender.pc == Filling && MustClose(c, s.sender) && s.sender.waiting != None && s.acks[0] != []
    case Publish => s.sender.pc == Filling && MustClose(c, s.sender) && s.sender.waiting == None
    case AwaitLastAck => s.sender.pc == Closing && s.acks[0] != []
    case At(i, rs) => i < c.receivers && EnabledAt(LocalOf(c, s, i), rs)
  }

  function DoTake(c: Config, r: Receiver, m: Msg): Receiver {
    r.(phase := Yielding(0),
       xfer := Some(Xfer(m.key, m.src, !r.cur, m.metas, m.isLast, Indices(c.bucketSize), false)))
  }

  function DoYield(r: Receiver): Receiver
    requires r.phase.Yielding? && r.phase.at < |r.metas|
  {
    r.(phase := Yielding(r.phase.at + 1), yielded := r.yielded + [View(r.bufs.Get(r.cur), r.metas[r.phase.at])])
  }

  function DoAwaitReadable(r: Receiver): Receiver {
    r.(phase := if r.xfer.Some? then AwaitingRead else Finished, waiting := None)
  }

  function DoAwaitRead(r: Receiver): Receiver
    requires r.xfer.Some?
  {
    r.(phase := Offering, cur := !r.cur, got := r.got + 1, metas := r.xfer.value.metas,
       isLast := r.xfer.value.isLast, xfer := None)
  }

  function DoCopy(r: Receiver, src: seq<byte>, j: nat): Receiver
    requires r.xfer.Some?
  {
    var x := r.xfer.value;
    var dst := r.bufs.Get(x.dst);
    r.(bufs := if j < |dst| && j < |src| then r.bufs.Set(x.dst, dst[j := src[j]]) else r.bufs,
       xfer := Some(x.(pending := x.pending - {j})))
  }

  /** Key of the operation that offers the bucket held: buckets are offered in order. */
  function OfferKey(r: Receiver): nat {
    if r.got == 0 then 0 else r.got - 1
  }

  function ApplyAt(c: Config, hasNext: bool, src: Bufs, l: Local, step: ReceiverStep): Local
    requires EnabledAt(l, step)
  {
    match step
    case Offer =>
      var r' := l.r.(phase := if l.r.isLast then Yielding(0) else Waiting);
      if hasNext then
        l.(r := r'.(waiting := Some(OfferKey(l.r))),
           outMsgs := l.outMsgs + [Msg(OfferKey(l.r), l.r.cur, l.r.metas, l.r.isLast)])
      else l.(r := r')
    case TakeMessage => l.(r := DoTake(c, l.r, l.inMsgs[0]), inMsgs := l.inMsgs[1..])
    case Yield => l.(r := DoYield(l.r))
    case StopYielding => l.(r := l.r.(phase := AwaitingReadable))
    case AwaitReadable =>
      l.(r := DoAwaitReadable(l.r), outAcks := if l.r.waiting == None then l.outAcks else l.outAcks[1..])
    case AwaitRead => l.(r := DoAwaitRead(l.r))
    case CopyByte(j) => l.(r := DoCopy(l.r, src.Get(l.r.xfer.value.src), j))
    case Complete =>
      var x := l.r.xfer.value;
      l.(r := l.r.(xfer := Some(x.(done := true))), inAcks := l.inAcks + [x.key])
  }

  function Apply(c: Config, s: State, step: Step): (s': State)
    requires Shaped(c, s) && 0 < c.receivers && Enabled(c, s, step)
    ensures Shaped(c, s')
  {
    match step
    case Fill => s.(sender := DoFill(c, s.sender))
    case AwaitAck => s.(sender := s.sender.(waiting := None), acks := s.acks[0 := s.acks[0][1..]])
    case Publish =>
      var m := Msg(s.sender.published, s.sender.cur, s.sender.metas, s.sender.next == |c.chunks|);
      s.(sender := DoPublish(c, s.sender), msgs := s.msgs[0 := s.msgs[0] + [m]])
    case AwaitLastAck =>
      s.(sender := s.sender.(pc := SenderDone, waiting := None), acks := s.acks[0 := s.acks[0][1..]])
    case At(i, rs) =>
      SetLocal(c, s, i, ApplyAt(c, HasNext(c, i), SourceBufs(s, i), LocalOf(c, s, i), rs))
  }

  // -------------------------------------------------------------------- runs

  /** A run is a sequence of steps, each enabled where it is taken. */
  predicate IsRun(c: Config, s: State, steps: seq<Step>)
    requires Shaped(c, s) && 0 < c.receivers
    decreases |steps|
  {
    steps == [] || (Enabled(c, s, steps[0]) && IsRun(c, Apply(c, s, steps[0]), steps[1..]))
  }

  function Final(c: Config, s: State, steps: seq<Step>): (r: State)
    requires Shaped(c, s) && 0 < c.receivers && IsRun(c, s, steps)
    ensures Shaped(c, r)
    decreases |steps|
  {
    if steps == [] then s else Final(c, Apply(c, s, steps[0]), steps[1..])
  }

  ghost predicate Reachable(c: Config, s: State) {
    0 < c.receivers && exists steps: seq<Step> :: IsRun(c, Init(c), steps) && Final(c, Init(c), steps) == s
  }

  predicate AllDone(s: State) {
    s.sender.pc == SenderDone && forall i :: 0 <= i < |s.recv| ==> s.recv[i].phase == Finished
  }

  // --------------------------------------------------------------- invariant

  // In what follows `size` is the bucket size and `sent` the buckets of rank 0.

  predicate YieldInv(sent: seq<Bucket>, r: Receiver)
    requires AllTile(sent)
  {
    && r.got <= |sent|
    && var before := if r.got == 0 then 0 else r.got - 1;
       match r.phase
       case Offering => r.yielded == YieldedUpTo(sent, before, 0)
       case Waiting => r.yielded == YieldedUpTo(sent, before, 0)
       case Yielding(k) =>
         && k <= |r.metas|
         && (if r.got == 0 then k == 0 else k <= |sent[before].metas|)
         && r.yielded == YieldedUpTo(sent, before, k)
       case AwaitingReadable => r.yielded == YieldedUpTo(sent, r.got, 0)
       case AwaitingRead => r.yielded == YieldedUpTo(sent, r.got, 0)
       case Finished => r.yielded == YieldedUpTo(sent, r.got, 0)
  }

  predicate PhaseInv(r: Receiver, hasNext: bool) {
    && (r.waiting.Some? ==> hasNext && r.got > 0 && r.waiting.value == r.got - 1)
    && match r.phase
       case Offering => r.got > 0 && r.waiting == None && r.xfer == None
       case Waiting => !r.isLast && r.xfer == None && (hasNext && r.got > 0 ==> r.waiting.Some?)
       case Yielding(_) => r.xfer.Some? == !r.isLast && (hasNext && r.got > 0 ==> r.waiting.Some?)
       case AwaitingReadable => r.xfer.Some? == !r.isLast && (hasNext && r.got > 0 ==> r.waiting.Some?)
       case AwaitingRead => !r.isLast && r.xfer.Some? && r.waiting == None
       case Finished => r.isLast && r.xfer == None && r.waiting == None
  }

  predicate XferInv(size: nat, sent: seq<Bucket>, r: Receiver, x: Xfer) {
    && r.got < |sent|
    && x.key == r.got && x.metas == sent[r.got].metas && x.isLast == (r.got + 1 == |sent|)
    && x.dst == !r.cur && x.pending <= Indices(size)
    && (x.done ==> x.pending == {} && SlicesOf(sent[r.got], r.bufs.Get(x.dst)))
  }

  /** The bucket a receiver holds, and the read that is filling its other buffer. */
  predicate HoldingInv(size: nat, sent: seq<Bucket>, r: Receiver) {
    && Sized(size, r.bufs)
    && r.got <= |sent|
    && r.isLast == (r.got == |sent|)
    && (r.got == 0 ==> r.metas == [])
    && (r.got > 0 ==> r.metas == sent[r.got - 1].metas && SlicesOf(sent[r.got - 1], r.bufs.Get(r.cur)))
    && (r.xfer.Some? ==> XferInv(size, sent, r, r.xfer.value))
  }

  /** What a rank shows to its successor: how many buckets it has offered, which offer it still
      waits for, and the buffer that offer names. */
  datatype Producer = Producer(offered: nat, waiting: Option<nat>, desc: bool, bufs: Bufs)

  function SenderSide(sd: Sender): Producer {
    Producer(sd.published, sd.waiting, if sd.pc == Filling then !sd.cur else sd.cur, sd.bufs)
  }

  function ReceiverSide(r: Receiver): Producer {
    Producer(if r.phase == Offering && r.got > 0 then r.got - 1 else r.got, r.waiting, r.cur, r.bufs)
  }

  function Upstream(s: State, i: nat): Producer
    requires i <= |s.recv|
  {
    if i == 0 then SenderSide(s.sender) else ReceiverSide(s.recv[i - 1])
  }

  function Taken(r: Receiver): nat {
    r.got + if r.xfer.Some? then 1 else 0
  }

  predicate NotReading(r: Receiver) {
    r.xfer.Some? ==> r.xfer.value.done
  }

  /** The bytes already copied are the source's. */
  predicate CopiedSoFar(size: nat, dst: seq<byte>, pending: set<nat>, src: seq<byte>) {
    && |src| == |dst| == size
    && forall j: nat :: j < size && j !in pending ==> dst[j] == src[j]
  }

  /** An offer is in the queue, being read, or read and notified: exactly one of the three. */
  predicate Queued(sent: seq<Bucket>, p: Producer, r: Receiver, k: nat, msgs: seq<Msg>, acks: seq<nat>)
    requires k < |sent|
  {
    && msgs == [Msg(k, p.desc, sent[k].metas, k + 1 == |sent|)] && acks == []
    && Taken(r) == k && NotReading(r) && SlicesOf(sent[k], p.bufs.Get(p.desc))
  }

  predicate Reading(size: nat, sent: seq<Bucket>, p: Producer, r: Receiver, k: nat, msgs: seq<Msg>, acks: seq<nat>)
    requires k < |sent|
  {
    && msgs == [] && acks == []
    && Taken(r) == k + 1 && !NotReading(r) && SlicesOf(sent[k], p.bufs.Get(p.desc))
    && r.xfer.value.src == p.desc
    && CopiedSoFar(size, r.bufs.Get(r.xfer.value.dst), r.xfer.value.pending, p.bufs.Get(p.desc))
  }

  predicate Notified(r: Receiver, k: nat, msgs: seq<Msg>, acks: seq<nat>) {
    msgs == [] && acks == [k] && Taken(r) == k + 1 && NotReading(r)
  }

  predicate LinkInv(size: nat, sent: seq<Bucket>, p: Producer, r: Receiver, msgs: seq<Msg>, acks: seq<nat>) {
    && p.offered <= |sent| && Sized(size, p.bufs)
    && match p.waiting
       case None => msgs == [] && acks == [] && Taken(r) == p.offered && NotReading(r)
       case Some(k) =>
         && p.offered == k + 1
         && (|| Queued(sent, p, r, k, msgs, acks)
             || Reading(size, sent, p, r, k, msgs, acks)
             || Notified(r, k, msgs, acks))
  }

  predicate ReceiverInv(size: nat, sent: seq<Bucket>, r: Receiver, hasNext: bool)
    requires AllTile(sent)
  {
    HoldingInv(size, sent, r) && PhaseInv(r, hasNext) && YieldInv(sent, r)
  }

  predicate LinkAt(c: Config, s: State, i: nat)
    requires Shaped(c, s) && i < c.receivers
  {
    LinkInv(c.bucketSize, Sent(c), Upstream(s, i), s.recv[i], s.msgs[i], s.acks[i])
  }

  predicate Inv(c: Config, s: State)
    requires GoodConfig(c)
  {
    && Shaped(c, s)
    && AllTile(Sent(c))
    && SenderInv(c, s.sender)
    && (forall i: nat :: i < c.receivers ==> ReceiverInv(c.bucketSize, Sent(c), s.recv[i], HasNext(c, i)))
    && (forall i: nat :: i < c.receivers ==> LinkAt(c, s, i))
  }
}
