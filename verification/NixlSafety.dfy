/** Safety of the NIXL relay: in every interleaving every rank yields rank 0's chunks, and no
    buffer is overwritten while a successor may still read it or a view of it is in use. */
module NixlSafety {
  import opened Prelude
  import opened WeightChunks
  import opened BucketPacking
  import opened DoubleBuffer
  import opened NixlRelay

  // ------------------------------------------------- the invariant holds at first

  lemma InitInv(c: Config)
    requires GoodConfig(c)
    ensures Inv(c, Init(c))
  {
    var s := Init(c);
    BucketsAreGood(c.chunks, c.bucketSize);
    assert PackPrefix(c.chunks, 0, c.bucketSize).open == EMPTY_BUCKET;
    assert SlicesOf(EMPTY_BUCKET, s.sender.bufs.Get(false));
    forall i: nat | i < c.receivers
      ensures ReceiverInv(c.bucketSize, Sent(c), s.recv[i], HasNext(c, i)) && LinkAt(c, s, i)
    {
      assert YieldedUpTo(Sent(c), 0, 0) == [];
    }
  }

  // ------------------------------------- a receiver step disturbs only its two links

  /** Everything but the yields that the invariant says about receiver i and its links;
      `next` is its successor. */
  predicate CoreInv(size: nat, sent: seq<Bucket>, up: Producer, l: Local, next: Option<Receiver>) {
    && HoldingInv(size, sent, l.r) && PhaseInv(l.r, next.Some?)
    && LinkInv(size, sent, up, l.r, l.inMsgs, l.inAcks)
    && (next.Some? ==> LinkInv(size, sent, ReceiverSide(l.r), next.value, l.outMsgs, l.outAcks))
  }

  predicate LocalInv(size: nat, sent: seq<Bucket>, up: Producer, l: Local, next: Option<Receiver>)
    requires AllTile(sent)
  {
    CoreInv(size, sent, up, l, next) && YieldInv(sent, l.r)
  }

  function Successor(c: Config, s: State, i: nat): Option<Receiver>
    requires Shaped(c, s)
  {
    if HasNext(c, i) then Some(s.recv[i + 1]) else None
  }

  lemma ToLocal(c: Config, s: State, i: nat)
    requires GoodConfig(c) && Inv(c, s) && i < c.receivers
    ensures LocalInv(c.bucketSize, Sent(c), Upstream(s, i), LocalOf(c, s, i), Successor(c, s, i))
  {
    assert LinkAt(c, s, i);
    if HasNext(c, i) {
      assert LinkAt(c, s, i + 1);
    }
  }

  /** A link that receiver i is not part of does not change with it. */
  lemma OtherLink(c: Config, s: State, i: nat, l: Local, k: nat)
    requires Shaped(c, s) && i < c.receivers && k < c.receivers && k != i && k != i + 1 && LinkAt(c, s, k)
    ensures LinkAt(c, SetLocal(c, s, i, l), k)
  {
    assert Upstream(SetLocal(c, s, i, l), k) == Upstream(s, k);
  }

  lemma LinkBefore(c: Config, s: State, i: nat, l: Local)
    requires Shaped(c, s) && i < c.receivers
    requires LinkInv(c.bucketSize, Sent(c), Upstream(s, i), l.r, l.inMsgs, l.inAcks)
    ensures LinkAt(c, SetLocal(c, s, i, l), i)
  {
    assert Upstream(SetLocal(c, s, i, l), i) == Upstream(s, i);
  }

  lemma LinkAfter(c: Config, s: State, i: nat, l: Local)
    requires Shaped(c, s) && i < c.receivers && HasNext(c, i)
    requires LinkInv(c.bucketSize, Sent(c), ReceiverSide(l.r), s.recv[i + 1], l.outMsgs, l.outAcks)
    ensures LinkAt(c, SetLocal(c, s, i, l), i + 1)
  {
    assert Upstream(SetLocal(c, s, i, l), i + 1) == ReceiverSide(l.r);
  }

  lemma ReceiversStay(c: Config, s: State, i: nat, l: Local)
    requires GoodConfig(c) && Inv(c, s) && i < c.receivers && ReceiverInv(c.bucketSize, Sent(c), l.r, HasNext(c, i))
    ensures forall k: nat :: k < c.receivers ==>
              ReceiverInv(c.bucketSize, Sent(c), SetLocal(c, s, i, l).recv[k], HasNext(c, k))
  {
    forall k: nat | k < c.receivers && k != i ensures SetLocal(c, s, i, l).recv[k] == s.recv[k] {
    }
  }

  lemma AllLinks(c: Config, s: State, i: nat)
    requires Shaped(c, s) && i < c.receivers && LinkAt(c, s, i) && (HasNext(c, i) ==> LinkAt(c, s, i + 1))
    requires forall k: nat :: k < c.receivers && k != i && k != i + 1 ==> LinkAt(c, s, k)
    ensures forall k: nat :: k < c.receivers ==> LinkAt(c, s, k)
  {
  }

  lemma FromLocal(c: Config, s: State, i: nat, l: Local)
    requires GoodConfig(c) && Inv(c, s) && i < c.receivers
    requires LocalInv(c.bucketSize, Sent(c), Upstream(s, i), l, Successor(c, s, i))
    ensures Inv(c, SetLocal(c, s, i, l))
  {
    ReceiversStay(c, s, i, l);
    LinkBefore(c, s, i, l);
    if HasNext(c, i) {
      LinkAfter(c, s, i, l);
    }
    forall k: nat | k < c.receivers && k != i && k != i + 1 {
      OtherLink(c, s, i, l, k);
    }
    AllLinks(c, SetLocal(c, s, i, l), i);
  }

  lemma FromSender(c: Config, s: State, s': State)
    requires GoodConfig(c) && Inv(c, s) && Shaped(c, s') && s'.recv == s.recv
    requires forall k: nat :: 0 < k < c.receivers ==> s'.msgs[k] == s.msgs[k] && s'.acks[k] == s.acks[k]
    requires SenderInv(c, s'.sender) && LinkAt(c, s', 0)
    ensures Inv(c, s')
  {
    forall k: nat | k < c.receivers
      ensures LinkAt(c, s', k)
    {
      if k != 0 {
        assert Upstream(s', k) == Upstream(s, k);
        assert LinkAt(c, s, k);
      }
    }
  }

  // ------------------------------------------------------------- rank 0's steps

  /** Filling writes send_buf only, and an offer still awaited names the other buffer. */
  lemma FillKeeps(c: Config, s: State)
    requires GoodConfig(c) && Inv(c, s) && Enabled(c, s, Fill)
    ensures Inv(c, Apply(c, s, Fill))
  {
    var s' := Apply(c, s, Fill);
    FillKeepsSender(c, s.sender);
    assert LinkAt(c, s, 0);
    assert Upstream(s', 0).bufs.Get(Upstream(s, 0).desc) == Upstream(s, 0).bufs.Get(Upstream(s, 0).desc);
    FromSender(c, s, s');
  }

  lemma AckKeeps(c: Config, s: State, step: Step)
    requires GoodConfig(c) && Inv(c, s) && (step == AwaitAck || step == AwaitLastAck) && Enabled(c, s, step)
    ensures Inv(c, Apply(c, s, step))
  {
    assert LinkAt(c, s, 0);
    FromSender(c, s, Apply(c, s, step));
  }

  lemma PublishKeeps(c: Config, s: State)
    requires GoodConfig(c) && Inv(c, s) && Enabled(c, s, Publish)
    ensures Inv(c, Apply(c, s, Publish))
  {
    PublishKeepsSender(c, s.sender);
    assert LinkAt(c, s, 0);
    FromSender(c, s, Apply(c, s, Publish));
  }

  // -------------------------------------------------------- a receiver's steps

  lemma OfferKeeps(c: Config, sent: seq<Bucket>, up: Producer, l: Local, next: Option<Receiver>)
    requires CoreInv(c.bucketSize, sent, up, l, next) && EnabledAt(l, Offer)
    ensures CoreInv(c.bucketSize, sent, up, ApplyAt(c, next.Some?, up.bufs, l, Offer), next)
  {
  }

  lemma TakeMessageKeeps(c: Config, sent: seq<Bucket>, up: Producer, l: Local, next: Option<Receiver>)
    requires CoreInv(c.bucketSize, sent, up, l, next) && EnabledAt(l, TakeMessage)
    ensures CoreInv(c.bucketSize, sent, up, ApplyAt(c, next.Some?, up.bufs, l, TakeMessage), next)
  {
  }

  lemma YieldKeeps(c: Config, sent: seq<Bucket>, up: Producer, l: Local, next: Option<Receiver>)
    requires CoreInv(c.bucketSize, sent, up, l, next) && EnabledAt(l, Yield)
    ensures CoreInv(c.bucketSize, sent, up, ApplyAt(c, next.Some?, up.bufs, l, Yield), next)
  {
  }

  lemma StopYieldingKeeps(c: Config, sent: seq<Bucket>, up: Producer, l: Local, next: Option<Receiver>)
    requires CoreInv(c.bucketSize, sent, up, l, next) && EnabledAt(l, StopYielding)
    ensures CoreInv(c.bucketSize, sent, up, ApplyAt(c, next.Some?, up.bufs, l, StopYielding), next)
  {
  }

  lemma AwaitReadableKeeps(c: Config, sent: seq<Bucket>, up: Producer, l: Local, next: Option<Receiver>)
    requires CoreInv(c.bucketSize, sent, up, l, next) && EnabledAt(l, AwaitReadable)
    ensures CoreInv(c.bucketSize, sent, up, ApplyAt(c, next.Some?, up.bufs, l, AwaitReadable), next)
  {
  }

  /** The swap.  Both operations are over, so nobody reads the buffer that becomes recv_buf. */
  lemma AwaitReadKeeps(c: Config, sent: seq<Bucket>, up: Producer, l: Local, next: Option<Receiver>)
    requires CoreInv(c.bucketSize, sent, up, l, next) && EnabledAt(l, AwaitRead)
    ensures CoreInv(c.bucketSize, sent, up, ApplyAt(c, next.Some?, up.bufs, l, AwaitRead), next)
  {
  }

  /** A copied byte lands in recv_buf, which no successor is reading. */
  lemma CopyByteKeeps(c: Config, sent: seq<Bucket>, up: Producer, l: Local, next: Option<Receiver>, j: nat)
    requires CoreInv(c.bucketSize, sent, up, l, next) && EnabledAt(l, CopyByte(j))
    ensures CoreInv(c.bucketSize, sent, up, ApplyAt(c, next.Some?, up.bufs, l, CopyByte(j)), next)
  {
  }

  lemma CompleteKeeps(c: Config, sent: seq<Bucket>, up: Producer, l: Local, next: Option<Receiver>)
    requires CoreInv(c.bucketSize, sent, up, l, next) && EnabledAt(l, Complete)
    ensures CoreInv(c.bucketSize, sent, up, ApplyAt(c, next.Some?, up.bufs, l, Complete), next)
  {
    // all bytes have been copied, so the two buffers are equal
    assert l.r.bufs.Get(l.r.xfer.value.dst) == up.bufs.Get(up.desc);
  }

  lemma YieldOneKeeps(size: nat, sent: seq<Bucket>, r: Receiver, hasNext: bool)
    requires AllTile(sent) && HoldingInv(size, sent, r) && PhaseInv(r, hasNext) && YieldInv(sent, r)
    requires r.phase.Yielding? && r.phase.at < |r.metas|
    ensures YieldInv(sent, DoYield(r))
  {
    var b := sent[r.got - 1];
    SliceOfBuffer(b, r.bufs.Get(r.cur), r.phase.at);
    assert View(r.bufs.Get(r.cur), r.metas[r.phase.at]) == Unpack(b)[r.phase.at];
    OneMoreYield(sent, r.got - 1, r.phase.at);
  }

  lemma YieldingKeeps(c: Config, sent: seq<Bucket>, hasNext: bool, src: Bufs, l: Local, step: ReceiverStep)
    requires AllTile(sent) && HoldingInv(c.bucketSize, sent, l.r) && PhaseInv(l.r, hasNext)
    requires YieldInv(sent, l.r) && EnabledAt(l, step)
    ensures YieldInv(sent, ApplyAt(c, hasNext, src, l, step).r)
  {
    match step
    case Yield => YieldOneKeeps(c.bucketSize, sent, l.r, hasNext);
    case StopYielding => StopYieldingYields(c.bucketSize, sent, l.r);
    case _ => OtherStepsYieldNothing(c, sent, hasNext, src, l, step);
  }

  lemma StopYieldingYields(size: nat, sent: seq<Bucket>, r: Receiver)
    requires AllTile(sent) && HoldingInv(size, sent, r) && YieldInv(sent, r)
    requires r.phase.Yielding? && r.phase.at >= |r.metas|
    ensures YieldInv(sent, r.(phase := AwaitingReadable))
  {
    if r.got > 0 {
      WholeBucketYielded(sent, r.got - 1);
    }
  }

  lemma OtherStepsYieldNothing(c: Config, sent: seq<Bucket>, hasNext: bool, src: Bufs, l: Local, step: ReceiverStep)
    requires AllTile(sent) && HoldingInv(c.bucketSize, sent, l.r) && PhaseInv(l.r, hasNext)
    requires YieldInv(sent, l.r) && EnabledAt(l, step) && step != Yield && step != StopYielding
    ensures YieldInv(sent, ApplyAt(c, hasNext, src, l, step).r)
  {
    var r' := ApplyAt(c, hasNext, src, l, step).r;
    assert r'.yielded == l.r.yielded;
  }

  lemma ReceiverStepKeeps(c: Config, sent: seq<Bucket>, up: Producer, l: Local, next: Option<Receiver>,
                          step: ReceiverStep)
    requires AllTile(sent) && LocalInv(c.bucketSize, sent, up, l, next) && EnabledAt(l, step)
    ensures LocalInv(c.bucketSize, sent, up, ApplyAt(c, next.Some?, up.bufs, l, step), next)
  {
    YieldingKeeps(c, sent, next.Some?, up.bufs, l, step);
    match step
    case Offer => OfferKeeps(c, sent, up, l, next);
    case TakeMessage => TakeMessageKeeps(c, sent, up, l, next);
    case Yield => YieldKeeps(c, sent, up, l, next);
    case StopYielding => StopYieldingKeeps(c, sent, up, l, next);
    case AwaitReadable => AwaitReadableKeeps(c, sent, up, l, next);
    case AwaitRead => AwaitReadKeeps(c, sent, up, l, next);
    case CopyByte(j) => CopyByteKeeps(c, sent, up, l, next, j);
    case Complete => CompleteKeeps(c, sent, up, l, next);
  }

  // -------------------------------------------------------------- every step, every run

  lemma StepKeepsInv(c: Config, s: State, step: Step)
    requires GoodConfig(c) && Inv(c, s) && Enabled(c, s, step)
    ensures Inv(c, Apply(c, s, step))
  {
    match step
    case Fill => FillKeeps(c, s);
    case AwaitAck => AckKeeps(c, s, step);
    case Publish => PublishKeeps(c, s);
    case AwaitLastAck => AckKeeps(c, s, step);
    case At(i, rs) =>
      ToLocal(c, s, i);
      var up, l, next := Upstream(s, i), LocalOf(c, s, i), Successor(c, s, i);
      ReceiverStepKeeps(c, Sent(c), up, l, next, rs);
      FromLocal(c, s, i, ApplyAt(c, next.Some?, up.bufs, l, rs));
  }

  lemma {:induction false} RunKeepsInv(c: Config, s: State, steps: seq<Step>)
    requires GoodConfig(c) && Inv(c, s) && IsRun(c, s, steps)
    ensures Inv(c, Final(c, s, steps))
    decreases |steps|
  {
    if steps != [] {
      StepKeepsInv(c, s, steps[0]);
      RunKeepsInv(c, Apply(c, s, steps[0]), steps[1..]);
    }
  }

  lemma ReachableInv(c: Config, s: State)
    requires GoodConfig(c) && Reachable(c, s)
    ensures Inv(c, s)
  {
    var steps: seq<Step> :| IsRun(c, Init(c), steps) && Final(c, Init(c), steps) == s;
    InitInv(c);
    RunKeepsInv(c, Init(c), steps);
  }

  // ------------------------------------------------------------------ theorems

  /** Rank r's buffer b has been offered to rank r + 1, which has not finished reading it. */
  predicate OfferedAndUnread(c: Config, s: State, r: nat, b: bool)
    requires Shaped(c, s)
  {
    && r < c.receivers
    && (|| (exists k :: 0 <= k < |s.msgs[r]| && s.msgs[r][k].src == b)
        || (s.recv[r].xfer.Some? && !s.recv[r].xfer.value.done && s.recv[r].xfer.value.src == b))
  }

  /** The consumer of rank r may hold a view of its buffer b. */
  predicate BeingYielded(c: Config, s: State, r: nat, b: bool)
    requires Shaped(c, s)
  {
    0 < r <= c.receivers && s.recv[r - 1].phase.Yielding? && s.recv[r - 1].cur == b
  }

  /** The only writes there are: rank 0 fills its send_buf, a read fills the buffer it was
      begun with. */
  lemma OnlyWrites(c: Config, s: State, step: Step, r: nat, b: bool)
    requires Shaped(c, s) && 0 < c.receivers && Enabled(c, s, step) && r <= c.receivers
    requires SourceBufs(Apply(c, s, step), r).Get(b) != SourceBufs(s, r).Get(b)
    ensures if r == 0 then step == Fill && b == s.sender.cur
            else step.At? && step.i == r - 1 && step.step.CopyByte?
                 && s.recv[r - 1].xfer.Some? && b == s.recv[r - 1].xfer.value.dst
  {
    if step.At? {
      var l := ApplyAt(c, HasNext(c, step.i), SourceBufs(s, step.i), LocalOf(c, s, step.i), step.step);
      assert Apply(c, s, step).recv == s.recv[step.i := l.r];
    }
  }

  lemma UnreadOfferIsNotWritable(c: Config, s: State, r: nat, b: bool)
    requires GoodConfig(c) && Reachable(c, s) && Shaped(c, s) && OfferedAndUnread(c, s, r, b)
    ensures if r == 0 then s.sender.pc == Filling ==> b == !s.sender.cur else b == s.recv[r - 1].cur
  {
    ReachableInv(c, s);
    assert LinkAt(c, s, r);
    OfferedIsNamed(c.bucketSize, Sent(c), Upstream(s, r), s.recv[r], s.msgs[r], s.acks[r], b);
  }

  /** An offer that is queued or being read is the one awaited. */
  lemma OfferedIsNamed(size: nat, sent: seq<Bucket>, p: Producer, r: Receiver, msgs: seq<Msg>, acks: seq<nat>, b: bool)
    requires LinkInv(size, sent, p, r, msgs, acks)
    requires (exists k :: 0 <= k < |msgs| && msgs[k].src == b)
          || (r.xfer.Some? && !r.xfer.value.done && r.xfer.value.src == b)
    ensures b == p.desc
  {
  }

  /** A read that has begun writes the buffer that is recv_buf now. */
  predicate ReadsIntoRecvBuf(r: Receiver) {
    r.xfer.Some? ==> r.xfer.value.dst == !r.cur
  }

  lemma ReadsGoToRecvBuf(c: Config, s: State, i: nat)
    requires GoodConfig(c) && Inv(c, s) && i < c.receivers
    ensures ReadsIntoRecvBuf(s.recv[i])
  {
    assert ReceiverInv(c.bucketSize, Sent(c), s.recv[i], HasNext(c, i));
  }

  lemma ReachableReads(c: Config, s: State, i: nat)
    requires GoodConfig(c) && Reachable(c, s) && Shaped(c, s) && i < c.receivers
    ensures ReadsIntoRecvBuf(s.recv[i])
  {
    ReachableInv(c, s);
    ReadsGoToRecvBuf(c, s, i);
  }

  lemma FillLeavesOtherBuf(c: Config, s: State, step: Step, b: bool)
    requires Shaped(c, s) && 0 < c.receivers && Enabled(c, s, step) && (s.sender.pc == Filling ==> b == !s.sender.cur)
    ensures Apply(c, s, step).sender.bufs.Get(b) == s.sender.bufs.Get(b)
  {
  }

  lemma StepLeavesSendBuf(c: Config, hasNext: bool, src: Bufs, l: Local, step: ReceiverStep)
    requires EnabledAt(l, step) && ReadsIntoRecvBuf(l.r)
    ensures var r' := ApplyAt(c, hasNext, src, l, step).r;
            r'.bufs.Get(l.r.cur) == l.r.bufs.Get(l.r.cur) && (step != AwaitRead ==> r'.cur == l.r.cur)
  {
  }

  /** Given that, no step of any rank writes send_buf, and only a swap renames it. */
  lemma SendBufStays(c: Config, s: State, step: Step, i: nat)
    requires Shaped(c, s) && 0 < c.receivers && Enabled(c, s, step) && i < c.receivers && ReadsIntoRecvBuf(s.recv[i])
    ensures Apply(c, s, step).recv[i].bufs.Get(s.recv[i].cur) == s.recv[i].bufs.Get(s.recv[i].cur)
    ensures step != At(i, AwaitRead) ==> Apply(c, s, step).recv[i].cur == s.recv[i].cur
  {
    if step.At? {
      var l := ApplyAt(c, HasNext(c, step.i), SourceBufs(s, step.i), LocalOf(c, s, step.i), step.step);
      assert Apply(c, s, step).recv == s.recv[step.i := l.r];
      if step.i == i {
        StepLeavesSendBuf(c, HasNext(c, i), SourceBufs(s, i), LocalOf(c, s, i), step.step);
      }
    }
  }

  /** No step writes to a buffer that a successor still has to read, or that views are being
      yielded from. */
  lemma NoOverwriteInUse(c: Config, s: State, step: Step, r: nat, b: bool)
    requires GoodConfig(c) && Reachable(c, s) && Enabled(c, s, step) && r <= c.receivers
    requires OfferedAndUnread(c, s, r, b) || BeingYielded(c, s, r, b)
    ensures SourceBufs(Apply(c, s, step), r).Get(b) == SourceBufs(s, r).Get(b)
  {
    if OfferedAndUnread(c, s, r, b) {
      UnreadOfferIsNotWritable(c, s, r, b);
    }
    if r == 0 {
      FillLeavesOtherBuf(c, s, step, b);
    } else {
      ReachableReads(c, s, r - 1);
      SendBufStays(c, s, step, r - 1);
    }
  }

  /** send_buf of receiver i: its name and its contents. */
  function SendBuf(s: State, i: nat): (bool, seq<byte>)
    requires i < |s.recv|
  {
    (s.recv[i].cur, s.recv[i].bufs.Get(s.recv[i].cur))
  }

  /** From one swap of receiver i to the next, whatever all ranks do meanwhile, its send_buf
      keeps its name and its contents, and with it every view that was yielded from it. */
  lemma {:induction false} SendBufIsStableUntilSwap(c: Config, s: State, steps: seq<Step>, i: nat)
    requires GoodConfig(c) && Inv(c, s) && IsRun(c, s, steps) && i < c.receivers
    requires forall k :: 0 <= k < |steps| ==> steps[k] != At(i, AwaitRead)
    ensures SendBuf(Final(c, s, steps), i) == SendBuf(s, i)
    decreases |steps|
  {
    if steps != [] {
      ReadsGoToRecvBuf(c, s, i);
      SendBufStays(c, s, steps[0], i);
      StepKeepsInv(c, s, steps[0]);
      SendBufIsStableUntilSwap(c, Apply(c, s, steps[0]), steps[1..], i);
    }
  }

  /** A step that is a request of the consumer of receiver i for its next chunk. */
  predicate Requests(step: Step, i: nat) {
    step == At(i, Yield) || step == At(i, StopYielding)
  }

  lemma {:induction false} NoSwapWithoutRequest(c: Config, s: State, steps: seq<Step>, i: nat)
    requires Shaped(c, s) && 0 < c.receivers && IsRun(c, s, steps) && i < c.receivers && s.recv[i].phase.Yielding?
    requires forall k :: 0 <= k < |steps| ==> !Requests(steps[k], i)
    ensures forall k :: 0 <= k < |steps| ==> steps[k] != At(i, AwaitRead)
    decreases |steps|
  {
    if steps != [] {
      assert Apply(c, s, steps[0]).recv[i].phase == s.recv[i].phase;
      NoSwapWithoutRequest(c, Apply(c, s, steps[0]), steps[1..], i);
      forall k | 0 < k < |steps| ensures steps[k] != At(i, AwaitRead) {
        assert steps[k] == steps[1..][k - 1];
      }
    }
  }

  /** No view changes between being yielded and the next request of the consumer, over any run
      of all ranks in between. */
  lemma YieldedViewsAreStable(c: Config, s: State, steps: seq<Step>, i: nat)
    requires GoodConfig(c) && Reachable(c, s) && Shaped(c, s) && IsRun(c, s, steps)
    requires i < c.receivers && s.recv[i].phase.Yielding?
    requires forall k :: 0 <= k < |steps| ==> !Requests(steps[k], i)
    ensures SendBuf(Final(c, s, steps), i) == SendBuf(s, i)
  {
    ReachableInv(c, s);
    NoSwapWithoutRequest(c, s, steps, i);
    SendBufIsStableUntilSwap(c, s, steps, i);
  }

  /** The assertions of the source: a notification carries the key waited for, and a name is
      not yet in bucket_meta when a chunk is placed, within the buffer. */
  predicate Asserted(c: Config, s: State, step: Step)
    requires Shaped(c, s) && 0 < c.receivers && Enabled(c, s, step)
  {
    match step
    case Fill =>
      && NotYetIn(s.sender.metas, c.chunks[s.sender.next].meta.name)
      && s.sender.offset + c.chunks[s.sender.next].meta.chunkSize <= c.bucketSize
    case AwaitAck => s.sender.waiting == Some(s.acks[0][0])
    case AwaitLastAck => s.sender.waiting == Some(s.acks[0][0])
    case At(i, rs) =>
      rs == AwaitReadable && s.recv[i].waiting != None ==> s.recv[i].waiting == Some(LocalOf(c, s, i).outAcks[0])
    case Publish => true
  }

  lemma NoAssertionFires(c: Config, s: State, step: Step)
    requires GoodConfig(c) && Reachable(c, s) && Enabled(c, s, step)
    ensures Asserted(c, s, step)
  {
    ReachableInv(c, s);
    match step
    case Fill => FillKeepsNamesApart(c, s.sender);
    case AwaitAck => FirstAckIsAwaited(c, s);
    case AwaitLastAck => FirstAckIsAwaited(c, s);
    case Publish =>
    case At(i, rs) =>
      if rs == AwaitReadable && s.recv[i].waiting != None {
        AckIsAwaited(c, s, i);
      }
  }

  lemma FirstAckIsAwaited(c: Config, s: State)
    requires GoodConfig(c) && Inv(c, s) && s.acks[0] != []
    ensures s.sender.waiting == Some(s.acks[0][0])
  {
    assert LinkAt(c, s, 0);
  }

  lemma AckIsAwaited(c: Config, s: State, i: nat)
    requires GoodConfig(c) && Inv(c, s) && i < c.receivers
    requires s.recv[i].waiting != None && LocalOf(c, s, i).outAcks != []
    ensures s.recv[i].waiting == Some(LocalOf(c, s, i).outAcks[0])
  {
    if HasNext(c, i) {
      assert LinkAt(c, s, i + 1);
    }
  }

  /** Every rank yields rank 0's chunks, in order, with their contents and at the offsets where
      rank 0 placed them: a prefix of them in every reachable state, all of them once it has
      finished. */
  lemma EveryRankYieldsTheChunks(c: Config, s: State, i: nat)
    requires GoodConfig(c) && Reachable(c, s) && i < c.receivers
    ensures s.recv[i].yielded <= AllPlaced(c) && Chunks(s.recv[i].yielded) <= c.chunks
    ensures s.recv[i].phase == Finished ==> s.recv[i].yielded == AllPlaced(c)
  {
    YieldedArePlaced(c, s, i);
    PrefixOfPlaced(c, s.recv[i].yielded);
  }

  lemma YieldedArePlaced(c: Config, s: State, i: nat)
    requires GoodConfig(c) && Reachable(c, s) && i < c.receivers
    ensures s.recv[i].yielded <= AllPlaced(c)
    ensures s.recv[i].phase == Finished ==> s.recv[i].yielded == AllPlaced(c)
  {
    ReachableInv(c, s);
    assert ReceiverInv(c.bucketSize, Sent(c), s.recv[i], HasNext(c, i));
    UnpackUndoesPack(c.chunks, c.bucketSize);
    YieldedIsPrefixOfAll(Sent(c), s.recv[i]);
  }

  lemma YieldedIsPrefixOfAll(sent: seq<Bucket>, r: Receiver)
    requires AllTile(sent) && YieldInv(sent, r) && (r.phase == Finished ==> r.got == |sent|)
    ensures r.yielded <= UnpackAll(sent, |sent|)
    ensures r.phase == Finished ==> r.yielded == UnpackAll(sent, |sent|)
  {
    var before := if r.got == 0 then 0 else r.got - 1;
    match r.phase
    case Offering => YieldedIsPrefix(sent, before, 0);
    case Waiting => YieldedIsPrefix(sent, before, 0);
    case Yielding(k) => YieldedIsPrefix(sent, before, k);
    case AwaitingReadable => YieldedIsPrefix(sent, r.got, 0);
    case AwaitingRead => YieldedIsPrefix(sent, r.got, 0);
    case Finished => assert YieldedUpTo(sent, r.got, 0) == UnpackAll(sent, |sent|);
  }

  /** In every reachable state `receive_weights` has given each rank a prefix of the trainer's
      list of weights (without the empty ones), unless a weight has come that fits one bucket
      and that rank 0 did not place at a multiple of its item size: that one is refused. */
  lemma EveryRankReceivesAPrefix(ws: seq<Weight>, bucketSize: nat, receivers: nat, s: State, i: nat)
    requires 0 < bucketSize && AreTensors(ws) && DistinctNames(ws) && 0 < receivers
    requires Reachable(TransferOf(ws, bucketSize, receivers), s) && i < receivers
    ensures i < |s.recv|
    ensures var merged := Merge(s.recv[i].yielded, bucketSize);
            if AllAligned(s.recv[i].yielded, bucketSize) then merged.Ok? && merged.value <= NonEmpty(ws)
            else merged == Err(Misaligned)
  {
    SplitIsWellSized(ws, bucketSize);
    YieldedArePlaced(TransferOf(ws, bucketSize, receivers), s, i);
    MergeSoFar(ws, bucketSize, receivers, s.recv[i].yielded);
  }

  /** Refinement: whatever the interleaving, when all chunks have been yielded `receive_weights`
      has given every rank the trainer's list of weights (without the empty ones), if and only
      if rank 0 placed each weight that fits one bucket at a multiple of its item size. */
  lemma EveryRankReceivesTheWeights(ws: seq<Weight>, bucketSize: nat, receivers: nat, s: State, i: nat)
    requires 0 < bucketSize && AreTensors(ws) && DistinctNames(ws) && 0 < receivers
    requires Reachable(TransferOf(ws, bucketSize, receivers), s) && AllDone(s) && i < receivers
    ensures i < |s.recv| && Merge(s.recv[i].yielded, bucketSize)
                            == if WellPlaced(Split(ws, bucketSize), bucketSize)
                               then Ok(NonEmpty(ws)) else Err(Misaligned)
  {
    var c := TransferOf(ws, bucketSize, receivers);
    SplitIsWellSized(ws, bucketSize);
    YieldedArePlaced(c, s, i);
    MergeOfAllPlaced(ws, bucketSize, receivers);
  }

  /** Completed buckets of rank r: read for r > 0, handed over for r == 0. */
  function Completed(s: State, r: nat): nat
    requires r <= |s.recv|
  {
    if r == 0 then s.sender.published else s.recv[r - 1].got
  }

  /** Neighbours never drift apart by more than two buckets. */
  lemma NeighboursStayClose(c: Config, s: State, r: nat)
    requires GoodConfig(c) && Reachable(c, s) && r < c.receivers
    ensures Completed(s, r + 1) <= Completed(s, r) <= Completed(s, r + 1) + 2
  {
    ReachableInv(c, s);
    OffersAreTaken(c, s, r);
    if r > 0 && s.recv[r - 1].phase == Offering {
      OfferingIsAlone(c, s, r - 1);
    }
  }

  /** A rank has read all buckets offered to it but the last two, and all but the last if none
      is awaited. */
  lemma OffersAreTaken(c: Config, s: State, r: nat)
    requires GoodConfig(c) && Inv(c, s) && r < c.receivers
    ensures var up := Upstream(s, r);
            s.recv[r].got <= up.offered <= s.recv[r].got + if up.waiting == None then 1 else 2
  {
    assert LinkAt(c, s, r);
  }

  lemma OfferingIsAlone(c: Config, s: State, i: nat)
    requires GoodConfig(c) && Inv(c, s) && i < c.receivers && s.recv[i].phase == Offering
    ensures s.recv[i].waiting == None && s.recv[i].got > 0
  {
    assert ReceiverInv(c.bucketSize, Sent(c), s.recv[i], HasNext(c, i));
  }
}
