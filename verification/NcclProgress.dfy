/** Termination of the NCCL broadcast: every step brings the end nearer, so with NeverStuck every
    run that cannot be prolonged has finished every rank. */
module NcclProgress {
  import opened Prelude
  import opened WeightChunks
  import opened BucketPacking
  import opened DoubleBuffer
  import opened NcclBroadcast

  /** More than a receiver can do between two swaps. */
  function RoundCost(size: nat, sent: seq<Bucket>): nat {
    size + MaxMetas(sent) + 8
  }

  /** Steps left of a receiver's operation: taking the metadata, the bytes, completing. */
  function OpLeft(op: Option<RecvOp>): nat {
    match op
    case None => 0
    case Some(o) => (if o.meta == None then 1 else 0) + |o.pending| + (if o.done then 0 else 1)
  }

  /** Steps a receiver can still take before its next swap. */
  function PhaseLeft(size: nat, r: Receiver): nat {
    match r.phase
    case Starting => |r.metas| + size + 5
    case Yielding(k) => 2 + OpLeft(r.op) + (if k <= |r.metas| then |r.metas| - k else 0)
    case AwaitingOp => 1 + OpLeft(r.op)
    case Finished => 0
  }

  function ReceiverLeft(size: nat, sent: seq<Bucket>, r: Receiver): nat {
    RoundsLeft(|sent|, r.got, RoundCost(size, sent)) + PhaseLeft(size, r)
  }

  /** Bytes that rank 0 still has to send to a receiver. */
  function SendsLeft(size: nat, sent: seq<Bucket>, announced: nat, l: Link): nat {
    RoundsLeft(|sent|, announced, size) + |Unsent(l)|
  }

  function SenderLeft(c: Config, sd: Sender, op: Option<RootOp>): nat {
    var buckets := if sd.published <= |Sent(c)| then |Sent(c)| - sd.published else 0;
    (if sd.next <= |c.chunks| then |c.chunks| - sd.next else 0) + 3 * buckets
    + (match op case None => 0 case Some(o) => if o.announced then 1 else 2)
  }

  /** What is left to do at each receiver and on the link to it. */
  function ReceiversLeft(c: Config, announced: nat, rs: seq<Receiver>, ls: seq<Link>): (left: seq<nat>)
    requires |rs| == |ls|
    ensures |left| == |rs|
  {
    var size, sent := c.bucketSize, Sent(c);
    seq(|rs|, i requires 0 <= i < |rs| => ReceiverLeft(size, sent, rs[i]) + SendsLeft(size, sent, announced, ls[i]))
  }

  function Measure(c: Config, s: State): nat
    requires Shaped(c, s)
  {
    SenderLeft(c, s.sender, s.op) + Sum(ReceiversLeft(c, Announced(s.sender.published, s.op), s.recv, s.links))
  }

  // ------------------------------------------------------------ a receiver's steps

  lemma PhaseDecreases(c: Config, sent: seq<Bucket>, r: Receiver, l: Link, step: ReceiverStep)
    requires HoldingInv(c.bucketSize, sent, r) && EnabledAt(r, l, step) && step != AwaitOp
    ensures var r' := ApplyAt(c, r, l, step).0;
            r'.got == r.got && PhaseLeft(c.bucketSize, r') < PhaseLeft(c.bucketSize, r)
  {
    match step
    case CopyByte(_) => CallDecreases(c, sent, r, l, step);
    case TakeMeta => CallDecreases(c, sent, r, l, step);
    case Complete => CallDecreases(c, sent, r, l, step);
    case _ =>
  }

  lemma CallDecreases(c: Config, sent: seq<Bucket>, r: Receiver, l: Link, step: ReceiverStep)
    requires HoldingInv(c.bucketSize, sent, r) && EnabledAt(r, l, step)
    requires step.CopyByte? || step == TakeMeta || step == Complete
    ensures var r' := ApplyAt(c, r, l, step).0;
            r'.got == r.got && PhaseLeft(c.bucketSize, r') < PhaseLeft(c.bucketSize, r)
  {
    if step.CopyByte? {
      var pending := r.op.value.pending;
      assert |pending - {step.j}| < |pending|;
    }
    OpDecreases(c.bucketSize, r, ApplyAt(c, r, l, step).0);
  }

  /** Progress of the operation is progress of the phase. */
  lemma OpDecreases(size: nat, r: Receiver, r': Receiver)
    requires r.phase.Yielding? || r.phase == AwaitingOp
    requires r'.phase == r.phase && r'.metas == r.metas && OpLeft(r'.op) < OpLeft(r.op)
    ensures PhaseLeft(size, r') < PhaseLeft(size, r)
  {
  }

  lemma SwapDecreases(size: nat, sent: seq<Bucket>, r: Receiver, r': Receiver)
    requires r.phase == AwaitingOp && r'.phase == Starting && r'.got == r.got + 1 <= |sent|
    requires |r'.metas| + size + 5 <= RoundCost(size, sent)
    ensures ReceiverLeft(size, sent, r') < ReceiverLeft(size, sent, r)
  {
    OneRoundLess(|sent|, r.got, RoundCost(size, sent));
  }

  lemma OneRoundLess(rounds: nat, got: nat, cost: nat)
    requires got < rounds
    ensures RoundsLeft(rounds, got, cost) == RoundsLeft(rounds, got + 1, cost) + cost
  {
    assert (rounds - got) * cost == (rounds - (got + 1)) * cost + cost;
  }

  lemma ReceiverStepDecreases(c: Config, sent: seq<Bucket>, r: Receiver, l: Link, step: ReceiverStep)
    requires HoldingInv(c.bucketSize, sent, r) && EnabledAt(r, l, step)
    ensures ReceiverLeft(c.bucketSize, sent, ApplyAt(c, r, l, step).0) < ReceiverLeft(c.bucketSize, sent, r)
  {
    if step == AwaitOp {
      MaxMetasBounds(sent, r.got);
      SwapDecreases(c.bucketSize, sent, r, ApplyAt(c, r, l, step).0);
    } else {
      PhaseDecreases(c, sent, r, l, step);
    }
  }

  lemma ReceiverMeasureFalls(c: Config, s: State, i: nat, rs: ReceiverStep)
    requires GoodConfig(c) && Inv(c, s) && Enabled(c, s, At(i, rs))
    ensures Measure(c, Apply(c, s, At(i, rs))) < Measure(c, s)
  {
    assert ReceiverAt(c, s, i) && LinkAt(c, s, i);
    var r, l, n := s.recv[i], s.links[i], Announced(s.sender.published, s.op);
    ReceiverStepDecreases(c, Sent(c), r, l, rs);
    ReceiverStepKeepsSend(c, Sent(c), s.sender.published, s.op, RootBuf(s), n, r, l, rs);
    OneReceiverFalls(c, n, s.recv, s.links, i, ApplyAt(c, r, l, rs).0, ApplyAt(c, r, l, rs).1);
  }

  lemma OneReceiverFalls(c: Config, n: nat, rs: seq<Receiver>, ls: seq<Link>, i: nat, r: Receiver, l: Link)
    requires |rs| == |ls| && i < |rs|
    requires ReceiverLeft(c.bucketSize, Sent(c), r) + |Unsent(l)|
             < ReceiverLeft(c.bucketSize, Sent(c), rs[i]) + |Unsent(ls[i])|
    ensures Sum(ReceiversLeft(c, n, rs[i := r], ls[i := l])) < Sum(ReceiversLeft(c, n, rs, ls))
  {
    SumFalls(ReceiversLeft(c, n, rs, ls), ReceiversLeft(c, n, rs[i := r], ls[i := l]), i);
  }

  // --------------------------------------------------------------- rank 0's steps

  lemma SendByteFalls(c: Config, s: State, i: nat, j: nat)
    requires GoodConfig(c) && Inv(c, s) && Enabled(c, s, SendByte(i, j))
    ensures Measure(c, Apply(c, s, SendByte(i, j))) < Measure(c, s)
  {
    var l := s.links[i];
    var l' := Send(l, RootBuf(s), j);
    assert Unsent(l') == Unsent(l) - {j} && |Unsent(l')| < |Unsent(l)|;
    OneReceiverFalls(c, Announced(s.sender.published, s.op), s.recv, s.links, i, s.recv[i], l');
    assert s.recv[i := s.recv[i]] == s.recv;
  }

  /** The bytes of a broadcast that is announced are counted on the links from then on. */
  lemma AnnounceFalls(c: Config, s: State)
    requires GoodConfig(c) && Inv(c, s) && Enabled(c, s, Announce)
    ensures Measure(c, Apply(c, s, Announce)) < Measure(c, s)
  {
    var s', n := Apply(c, s, Announce), Announced(s.sender.published, s.op);
    assert n + 1 == s.sender.published == Announced(s'.sender.published, s'.op);
    OneRoundLess(|Sent(c)|, n, c.bucketSize);
    var left, left' := ReceiversLeft(c, n, s.recv, s.links), ReceiversLeft(c, n + 1, s'.recv, s'.links);
    forall i: nat | i < |left| ensures left'[i] == left[i] {
      assert LinkAt(c, s, i);
      assert Unsent(s.links[i]) == {} && Unsent(s'.links[i]) == Indices(c.bucketSize);
    }
    assert left == left';
  }

  /** The other steps of rank 0 leave the receivers, the links and the number announced alone. */
  lemma SenderStepFalls(c: Config, s: State, step: Step)
    requires GoodConfig(c) && Inv(c, s) && Enabled(c, s, step)
    requires step == Fill || step == StartOp || step == AwaitRootOp
    ensures Measure(c, Apply(c, s, step)) < Measure(c, s)
  {
    var s' := Apply(c, s, step);
    if step == StartOp {
      PublishKeepsSender(c, s.sender);
    }
    assert Announced(s'.sender.published, s'.op) == Announced(s.sender.published, s.op);
    SenderLeftFalls(c, s.sender, s.op, s'.sender, s'.op);
  }

  lemma SenderLeftFalls(c: Config, sd: Sender, op: Option<RootOp>, sd': Sender, op': Option<RootOp>)
    requires sd.next <= sd'.next <= |c.chunks| && sd.published <= sd'.published <= |Sent(c)|
    requires if sd'.published == sd.published
             then (op' == op && sd'.next > sd.next) || (op.Some? && op' == None)
             else sd'.published == sd.published + 1 && op == None
    ensures SenderLeft(c, sd', op') < SenderLeft(c, sd, op)
  {
  }

  // --------------------------------------------------------------- every run ends

  lemma StepDecreases(c: Config, s: State, step: Step)
    requires GoodConfig(c) && Inv(c, s) && Enabled(c, s, step)
    ensures Measure(c, Apply(c, s, step)) < Measure(c, s)
  {
    match step
    case At(i, rs) => ReceiverMeasureFalls(c, s, i, rs);
    case SendByte(i, j) => SendByteFalls(c, s, i, j);
    case Announce => AnnounceFalls(c, s);
    case _ => SenderStepFalls(c, s, step);
  }

  /** Every run ends: no run is longer than the measure of the state it starts in. */
  lemma {:induction false} RunsAreBounded(c: Config, s: State, steps: seq<Step>)
    requires GoodConfig(c) && Inv(c, s) && IsRun(c, s, steps)
    ensures |steps| + Measure(c, Final(c, s, steps)) <= Measure(c, s)
    decreases |steps|
  {
    if steps != [] {
      StepDecreases(c, s, steps[0]);
      StepKeepsInv(c, s, steps[0]);
      RunsAreBounded(c, Apply(c, s, steps[0]), steps[1..]);
    }
  }

  /** A run that cannot be prolonged has finished every rank, within the bound. */
  lemma MaximalRunsFinish(c: Config, steps: seq<Step>)
    requires GoodConfig(c) && IsRun(c, Init(c), steps)
    requires forall step: Step :: !Enabled(c, Final(c, Init(c), steps), step)
    ensures AllDone(Final(c, Init(c), steps)) && |steps| <= Measure(c, Init(c))
  {
    InitInv(c);
    RunsAreBounded(c, Init(c), steps);
    var s := Final(c, Init(c), steps);
    assert Reachable(c, s);
    if !AllDone(s) {
      var step := NeverStuck(c, s);
    }
  }
}
