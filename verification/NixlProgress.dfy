/** Progress of the NIXL relay: an unfinished chain is never stuck, and every step brings the
    end nearer, so every run ends. */
module NixlProgress {
  import opened Prelude
  import opened WeightChunks
  import opened BucketPacking
  import opened DoubleBuffer
  import opened NixlRelay
  import opened NixlSafety

  // ------------------------------------------------------------ no reachable deadlock

  ghost predicate SomeStep(c: Config, s: State)
    requires Shaped(c, s) && 0 < c.receivers
  {
    exists step: Step :: Enabled(c, s, step)
  }

  lemma Moves(c: Config, s: State, i: nat, step: ReceiverStep)
    requires Shaped(c, s) && i < c.receivers && EnabledAt(LocalOf(c, s, i), step)
    ensures SomeStep(c, s)
  {
    assert Enabled(c, s, At(i, step));
  }

  /** What a receiver is up to. */
  datatype Standing = CanMove(step: ReceiverStep) | NeedsMessage | NeedsNotification | IsFinished

  /** A receiver that can neither move nor has finished waits for one of its neighbours. */
  lemma Stand(l: Local, hasNext: bool) returns (st: Standing)
    requires PhaseInv(l.r, hasNext)
    ensures match st
            case CanMove(step) => EnabledAt(l, step)
            case NeedsMessage => l.r.phase == Waiting && l.inMsgs == []
            case NeedsNotification => NotReading(l.r) && l.r.waiting.Some? && l.outAcks == []
            case IsFinished => l.r.phase == Finished
  {
    if !NotReading(l.r) {
      var pending := l.r.xfer.value.pending;
      if pending == {} { return CanMove(Complete); }
      var j :| j in pending;
      return CanMove(CopyByte(j));
    }
    match l.r.phase
    case Offering => st := CanMove(Offer);
    case Waiting => st := if l.inMsgs == [] then NeedsMessage else CanMove(TakeMessage);
    case Yielding(k) => st := if k < |l.r.metas| then CanMove(Yield) else CanMove(StopYielding);
    case AwaitingReadable =>
      st := if l.r.waiting.Some? && l.outAcks == [] then NeedsNotification else CanMove(AwaitReadable);
    case AwaitingRead => st := CanMove(AwaitRead);
    case Finished => st := IsFinished;
  }

  /** A rank whose predecessor waits for its notification can move, or waits for a notification itself. */
  lemma StandBehind(size: nat, sent: seq<Bucket>, up: Producer, l: Local, hasNext: bool) returns (st: Standing)
    requires LinkInv(size, sent, up, l.r, l.inMsgs, l.inAcks) && HoldingInv(size, sent, l.r) && PhaseInv(l.r, hasNext)
    requires up.waiting.Some? && l.inAcks == []
    ensures if st.CanMove? then EnabledAt(l, st.step)
            else hasNext && ReceiverSide(l.r).waiting.Some? && l.outAcks == []
  {
    st := Stand(l, hasNext);
  }

  /** A rank whose successor waits for its message can move, or waits for a message itself. */
  lemma StandBefore(l: Local, n: nat) returns (st: Standing)
    requires PhaseInv(l.r, true) && l.r.isLast == (l.r.got == n)
    requires (l.r.waiting.Some? ==> l.outAcks != []) && ReceiverSide(l.r).offered < n
    ensures if st.CanMove? then EnabledAt(l, st.step) else l.r.phase == Waiting && l.inMsgs == []
  {
    st := Stand(l, true);
  }

  lemma LinkFacts(c: Config, s: State, k: nat)
    requires GoodConfig(c) && Shaped(c, s) && Reachable(c, s) && k < c.receivers
    ensures LinkInv(c.bucketSize, Sent(c), Upstream(s, k), s.recv[k], s.msgs[k], s.acks[k])
    ensures HoldingInv(c.bucketSize, Sent(c), s.recv[k]) && PhaseInv(s.recv[k], HasNext(c, k))
  {
    ReachableInv(c, s);
    assert LinkAt(c, s, k);
    assert ReceiverInv(c.bucketSize, Sent(c), s.recv[k], HasNext(c, k));
  }

  /** A rank with an empty queue has read all it was offered, and that was not everything. */
  lemma NothingQueued(c: Config, s: State, k: nat)
    requires GoodConfig(c) && Shaped(c, s) && Reachable(c, s) && k < c.receivers
    requires s.recv[k].phase == Waiting && s.msgs[k] == []
    ensures (Upstream(s, k).waiting.Some? ==> s.acks[k] != []) && Upstream(s, k).offered < |Sent(c)|
  {
    LinkFacts(c, s, k);
  }

  /** Rank r waits for a notification that has not arrived: then some rank behind it can move,
      for the last rank waits for no notification. */
  lemma WaitingForSuccessor(c: Config, s: State, r: nat)
    requires GoodConfig(c) && Shaped(c, s) && Reachable(c, s) && r < c.receivers
    requires Upstream(s, r).waiting.Some? && s.acks[r] == []
    ensures SomeStep(c, s)
  {
    var k := r;
    while !SomeStep(c, s)
      invariant k < c.receivers && Upstream(s, k).waiting.Some? && s.acks[k] == []
      decreases c.receivers - k
    {
      SuccessorMovesOrWaits(c, s, k);
      k := k + 1;
    }
  }

  lemma SuccessorMovesOrWaits(c: Config, s: State, k: nat)
    requires GoodConfig(c) && Shaped(c, s) && Reachable(c, s) && k < c.receivers
    requires Upstream(s, k).waiting.Some? && s.acks[k] == []
    ensures SomeStep(c, s) || (k + 1 < c.receivers && Upstream(s, k + 1).waiting.Some? && s.acks[k + 1] == [])
  {
    LinkFacts(c, s, k);
    var st := StandBehind(c.bucketSize, Sent(c), Upstream(s, k), LocalOf(c, s, k), HasNext(c, k));
    if st.CanMove? {
      Moves(c, s, k, st.step);
    }
  }

  lemma PredecessorFacts(c: Config, s: State, k: nat)
    requires GoodConfig(c) && Shaped(c, s) && Reachable(c, s) && 0 < k < c.receivers
    requires s.recv[k].phase == Waiting && s.msgs[k] == []
    ensures var l := LocalOf(c, s, k - 1);
            && l.r == s.recv[k - 1] && l.inMsgs == s.msgs[k - 1]
            && PhaseInv(l.r, true) && l.r.isLast == (l.r.got == |Sent(c)|)
            && (l.r.waiting.Some? ==> l.outAcks != []) && ReceiverSide(l.r).offered < |Sent(c)|
  {
    ReachableInv(c, s);
    NothingQueued(c, s, k);
    assert ReceiverInv(c.bucketSize, Sent(c), s.recv[k - 1], HasNext(c, k - 1));
  }

  lemma PredecessorMovesOrWaits(c: Config, s: State, k: nat)
    requires GoodConfig(c) && Shaped(c, s) && Reachable(c, s) && 0 < k < c.receivers
    requires s.recv[k].phase == Waiting && s.msgs[k] == []
    ensures SomeStep(c, s) || (s.recv[k - 1].phase == Waiting && s.msgs[k - 1] == [])
  {
    PredecessorFacts(c, s, k);
    var l := LocalOf(c, s, k - 1);
    var st := StandBefore(l, |Sent(c)|);
    if st.CanMove? {
      Moves(c, s, k - 1, st.step);
    }
  }

  /** If no rank can move and receiver i waits for a message that has not arrived, then so do all
      receivers before it. */
  lemma BackToFirstReceiver(c: Config, s: State, i: nat)
    requires GoodConfig(c) && Shaped(c, s) && Reachable(c, s) && i < c.receivers && !SomeStep(c, s)
    requires s.recv[i].phase == Waiting && s.msgs[i] == []
    ensures s.recv[0].phase == Waiting && s.msgs[0] == []
  {
    var k: nat := i;
    while k > 0
      invariant 0 <= k < c.receivers
      invariant s.recv[k].phase == Waiting && s.msgs[k] == []
    {
      PredecessorMovesOrWaits(c, s, k);
      k := k - 1;
    }
  }

  lemma WaitingForPredecessor(c: Config, s: State, i: nat)
    requires GoodConfig(c) && Shaped(c, s) && Reachable(c, s) && i < c.receivers
    requires s.recv[i].phase == Waiting && s.msgs[i] == []
    ensures SomeStep(c, s)
  {
    if !SomeStep(c, s) {
      BackToFirstReceiver(c, s, i);
      FirstReceiverWaits(c, s);
    }
  }

  lemma FirstReceiverWaits(c: Config, s: State)
    requires GoodConfig(c) && Shaped(c, s) && Reachable(c, s) && s.recv[0].phase == Waiting && s.msgs[0] == []
    ensures SomeStep(c, s)
  {
    NothingQueued(c, s, 0);
    SenderNotDone(c, s);
    SenderCanMove(c, s);
  }

  /** Rank 0 is not done before it has offered every bucket. */
  lemma SenderNotDone(c: Config, s: State)
    requires GoodConfig(c) && Shaped(c, s) && Reachable(c, s)
    ensures s.sender.pc != Filling ==> s.sender.published == |Sent(c)|
    ensures s.sender.pc == Closing ==> s.sender.waiting.Some?
  {
    ReachableInv(c, s);
  }

  lemma SenderCanMove(c: Config, s: State)
    requires GoodConfig(c) && Shaped(c, s) && Reachable(c, s) && s.sender.pc != SenderDone
    ensures SomeStep(c, s)
  {
    SenderNotDone(c, s);
    var sd := s.sender;
    if sd.pc == Filling && !MustClose(c, sd) {
      assert Enabled(c, s, Fill);
    } else if sd.pc == Filling && sd.waiting == None {
      assert Enabled(c, s, Publish);
    } else if s.acks[0] == [] {
      WaitingForSuccessor(c, s, 0);
    } else {
      assert Enabled(c, s, AwaitAck) || Enabled(c, s, AwaitLastAck);
    }
  }

  lemma ReceiverCanMove(c: Config, s: State, i: nat)
    requires GoodConfig(c) && Shaped(c, s) && Reachable(c, s) && i < c.receivers && s.recv[i].phase != Finished
    ensures SomeStep(c, s)
  {
    var st := ReceiverStands(c, s, i);
    match st
    case CanMove(step) => Moves(c, s, i, step);
    case NeedsMessage => WaitingForPredecessor(c, s, i);
    case NeedsNotification => NotNotified(c, s, i);
  }

  lemma ReceiverStands(c: Config, s: State, i: nat) returns (st: Standing)
    requires GoodConfig(c) && Shaped(c, s) && Reachable(c, s) && i < c.receivers && s.recv[i].phase != Finished
    ensures match st
            case CanMove(step) => EnabledAt(LocalOf(c, s, i), step)
            case NeedsMessage => s.recv[i].phase == Waiting && s.msgs[i] == []
            case NeedsNotification => s.recv[i].waiting.Some? && LocalOf(c, s, i).outAcks == []
            case IsFinished => false
  {
    LinkFacts(c, s, i);
    st := Stand(LocalOf(c, s, i), HasNext(c, i));
  }

  lemma NotNotified(c: Config, s: State, i: nat)
    requires GoodConfig(c) && Shaped(c, s) && Reachable(c, s) && i < c.receivers
    requires s.recv[i].waiting.Some? && LocalOf(c, s, i).outAcks == []
    ensures SomeStep(c, s)
  {
    LinkFacts(c, s, i);
    WaitingForSuccessor(c, s, i + 1);
  }

  /** No reachable state in which some rank is unfinished is stuck. */
  lemma NeverStuck(c: Config, s: State)
    requires GoodConfig(c) && Reachable(c, s) && !AllDone(s)
    ensures SomeStep(c, s)
  {
    ReachableInv(c, s);
    if s.sender.pc != SenderDone {
      SenderCanMove(c, s);
    } else {
      var i: nat :| i < |s.recv| && s.recv[i].phase != Finished;
      ReceiverCanMove(c, s, i);
    }
  }

  // --------------------------------------------------------------- every run ends

  /** More than any rank can do between two swaps. */
  function RoundCost(c: Config): nat {
    c.bucketSize + MaxMetas(Sent(c)) + 10
  }

  function XferLeft(r: Receiver): nat {
    if r.xfer.Some? then |r.xfer.value.pending| + (if r.xfer.value.done then 0 else 1) else 0
  }

  /** Steps a receiver can still take before its next swap. */
  function PhaseLeft(size: nat, r: Receiver): nat {
    match r.phase
    case Offering => 7 + size + |r.metas|
    case Waiting => 6 + size + |r.metas|
    case Yielding(k) => 3 + XferLeft(r) + (if k <= |r.metas| then |r.metas| - k else 0)
    case AwaitingReadable => 2 + XferLeft(r)
    case AwaitingRead => 1 + XferLeft(r)
    case Finished => 0
  }

  function ReceiverLeft(rounds: nat, cost: nat, size: nat, r: Receiver): nat {
    RoundsLeft(rounds, r.got, cost) + PhaseLeft(size, r)
  }

  function SenderLeft(c: Config, sd: Sender): nat {
    var buckets := if sd.published <= |Sent(c)| then |Sent(c)| - sd.published else 0;
    (if sd.next <= |c.chunks| then |c.chunks| - sd.next else 0)
    + 2 * buckets + (if sd.waiting.Some? then 1 else 0)
  }

  function ReceiversLeft(c: Config, rs: seq<Receiver>): (r: seq<nat>)
    ensures |r| == |rs|
  {
    seq(|rs|, i requires 0 <= i < |rs| => ReceiverLeft(|Sent(c)|, RoundCost(c), c.bucketSize, rs[i]))
  }

  function Measure(c: Config, s: State): nat {
    SenderLeft(c, s.sender) + Sum(ReceiversLeft(c, s.recv))
  }

  lemma SwapDecreases(rounds: nat, cost: nat, size: nat, r: Receiver)
    requires r.xfer.Some? && r.got < rounds && r.phase == AwaitingRead
    requires 7 + size + |r.xfer.value.metas| <= cost
    ensures ReceiverLeft(rounds, cost, size, DoAwaitRead(r)) < ReceiverLeft(rounds, cost, size, r)
  {
    assert (rounds - r.got) * cost == (rounds - (r.got + 1)) * cost + cost;
  }

  lemma SameRoundDecreases(rounds: nat, cost: nat, size: nat, r: Receiver, r': Receiver)
    requires r'.got == r.got && PhaseLeft(size, r') < PhaseLeft(size, r)
    ensures ReceiverLeft(rounds, cost, size, r') < ReceiverLeft(rounds, cost, size, r)
  {
  }

  lemma PhaseDecreases(c: Config, sent: seq<Bucket>, hasNext: bool, src: Bufs, l: Local, step: ReceiverStep)
    requires HoldingInv(c.bucketSize, sent, l.r) && PhaseInv(l.r, hasNext) && EnabledAt(l, step) && step != AwaitRead
    ensures var r' := ApplyAt(c, hasNext, src, l, step).r;
            r'.got == l.r.got && PhaseLeft(c.bucketSize, r') < PhaseLeft(c.bucketSize, l.r)
  {
    if step.CopyByte? || step == Complete {
      ReadDecreases(c, hasNext, src, l, step);
    } else {
      PhaseMovesOn(c, sent, hasNext, src, l, step);
    }
  }

  /** A read moves on within the phase. */
  lemma ReadDecreases(c: Config, hasNext: bool, src: Bufs, l: Local, step: ReceiverStep)
    requires PhaseInv(l.r, hasNext) && EnabledAt(l, step) && (step.CopyByte? || step == Complete)
    ensures var r' := ApplyAt(c, hasNext, src, l, step).r;
            r'.got == l.r.got && PhaseLeft(c.bucketSize, r') < PhaseLeft(c.bucketSize, l.r)
  {
    if step.CopyByte? {
      var pending := l.r.xfer.value.pending;
      assert |pending - {step.j}| < |pending|;
    }
  }

  lemma PhaseMovesOn(c: Config, sent: seq<Bucket>, hasNext: bool, src: Bufs, l: Local, step: ReceiverStep)
    requires HoldingInv(c.bucketSize, sent, l.r) && PhaseInv(l.r, hasNext) && EnabledAt(l, step)
    requires step != AwaitRead && !step.CopyByte? && step != Complete
    ensures var r' := ApplyAt(c, hasNext, src, l, step).r;
            r'.got == l.r.got && PhaseLeft(c.bucketSize, r') < PhaseLeft(c.bucketSize, l.r)
  {
  }

  lemma ReceiverStepDecreases(c: Config, sent: seq<Bucket>, hasNext: bool, src: Bufs, l: Local,
                              step: ReceiverStep, cost: nat)
    requires HoldingInv(c.bucketSize, sent, l.r) && PhaseInv(l.r, hasNext) && EnabledAt(l, step)
    requires cost == c.bucketSize + MaxMetas(sent) + 10
    ensures ReceiverLeft(|sent|, cost, c.bucketSize, ApplyAt(c, hasNext, src, l, step).r)
          < ReceiverLeft(|sent|, cost, c.bucketSize, l.r)
  {
    if step == AwaitRead {
      MaxMetasBounds(sent, l.r.got);
      SwapDecreases(|sent|, cost, c.bucketSize, l.r);
    } else {
      PhaseDecreases(c, sent, hasNext, src, l, step);
      SameRoundDecreases(|sent|, cost, c.bucketSize, l.r, ApplyAt(c, hasNext, src, l, step).r);
    }
  }

  lemma SenderStepDecreases(c: Config, s: State, step: Step)
    requires GoodConfig(c) && Inv(c, s) && Enabled(c, s, step) && !step.At?
    ensures SenderLeft(c, Apply(c, s, step).sender) < SenderLeft(c, s.sender)
  {
    if step == Publish {
      PublishKeeps(c, s);
    }
    assert LinkAt(c, s, 0);
  }

  lemma StepDecreases(c: Config, s: State, step: Step)
    requires GoodConfig(c) && Inv(c, s) && Enabled(c, s, step)
    ensures Measure(c, Apply(c, s, step)) < Measure(c, s)
  {
    match step
    case At(i, rs) =>
      ToLocal(c, s, i);
      var l := ApplyAt(c, HasNext(c, i), SourceBufs(s, i), LocalOf(c, s, i), rs);
      ReceiverStepDecreases(c, Sent(c), HasNext(c, i), SourceBufs(s, i), LocalOf(c, s, i), rs, RoundCost(c));
      assert Apply(c, s, step).recv == s.recv[i := l.r];
      SumFalls(ReceiversLeft(c, s.recv), ReceiversLeft(c, s.recv[i := l.r]), i);
    case _ => SenderStepDecreases(c, s, step);
  }

  /** Every run ends: no run is longer than the measure of the state it starts in. */
  lemma {:induction false} RunsAreBounded(c: Config, s: State, steps: seq<Step>)
    requires GoodConfig(c) && Inv(c, s) && IsRun(c, s, steps)
    ensures |steps| + Measure(c, Final(c, s, steps)) <= Measure(c, s)
    decreases |steps|
  {
    if steps != [] {
      StepDecreases(c, s, steps[0]);
      StepKeepsInv(c, s, steps[0]);
      RunsAreBounded(c, Apply(c, s, steps[0]), steps[1..]);
    }
  }

  /** A run that cannot be prolonged has finished every rank, within the bound. */
  lemma MaximalRunsFinish(c: Config, steps: seq<Step>)
    requires GoodConfig(c) && IsRun(c, Init(c), steps) && !SomeStep(c, Final(c, Init(c), steps))
    ensures AllDone(Final(c, Init(c), steps)) && |steps| <= Measure(c, Init(c))
  {
    InitInv(c);
    RunsAreBounded(c, Init(c), steps);
    assert Reachable(c, Final(c, Init(c), steps));
    if !AllDone(Final(c, Init(c), steps)) {
      NeverStuck(c, Final(c, Init(c), steps));
    }
  }
}
