/** The communication topology of the NIXL engine: `build_topology`, the length checks of its
    caller and the checks of `init_process_group` (nixl_checkpoint_engine.py, base.py). */
module NixlTopology {
  import opened Prelude

  /** A slice bound: negative bounds count from the end, all are clipped. */
  function Bound(n: nat, i: int): (r: nat)
    ensures r <= n
  {
    if i < 0 then (if i + n < 0 then 0 else i + n) else if i > n then n else i
  }

  /** `xs[lo:hi]` */
  function PySlice<T>(xs: seq<T>, lo: int, hi: int): seq<T> {
    var a, b := Bound(|xs|, lo), Bound(|xs|, hi);
    if a <= b then xs[a..b] else []
  }

  /** `xs[lo:]` */
  function PyFrom<T>(xs: seq<T>, lo: int): seq<T> {
    xs[Bound(|xs|, lo)..]
  }

  function Somes<T>(xs: seq<T>): (r: seq<Option<T>>)
    ensures |r| == |xs| && forall i :: 0 <= i < |xs| ==> r[i] == Some(xs[i])
  {
    seq(|xs|, i requires 0 <= i < |xs| => Some(xs[i]))
  }

  function Nones<T>(n: nat): (r: seq<Option<T>>)
    ensures |r| == n && forall i :: 0 <= i < n ==> r[i] == None
  {
    seq(n, _ => None)
  }

  /** The argument lists for one worker group; `M` is the metadata of an agent. */
  datatype Kwargs<M> = Kwargs(rank: seq<int>, worldSize: seq<nat>, prev: seq<Option<M>>, next: seq<Option<M>>)

  function TrainerKwargs<M>(trainers: nat, rollouts: nat, metadata: seq<M>): Kwargs<M>
    requires 0 < trainers && 0 < rollouts <= |metadata|
  {
    Kwargs(
      [0] + seq(trainers - 1, _ => -1),
      seq(trainers, _ => rollouts + 1),
      Nones(trainers),
      [Some(metadata[|metadata| - rollouts])] + Nones(trainers - 1))
  }

  function RolloutKwargs<M>(rollouts: nat, metadata: seq<M>): Kwargs<M>
    requires 0 < rollouts <= |metadata|
  {
    Kwargs(
      seq(rollouts, i => i + 1),
      seq(rollouts, _ => rollouts + 1),
      Somes([metadata[0]] + PySlice(metadata, 0 - rollouts, -1)),
      Somes(PyFrom(metadata, 1 - rollouts)) + [None])
  }

  /** The checks of the caller: every list is as long as its worker group. */
  predicate RightLengths<M>(k: Kwargs<M>, workers: nat) {
    |k.rank| == |k.worldSize| == |k.prev| == |k.next| == workers
  }

  /** The assertions of `init_process_group`. */
  predicate InitAccepts<M>(rank: int, worldSize: nat, prev: Option<M>, next: Option<M>) {
    if rank < 0 then prev == None && next == None
    else if rank == 0 then prev == None && next != None
    else if rank < worldSize - 1 then prev != None && next != None
    else if rank == worldSize - 1 then prev != None && next == None
    else true
  }

  /** With two ranks or more the assertions hold exactly when a rank has a predecessor unless it is
      the first, and a successor unless it is the last. */
  lemma InitChecksNeighbours<M>(rank: int, worldSize: nat, prev: Option<M>, next: Option<M>)
    requires 2 <= worldSize && rank < worldSize
    ensures InitAccepts(rank, worldSize, prev, next) <==>
            (prev.Some? <==> 0 < rank) && (next.Some? <==> 0 <= rank < worldSize - 1)
  {
  }

  predicate GroupAccepts<M>(k: Kwargs<M>, workers: nat) {
    RightLengths(k, workers) &&
    forall w :: 0 <= w < workers ==> InitAccepts(k.rank[w], k.worldSize[w], k.prev[w], k.next[w])
  }

  predicate TopologyAccepted<M>(trainers: nat, rollouts: nat, metadata: seq<M>)
    requires 0 < trainers && 0 < rollouts <= |metadata|
  {
    GroupAccepts(TrainerKwargs(trainers, rollouts, metadata), trainers) &&
    GroupAccepts(RolloutKwargs(rollouts, metadata), rollouts)
  }

  /** The metadata of the agent with rank r: trainer 0, then the rollout workers, whose
      metadata comes after that of all trainers. */
  function Agent<M>(trainers: nat, rollouts: nat, metadata: seq<M>, r: nat): M
    requires 0 < trainers && |metadata| == trainers + rollouts && r <= rollouts
  {
    if r == 0 then metadata[0] else metadata[trainers + r - 1]
  }

  /** Worker 0 of the trainers and worker i of the rollout get ranks 0 and i + 1, each is connected
      to the agents one rank before and one rank behind it, and all know the number of ranks. */
  predicate IsChain<M(==)>(trainers: nat, rollouts: nat, metadata: seq<M>)
    requires 0 < trainers && 0 < rollouts && |metadata| == trainers + rollouts
  {
    var t, k := TrainerKwargs(trainers, rollouts, metadata), RolloutKwargs(rollouts, metadata);
    && RightLengths(t, trainers) && RightLengths(k, rollouts)
    && t.rank[0] == 0 && t.prev[0] == None && t.next[0] == Some(Agent(trainers, rollouts, metadata, 1))
    && (forall w :: 0 <= w < trainers ==> t.worldSize[w] == 1 + rollouts)
    && (forall i :: 0 <= i < rollouts ==> k.worldSize[i] == 1 + rollouts)
    && (forall w :: 0 < w < trainers ==> t.rank[w] == -1 && t.prev[w] == None && t.next[w] == None)
    && (forall i :: 0 <= i < rollouts ==>
          && k.rank[i] == i + 1
          && k.prev[i] == Some(Agent(trainers, rollouts, metadata, i))
          && k.next[i] == if i + 1 < rollouts then Some(Agent(trainers, rollouts, metadata, i + 2)) else None)
  }

  /** The topology is accepted exactly when there are at least two rollout workers, and then it
      is the relay chain.  With one worker the slice that drops the first rollout agent keeps
      the whole list instead, and the length check of the caller fails. */
  lemma ChainNeedsTwoRolloutWorkers<M>(trainers: nat, rollouts: nat, metadata: seq<M>)
    requires 0 < trainers && 0 < rollouts && |metadata| == trainers + rollouts
    ensures TopologyAccepted(trainers, rollouts, metadata) <==> rollouts >= 2
    ensures IsChain(trainers, rollouts, metadata) <==> rollouts >= 2
  {
    var k := RolloutKwargs(rollouts, metadata);
    if rollouts == 1 {
      assert |k.next| == |metadata| + 1;
    } else {
      assert PySlice(metadata, 0 - rollouts, -1) == metadata[trainers..trainers + rollouts - 1];
      assert PyFrom(metadata, 1 - rollouts) == metadata[trainers + 1..];
      forall i | 0 <= i < rollouts
        ensures k.prev[i] == Some(Agent(trainers, rollouts, metadata, i))
        ensures k.next[i] == if i + 1 < rollouts then Some(Agent(trainers, rollouts, metadata, i + 2)) else None
      {
        if i > 0 {
          assert k.prev[i] == Some(metadata[trainers..trainers + rollouts - 1][i - 1]);
        }
        if i + 1 < rollouts {
          assert k.next[i] == Some(metadata[trainers + 1..][i]);
        }
      }
    }
  }
}
