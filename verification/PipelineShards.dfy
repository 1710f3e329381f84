/** How layers are dealt out to pipeline ranks when a checkpoint is merged
    (verl/verl/model_merger/megatron_model_merger.py). */
module PipelineShards {
  import opened Prelude

  function Sum(s: seq<int>): int {
    if s == [] then 0 else Sum(s[..|s| - 1]) + s[|s| - 1]
  }

  lemma {:induction false} SumAppend(s: seq<int>, t: seq<int>)
    ensures Sum(s + t) == Sum(s) + Sum(t)
    decreases |t|
  {
    if t == [] {
      assert s + t == s;
    } else {
      assert (s + t)[..|s + t| - 1] == s + t[..|t| - 1];
      SumAppend(s, t[..|t| - 1]);
    }
  }

  function Repeat(x: int, n: nat): (r: seq<int>)
    ensures |r| == n && forall i :: 0 <= i < n ==> r[i] == x
  {
    seq(n, i => x)
  }

  lemma {:induction false} SumRepeat(x: int, n: nat)
    ensures Sum(Repeat(x, n)) == x * n
  {
    if n > 0 {
      assert Repeat(x, n)[..n - 1] == Repeat(x, n - 1);
      SumRepeat(x, n - 1);
    }
  }

  datatype ShardError = FewerLayersThanRanks | NoRank | NoCandidate

  // ------------------------------------------------------------------ search

  /** The layers left for the two ends when each of p - 2 middle ranks has m. */
  function Ends(layers: nat, p: nat, m: nat): int {
    layers - m * (p - 2)
  }

  predicate Candidate(layers: nat, p: nat, m: nat) {
    var ends := Ends(layers, p, m);
    0 < ends / 2 <= m && 0 < ends - ends / 2 <= m
  }

  function Shards(layers: nat, p: nat, m: nat): seq<int>
    requires p >= 2
  {
    [Ends(layers, p, m) / 2] + Repeat(m, p - 2) + [Ends(layers, p, m) - Ends(layers, p, m) / 2]
  }

  /** A middle size is a candidate exactly between two linear bounds. */
  lemma CandidateBounds(layers: nat, p: nat, m: nat)
    requires p >= 3
    ensures Candidate(layers, p, m) <==> m * (p - 2) + 2 <= layers && CeilDiv(layers, p) <= m
  {
    CeilDivIsLeast(layers, p, m);
    assert m * p == m * (p - 2) + 2 * m;
  }

  /** Larger candidates lie further from their ends. */
  lemma DiffIncreases(layers: nat, p: nat, m: nat, n: nat)
    requires p >= 3 && m < n
    ensures m - Ends(layers, p, m) / 2 < n - Ends(layers, p, n) / 2
  {
    assert n * (p - 2) == m * (p - 2) + (n - m) * (p - 2);
    assert (n - m) * (p - 2) >= 0;
  }

  lemma SmallerFits(layers: nat, p: nat, c: nat, m: nat)
    requires p >= 3 && c <= m && m * (p - 2) + 2 <= layers
    ensures m < layers && c * (p - 2) + 2 <= layers
  {
    MulMono(c, m, p - 2);
    MulMono(1, p - 2, m);
    assert (p - 2) * m == m * (p - 2);
  }

  /** The best candidate is the smallest, ceil(L/p), and there is one exactly when it fits. */
  lemma BestCandidate(layers: nat, p: nat, m: nat, c: nat)
    requires p >= 3 && c == CeilDiv(layers, p)
    ensures Candidate(layers, p, m) ==> c <= m < layers && Candidate(layers, p, c)
    ensures Candidate(layers, p, c) <==> c * (p - 2) + 2 <= layers
  {
    CandidateBounds(layers, p, m);
    CandidateBounds(layers, p, c);
    if Candidate(layers, p, m) {
      SmallerFits(layers, p, c, m);
    }
  }

  /** `get_dynamic_pipeline_shards`.  `sorted` is stable, so its first element is the first of
      least difference. */
  method GetDynamicPipelineShards(layers: int, p: int) returns (r: Result<seq<int>, ShardError>)
    ensures layers < p ==> r == Err(FewerLayersThanRanks)
    ensures layers >= p && p < 1 ==> r == Err(NoRank)
    ensures layers >= p == 1 ==> r == Ok([layers])
    ensures layers >= p == 2 ==> r == Ok([layers / 2, layers - layers / 2])
    ensures layers >= p >= 3 ==>
              r == if CeilDiv(layers, p) * (p - 2) + 2 <= layers
               then Ok(Shards(layers, p, CeilDiv(layers, p))) else Err(NoCandidate)
    ensures layers >= p >= 3 && r.Ok? ==> IsEven(r.value, layers, p, CeilDiv(layers, p))
  {
    if layers < p {
      return Err(FewerLayersThanRanks);
    }
    if p < 1 {
      return Err(NoRank);
    }
    if p == 1 {
      return Ok([layers]);
    }
    if p == 2 {
      return Ok([layers / 2, layers - layers / 2]);
    }
    var strategies := FindStrategies(layers, p);
    SearchFindsCeil(layers, p, strategies, CeilDiv(layers, p));
    if strategies == [] {
      return Err(NoCandidate);
    }
    var best := FirstOfLeastDiff(strategies);
    LeastDiffIsCeil(layers, p, strategies, best, CeilDiv(layers, p));
    ShardsAreEven(layers, p, CeilDiv(layers, p));
    r := Ok(strategies[best].0);
  }

  /** m layers for every rank between the two ends, and for these what is left: half of it for the
      first, and for the last the same or one more. */
  predicate IsEven(shards: seq<int>, layers: nat, p: nat, m: nat) {
    && p >= 3 && |shards| == p
    && (forall i :: 0 < i < p - 1 ==> shards[i] == m)
    && shards[0] + shards[p - 1] == layers - m * (p - 2)
    && shards[0] == (layers - m * (p - 2)) / 2
    && shards[0] <= shards[p - 1] <= shards[0] + 1
  }

  lemma ShardsAreEven(layers: nat, p: nat, m: nat)
    requires p >= 3
    ensures IsEven(Shards(layers, p, m), layers, p, m)
  {
  }

  ghost predicate AllCandidates(layers: nat, p: nat, strategies: seq<Strategy>)
    requires p >= 3
  {
    && (forall k :: 0 <= k < |strategies| ==> IsStrategy(layers, p, strategies[k]))
    && (forall m: nat :: m < layers && Candidate(layers, p, m) ==>
          exists k :: 0 <= k < |strategies| && strategies[k].2 == m)
  }

  lemma SearchFindsCeil(layers: nat, p: nat, strategies: seq<Strategy>, c: nat)
    requires p >= 3 && c == CeilDiv(layers, p) && AllCandidates(layers, p, strategies)
    ensures strategies != [] <==> c * (p - 2) + 2 <= layers
    ensures strategies != [] ==> exists k :: 0 <= k < |strategies| && strategies[k].2 == c
  {
    BestCandidate(layers, p, c, c);
    if strategies != [] {
      assert IsStrategy(layers, p, strategies[0]);
      BestCandidate(layers, p, strategies[0].2, c);
    }
  }

  lemma LeastDiffIsCeil(layers: nat, p: nat, strategies: seq<Strategy>, best: nat, c: nat)
    requires p >= 3 && c == CeilDiv(layers, p) && AllCandidates(layers, p, strategies) && best < |strategies|
    requires forall k :: 0 <= k < |strategies| ==> strategies[best].1 <= strategies[k].1
    ensures strategies[best].0 == Shards(layers, p, c)
  {
    SearchFindsCeil(layers, p, strategies, c);
    var k :| 0 <= k < |strategies| && strategies[k].2 == c;
    var m := strategies[best].2;
    assert IsStrategy(layers, p, strategies[best]) && IsStrategy(layers, p, strategies[k]);
    BestCandidate(layers, p, m, c);
    if c < m {
      DiffIncreases(layers, p, c, m);
    }
  }

  /** A candidate list: shards, difference, and (for the proof) the middle size. */
  type Strategy = (seq<int>, int, nat)

  ghost predicate IsStrategy(layers: nat, p: nat, s: Strategy)
    requires p >= 3
  {
    && Candidate(layers, p, s.2) && s.0 == Shards(layers, p, s.2) && IsEven(s.0, layers, p, s.2)
    && s.1 == s.2 - s.0[0]
  }

  /** The search loop. */
  method FindStrategies(layers: nat, p: nat) returns (strategies: seq<Strategy>)
    requires 3 <= p <= layers
    ensures AllCandidates(layers, p, strategies)
  {
    strategies := [];
    for m: nat := 0 to layers
      invariant forall k :: 0 <= k < |strategies| ==> IsStrategy(layers, p, strategies[k])
      invariant forall n: nat :: n < m && Candidate(layers, p, n) ==>
                                   exists k :: 0 <= k < |strategies| && strategies[k].2 == n
    {
      var firstLast := layers - m * (p - 2);
      var first, last := firstLast / 2, firstLast - firstLast / 2;
      if 0 < first <= m && 0 < last <= m {
        ghost var before := strategies;
        ShardsAreEven(layers, p, m);
        strategies := strategies +
          [([first] + Repeat(m, p - 2) + [last], if first >= m then first - m else m - first, m)];
        assert strategies[|before|].2 == m;
        assert forall k :: 0 <= k < |before| ==> strategies[k] == before[k];
      }
    }
  }

  /** `sorted(strategies, key=diff)[0]` */
  method FirstOfLeastDiff(strategies: seq<Strategy>) returns (best: nat)
    requires strategies != []
    ensures best < |strategies| && forall k :: 0 <= k < |strategies| ==> strategies[best].1 <= strategies[k].1
    ensures forall k :: 0 <= k < best ==> strategies[best].1 < strategies[k].1
  {
    best := 0;
    for i := 1 to |strategies|
      invariant best < i && forall k :: 0 <= k < i ==> strategies[best].1 <= strategies[k].1
      invariant forall k :: 0 <= k < best ==> strategies[best].1 < strategies[k].1
    {
      if strategies[i].1 < strategies[best].1 {
        best := i;
      }
    }
  }

  /** What a returned list is: one positive entry per rank, the ends not above the middle, summing
      to the number of layers. */
  lemma ShardsAreGood(layers: nat, p: nat)
    requires 3 <= p <= layers && CeilDiv(layers, p) * (p - 2) + 2 <= layers
    ensures var s := Shards(layers, p, CeilDiv(layers, p));
            && |s| == p && Sum(s) == layers
            && (forall i :: 0 <= i < p ==> 0 < s[i] <= CeilDiv(layers, p))
            && (forall i :: 0 < i < p - 1 ==> s[i] == CeilDiv(layers, p))
  {
    var m := CeilDiv(layers, p);
    BestCandidate(layers, p, m, m);
    var ends := Ends(layers, p, m);
    var first, last := [ends / 2], [ends - ends / 2];
    SumRepeat(m, p - 2);
    SumAppend(first, Repeat(m, p - 2));
    SumAppend(first + Repeat(m, p - 2), last);
    assert first[..0] == [] && last[..0] == [];
    assert Sum([]) == 0 && Sum(first) == ends / 2 && Sum(last) == ends - ends / 2;
  }

  /** Five layers on four ranks: the search finds nothing, although 1 + 2 + 1 + 1 layers would do. */
  lemma FiveLayersOnFourRanks()
    ensures !exists m: nat :: m < 5 && Candidate(5, 4, m)
    ensures Sum([1, 2, 1, 1]) == 5
  {
    assert [1, 2, 1, 1][..3] == [1, 2, 1] && [1, 2, 1][..2] == [1, 2] && [1, 2][..1] == [1] && [1][..0] == [];
    assert Sum([1]) == 1 && Sum([1, 2]) == 3 && Sum([1, 2, 1]) == 4;
  }

  // ------------------------------------------------------------------ ranges

  /** `np.cumsum(shards)[rank - 1]`, or 0 for rank 0. */
  function Start(shards: seq<int>, rank: nat): int
    requires rank <= |shards|
  {
    Sum(shards[..rank])
  }

  lemma StartStep(shards: seq<int>, rank: nat)
    requires rank < |shards|
    ensures Start(shards, rank + 1) == Start(shards, rank) + shards[rank]
  {
    assert shards[..rank + 1][..rank] == shards[..rank];
  }

  lemma {:induction false} StartMonotone(shards: seq<int>, a: nat, b: nat)
    requires a <= b <= |shards| && forall i :: 0 <= i < |shards| ==> shards[i] >= 0
    ensures Start(shards, a) <= Start(shards, b)
    decreases b - a
  {
    if a < b {
      StartMonotone(shards, a, b - 1);
      StartStep(shards, b - 1);
    }
  }

  /** Position `local` of rank's range. */
  predicate At(shards: seq<int>, rank: nat, local: nat, global: int) {
    rank < |shards| && local < shards[rank] && global == Start(shards, rank) + local
  }

  /** The ranges of the ranks partition 0 .. Sum(shards) - 1: every number has a place. */
  lemma {:induction false} RangesCover(shards: seq<int>, n: nat, global: nat) returns (rank: nat, local: nat)
    requires n <= |shards| && (forall i :: 0 <= i < |shards| ==> shards[i] >= 0) && global < Start(shards, n)
    ensures rank < n && At(shards, rank, local, global)
    decreases n
  {
    StartStep(shards, n - 1);
    if global >= Start(shards, n - 1) {
      rank, local := n - 1, global - Start(shards, n - 1);
    } else {
      rank, local := RangesCover(shards, n - 1, global);
    }
  }

  /** And only one, inside the range. */
  lemma RangesAreDisjoint(shards: seq<int>, rank: nat, local: nat, rank': nat, local': nat, global: int)
    requires forall i :: 0 <= i < |shards| ==> shards[i] >= 0
    requires At(shards, rank, local, global) && At(shards, rank', local', global)
    ensures rank == rank' && local == local' && 0 <= global < Start(shards, |shards|)
  {
    StartStep(shards, rank);
    StartStep(shards, rank');
    StartMonotone(shards, 0, rank);
    StartMonotone(shards, rank + 1, |shards|);
    if rank < rank' {
      StartMonotone(shards, rank + 1, rank');
    } else if rank' < rank {
      StartMonotone(shards, rank' + 1, rank);
    }
  }

  /** Earlier places come before later ones. */
  lemma PlacesInOrder(shards: seq<int>, rank: nat, local: nat, global: int, rank': nat, local': nat, global': int)
    requires forall i :: 0 <= i < |shards| ==> shards[i] >= 0
    requires At(shards, rank, local, global) && At(shards, rank', local', global')
    requires rank < rank' || (rank == rank' && local < local')
    ensures global < global'
  {
    if rank < rank' {
      StartStep(shards, rank);
      StartMonotone(shards, rank + 1, rank');
    }
  }

  lemma {:induction false} StartScales(shards: seq<int>, k: int, rank: nat)
    requires rank <= |shards|
    ensures Start(Scaled(shards, k), rank) == k * Start(shards, rank)
    decreases rank
  {
    if rank > 0 {
      StartScales(shards, k, rank - 1);
      StartStep(shards, rank - 1);
      StartStep(Scaled(shards, k), rank - 1);
      assert k * (Start(shards, rank - 1) + shards[rank - 1]) == k * Start(shards, rank - 1) + k * shards[rank - 1];
    }
  }

  function Scaled(shards: seq<int>, k: int): (r: seq<int>)
    ensures |r| == |shards| && forall i :: 0 <= i < |shards| ==> r[i] == k * shards[i]
  {
    seq(|shards|, i requires 0 <= i < |shards| => k * shards[i])
  }

  /** The number in the name of chunk i of a rank's file list, `save_idx + 1`. */
  function FileNumber(shards: seq<int>, savesPerLayer: nat, rank: nat, i: nat): int
    requires rank <= |shards|
  {
    Start(shards, rank) * savesPerLayer + i + 1
  }

  /** A file number is a place in the ranges of the scaled shards. */
  lemma FileNumberIsPlace(shards: seq<int>, savesPerLayer: nat, rank: nat, i: nat)
    requires rank < |shards| && i < savesPerLayer * shards[rank]
    ensures At(Scaled(shards, savesPerLayer), rank, i, FileNumber(shards, savesPerLayer, rank, i) - 1)
  {
    StartScales(shards, savesPerLayer, rank);
  }

  lemma ScaledIsNonNegative(shards: seq<int>, k: nat)
    requires forall i :: 0 <= i < |shards| ==> shards[i] >= 0
    ensures forall i :: 0 <= i < |shards| ==> Scaled(shards, k)[i] >= 0
    ensures Start(Scaled(shards, k), |shards|) == k * Sum(shards)
  {
    forall i | 0 <= i < |shards| ensures Scaled(shards, k)[i] >= 0 {
      MulMono(0, shards[i], k);
    }
    StartScales(shards, k, |shards|);
    assert shards[..|shards|] == shards;
  }

  /** Every number of 1 .. saves_total is the name of exactly one file of exactly one rank. */
  lemma FileNumbersPartition(shards: seq<int>, savesPerLayer: nat, number: int) returns (rank: nat, i: nat)
    requires forall i :: 0 <= i < |shards| ==> shards[i] >= 0
    requires 0 < savesPerLayer && 1 <= number <= savesPerLayer * Sum(shards)
    ensures rank < |shards| && i < savesPerLayer * shards[rank] && FileNumber(shards, savesPerLayer, rank, i) == number
    ensures forall rank': nat, i': nat ::
              rank' < |shards| && i' < savesPerLayer * shards[rank']
              && FileNumber(shards, savesPerLayer, rank', i') == number
              ==> rank' == rank && i' == i
  {
    var scaled := Scaled(shards, savesPerLayer);
    ScaledIsNonNegative(shards, savesPerLayer);
    rank, i := RangesCover(scaled, |shards|, number - 1);
    FileNumberIsPlace(shards, savesPerLayer, rank, i);
    forall rank': nat, i': nat | rank' < |shards| && i' < savesPerLayer * shards[rank']
                                 && FileNumber(shards, savesPerLayer, rank', i') == number
      ensures rank' == rank && i' == i
    {
      FileNumberIsPlace(shards, savesPerLayer, rank', i');
      RangesAreDisjoint(scaled, rank, i, rank', i', number - 1);
    }
  }

  /** The files of a rank are numbered in their order, and before those of the ranks after it. */
  lemma FileNumbersInOrder(shards: seq<int>, savesPerLayer: nat, rank: nat, i: nat, rank': nat, i': nat)
    requires forall i :: 0 <= i < |shards| ==> shards[i] >= 0
    requires rank < |shards| && i < savesPerLayer * shards[rank]
    requires rank' < |shards| && i' < savesPerLayer * shards[rank']
    requires rank < rank' || (rank == rank' && i < i')
    ensures FileNumber(shards, savesPerLayer, rank, i) < FileNumber(shards, savesPerLayer, rank', i')
  {
    ScaledIsNonNegative(shards, savesPerLayer);
    FileNumberIsPlace(shards, savesPerLayer, rank, i);
    FileNumberIsPlace(shards, savesPerLayer, rank', i');
    PlacesInOrder(Scaled(shards, savesPerLayer), rank, i, FileNumber(shards, savesPerLayer, rank, i) - 1,
                  rank', i', FileNumber(shards, savesPerLayer, rank', i') - 1);
  }

  /** Every number of the chunk has been moved up by `offset`. */
  predicate Renumbered(chunk: seq<nat>, local: seq<nat>, offset: int) {
    |chunk| == |local| && forall k :: 0 <= k < |local| ==> chunk[k] == offset + local[k]
  }

  /** The loop over the keys of one chunk. */
  method RenumberChunk(local: seq<nat>, layersCum: nat) returns (chunk: seq<nat>, layersHandled: nat)
    ensures Renumbered(chunk, local, layersCum)
    ensures layersHandled == MaxOf(local)
  {
    layersHandled, chunk := 0, [];
    for k := 0 to |local|
      invariant layersHandled == MaxOf(local[..k])
      invariant |chunk| == k && forall j :: 0 <= j < k ==> chunk[j] == layersCum + local[j]
    {
      assert local[..k + 1][..k] == local[..k];
      if layersHandled < local[k] {
        layersHandled := local[k];
      }
      chunk := chunk + [layersCum + local[k]];
    }
    assert local[..|local|] == local;
  }

  /** The renumbering loop of `_merge_state_dicts` over the pipeline chunks: `locals[c]` are the layer
      numbers of the keys of chunk c, and `globals[c]` what they become. */
  method RenumberLayers(locals: seq<seq<nat>>, start: nat) returns (globals: seq<seq<nat>>, layersCum: nat)
    ensures |globals| == |locals| && layersCum == start + Sum(Handled(locals))
    ensures forall c :: 0 <= c < |locals| ==> Renumbered(globals[c], locals[c], start + Start(Handled(locals), c))
  {
    globals, layersCum := [], start;
    for c := 0 to |locals|
      invariant |globals| == c && layersCum == start + Start(Handled(locals), c)
      invariant forall d :: 0 <= d < c ==> Renumbered(globals[d], locals[d], start + Start(Handled(locals), d))
    {
      var chunk, layersHandled := RenumberChunk(locals[c], layersCum);
      StartStep(Handled(locals), c);
      globals := globals + [chunk];
      layersCum := layersCum + layersHandled + 1;
    }
    assert Handled(locals)[..|locals|] == Handled(locals);
  }

  function MaxOf(s: seq<nat>): nat {
    if s == [] then 0
    else if MaxOf(s[..|s| - 1]) < s[|s| - 1] then s[|s| - 1] else MaxOf(s[..|s| - 1])
  }

  /** How many layers each chunk is taken to have: its largest local number plus one. */
  function Handled(locals: seq<seq<nat>>): (r: seq<int>)
    ensures |r| == |locals| && forall c :: 0 <= c < |locals| ==> r[c] == MaxOf(locals[c]) + 1
  {
    seq(|locals|, c requires 0 <= c < |locals| => MaxOf(locals[c]) + 1)
  }

  lemma {:induction false} MaxOfIsMax(s: seq<nat>, n: nat)
    requires n in s && forall k :: 0 <= k < |s| ==> s[k] <= n
    ensures MaxOf(s) == n
    decreases |s|
  {
    var rest := s[..|s| - 1];
    if n in rest {
      MaxOfIsMax(rest, n);
    } else {
      MaxBelow(rest, n);
    }
  }

  lemma {:induction false} MaxBelow(s: seq<nat>, n: nat)
    requires forall k :: 0 <= k < |s| ==> s[k] < n
    ensures MaxOf(s) < n || s == []
    decreases |s|
  {
    if s != [] {
      MaxBelow(s[..|s| - 1], n);
    }
  }

  /** If chunk c holds keys of exactly the layers 0 .. shards[c]-1, the renumbering puts local layer
      l of chunk c at its place in the ranges, so the merged model has layers 0 .. Sum(shards)-1. */
  lemma RenumberingFollowsRanges(locals: seq<seq<nat>>, shards: seq<int>, c: nat, l: nat)
    requires |locals| == |shards| && c < |shards|
    requires forall d :: 0 <= d < |shards| ==> 0 < shards[d] && forall n: nat :: n in locals[d] <==> n < shards[d]
    requires l in locals[c]
    ensures Handled(locals) == shards && At(shards, c, l, Start(Handled(locals), c) + l)
  {
    forall d | 0 <= d < |shards| ensures Handled(locals)[d] == shards[d] {
      var n: nat := shards[d] - 1;
      assert n in locals[d];
      forall k | 0 <= k < |locals[d]| ensures locals[d][k] <= n {
        assert locals[d][k] in locals[d];
      }
      MaxOfIsMax(locals[d], n);
    }
  }

  // --------------------------------------------------- renumbering over all ranks

  /** The chunks of one rank: each holds keys of the layers 0, 1, ... up to its last, and together
      they have as many layers as the rank's share. */
  ghost predicate HoldsLayers(locals: seq<seq<nat>>, layers: int) {
    && Sum(Handled(locals)) == layers
    && forall c, n: nat :: 0 <= c < |locals| ==> (n in locals[c] <==> n < Handled(locals)[c])
  }

  /** Every rank holds its share of the layers; `parts[r]` are the chunks of rank r. */
  ghost predicate HoldShares(parts: seq<seq<seq<nat>>>, shards: seq<int>) {
    |parts| == |shards| && forall r :: 0 <= r < |parts| ==> HoldsLayers(parts[r], shards[r])
  }

  /** Local layer l of chunk c of a rank. */
  predicate InPart(parts: seq<seq<seq<nat>>>, rank: nat, c: nat, l: nat) {
    rank < |parts| && c < |parts[rank]| && l in parts[rank][c]
  }

  /** What the rank's loop, started at the rank's offset, renumbers it to. */
  function GlobalLayer(parts: seq<seq<seq<nat>>>, shards: seq<int>, rank: nat, c: nat, l: nat): int
    requires |parts| == |shards| && InPart(parts, rank, c, l)
  {
    Start(shards, rank) + Start(Handled(parts[rank]), c) + l
  }

  lemma WholeStart(s: seq<int>)
    ensures Start(s, |s|) == Sum(s)
  {
    assert s[..|s|] == s;
  }

  lemma SharesArePositive(parts: seq<seq<seq<nat>>>, shards: seq<int>)
    requires HoldShares(parts, shards)
    ensures forall r :: 0 <= r < |shards| ==> shards[r] >= 0
  {
    forall r | 0 <= r < |shards| ensures shards[r] >= 0 {
      var sizes := Handled(parts[r]);
      assert HoldsLayers(parts[r], shards[r]);
      WholeStart(sizes);
      StartMonotone(sizes, 0, |sizes|);
      assert sizes[..0] == [];
    }
  }

  /** A layer of a rank has a place in the rank's share, and the rank in the ranges. */
  lemma PlaceOfLayer(parts: seq<seq<seq<nat>>>, shards: seq<int>, rank: nat, c: nat, l: nat) returns (local: nat)
    requires HoldShares(parts, shards) && InPart(parts, rank, c, l)
    ensures At(Handled(parts[rank]), c, l, local) && At(shards, rank, local, GlobalLayer(parts, shards, rank, c, l))
  {
    var sizes := Handled(parts[rank]);
    assert HoldsLayers(parts[rank], shards[rank]);
    StartMonotone(sizes, 0, c);
    assert sizes[..0] == [];
    local := Start(sizes, c) + l;
    StartStep(sizes, c);
    StartMonotone(sizes, c + 1, |sizes|);
    WholeStart(sizes);
  }

  /** Over all ranks the renumbered layers are exactly 0 .. Sum(shards) - 1, once each. */
  lemma RenumberedLayersPartition(parts: seq<seq<seq<nat>>>, shards: seq<int>, global: nat)
    returns (rank: nat, c: nat, l: nat)
    requires HoldShares(parts, shards) && global < Sum(shards)
    ensures InPart(parts, rank, c, l) && GlobalLayer(parts, shards, rank, c, l) == global
    ensures forall rank': nat, c': nat, l': nat ::
              InPart(parts, rank', c', l') && GlobalLayer(parts, shards, rank', c', l') == global
              ==> (rank', c', l') == (rank, c, l)
  {
    SharesArePositive(parts, shards);
    WholeStart(shards);
    var local;
    rank, local := RangesCover(shards, |shards|, global);
    var sizes := Handled(parts[rank]);
    assert HoldsLayers(parts[rank], shards[rank]);
    WholeStart(sizes);
    c, l := RangesCover(sizes, |sizes|, local);
    forall rank': nat, c': nat, l': nat
      | InPart(parts, rank', c', l') && GlobalLayer(parts, shards, rank', c', l') == global
      ensures (rank', c', l') == (rank, c, l)
    {
      var local' := PlaceOfLayer(parts, shards, rank', c', l');
      RangesAreDisjoint(shards, rank, local, rank', local', global);
      RangesAreDisjoint(sizes, c, l, c', l', local);
    }
  }

  /** And in order: by rank, then by chunk, then by local number. */
  lemma RenumberedLayersInOrder(parts: seq<seq<seq<nat>>>, shards: seq<int>, rank: nat, c: nat, l: nat,
                                rank': nat, c': nat, l': nat)
    requires HoldShares(parts, shards) && InPart(parts, rank, c, l) && InPart(parts, rank', c', l')
    requires rank < rank' || (rank == rank' && (c < c' || (c == c' && l < l')))
    ensures GlobalLayer(parts, shards, rank, c, l) < GlobalLayer(parts, shards, rank', c', l')
  {
    SharesArePositive(parts, shards);
    var local := PlaceOfLayer(parts, shards, rank, c, l);
    var local' := PlaceOfLayer(parts, shards, rank', c', l');
    if rank == rank' {
      PlacesInOrder(Handled(parts[rank]), c, l, local, c', l', local');
    }
    PlacesInOrder(shards, rank, local, GlobalLayer(parts, shards, rank, c, l),
                  rank', local', GlobalLayer(parts, shards, rank', c', l'));
  }

  lemma RenumberedLayersAreInRange(parts: seq<seq<seq<nat>>>, shards: seq<int>, rank: nat, c: nat, l: nat)
    requires HoldShares(parts, shards) && InPart(parts, rank, c, l)
    ensures 0 <= GlobalLayer(parts, shards, rank, c, l) < Sum(shards)
  {
    SharesArePositive(parts, shards);
    WholeStart(shards);
    var local := PlaceOfLayer(parts, shards, rank, c, l);
    RangesAreDisjoint(shards, rank, local, rank, local, GlobalLayer(parts, shards, rank, c, l));
  }
}
