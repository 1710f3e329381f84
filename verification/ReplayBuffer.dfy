/** The replay buffer: partitions of key -> tags that a poll thread fills and a sampler reads
    (verl/verl/trainer/main_ppo_sync.py).  The order of a dictionary's keys is not modelled. */
module ReplayBuffer {
  import opened Prelude

  datatype Status = Running | Finished | Failure | Success

  /** A tag dictionary; None for a key it does not have.  `lengths` are prompt_len and response_len,
      which are put together with their sum, seq_len. */
  datatype Tags = Tags(globalSteps: Option<nat>, status: Option<Status>, lengths: Option<(nat, nat)>)

  const NO_TAGS := Tags(None, None, None)

  /** `tags.update(other)` */
  function Update(tags: Tags, other: Tags): Tags {
    Tags(if other.globalSteps.Some? then other.globalSteps else tags.globalSteps,
         if other.status.Some? then other.status else tags.status,
         if other.lengths.Some? then other.lengths else tags.lengths)
  }

  /** Merging an empty dictionary changes nothing, merging into one copies, what is merged last
      stands, and merging twice is merging once. */
  lemma UpdateLaws(a: Tags, b: Tags, c: Tags)
    ensures Update(a, NO_TAGS) == a && Update(NO_TAGS, b) == b
    ensures Update(Update(a, b), c) == Update(a, Update(b, c))
    ensures Update(Update(a, b), b) == Update(a, b)
    ensures Update(a, b).lengths == (if b.lengths == None then a else b).lengths
    ensures b.globalSteps.Some? && b.status.Some? && b.lengths.Some? ==> Update(a, b) == b
  {
  }

  type Partition = map<string, Tags>

  function TagsOf(p: Partition, key: string): Tags {
    if key in p then p[key] else NO_TAGS
  }

  /** A partition with items merged in. */
  function AddItems(p: Partition, items: Partition): (r: Partition)
    ensures forall key :: key in r <==> key in p || key in items
    ensures forall key :: key in p && key !in items ==> r[key] == p[key]
    ensures forall key :: key in items ==> r[key] == Update(TagsOf(p, key), items[key])
  {
    map key | key in p.Keys + items.Keys :: Update(TagsOf(p, key), TagsOf(items, key))
  }

  /** Every entry has the two tags that sampling reads. */
  predicate Complete(p: Partition) {
    forall key :: key in p ==> p[key].globalSteps.Some? && p[key].status.Some?
  }

  /** Something of the step is still running. */
  predicate MustWait(p: Partition, step: Option<nat>) {
    exists key :: key in p && p[key].globalSteps == step && p[key].status == Some(Running)
  }

  predicate InBatch(p: Partition, step: Option<nat>, key: string) {
    key in p && p[key].globalSteps == step && p[key].status == Some(Success)
  }

  datatype KVBatchMeta = KVBatchMeta(keys: seq<string>, tags: seq<Tags>)

  /** Every successful key of the step, once, with its tags. */
  ghost predicate IsBatch(p: Partition, step: Option<nat>, batch: KVBatchMeta) {
    && (forall key :: key in batch.keys <==> InBatch(p, step, key))
    && (forall i, j :: 0 <= i < j < |batch.keys| ==> batch.keys[i] != batch.keys[j])
    && |batch.tags| == |batch.keys|
    && forall i :: 0 <= i < |batch.keys| ==> batch.keys[i] in p && batch.tags[i] == p[batch.keys[i]]
  }

  /** A partition with all items but those of `todo` merged in. */
  function MergedSoFar(p: Partition, items: Partition, todo: set<string>): Partition {
    map key | key in p.Keys + (items.Keys - todo) ::
      if key in items && key !in todo then Update(TagsOf(p, key), items[key]) else TagsOf(p, key)
  }

  lemma MergeOne(p: Partition, items: Partition, todo: set<string>, key: string)
    requires key in todo && key in items
    ensures TagsOf(MergedSoFar(p, items, todo), key) == TagsOf(p, key)
    ensures MergedSoFar(p, items, todo - {key})
         == MergedSoFar(p, items, todo)[key := Update(TagsOf(p, key), items[key])]
  {
  }

  lemma MergeEnds(p: Partition, items: Partition)
    ensures MergedSoFar(p, items, items.Keys) == p
    ensures MergedSoFar(p, items, {}) == AddItems(p, items)
  {
  }

  /** The loop of `add`; an absent key starts as an empty dictionary. */
  method Merge(before: Partition, items: Partition) returns (partition: Partition)
    ensures partition == AddItems(before, items)
  {
    MergeEnds(before, items);
    partition := before;
    var todo := items.Keys;
    while todo != {}
      invariant todo <= items.Keys && partition == MergedSoFar(before, items, todo)
      decreases |todo|
    {
      var key :| key in todo;
      MergeOne(before, items, todo, key);
      partition := partition[key := Update(TagsOf(partition, key), items[key])];
      todo := todo - {key};
    }
  }

  datatype SampleError = BadArguments | MissingTag

  class ReplayBuffer {
    var partitions: map<string, Partition>

    constructor ()
      ensures partitions == map[]
    {
      partitions := map[];
    }

    ghost function PartitionOf(id: string): Partition
      reads this
    {
      if id in partitions then partitions[id] else map[]
    }

    method Add(partitionId: string, items: Partition)
      modifies this
      ensures partitions == old(partitions)[partitionId := AddItems(old(PartitionOf(partitionId)), items)]
    {
      var partition := if partitionId in partitions then partitions[partitionId] else map[];
      partition := Merge(partition, items);
      partitions := partitions[partitionId := partition];
    }

    /** One round of the loop of `sample`, under the lock; None when it goes back to sleep. */
    method TrySample(partitionId: string, globalSteps: Option<nat>, batchSize: Option<nat>)
      returns (r: Result<Option<KVBatchMeta>, SampleError>)
      modifies this
      ensures (globalSteps.Some? <==> batchSize.Some? && batchSize.value != 0) ==> r == Err(BadArguments)
      ensures var p := old(PartitionOf(partitionId));
              Complete(p) && (globalSteps.Some? <==> batchSize.None? || batchSize.value == 0) ==>
                r.Ok? && (if MustWait(p, globalSteps) then r.value == None
                          else r.value.Some? && IsBatch(p, globalSteps, r.value.value))
      ensures r == Err(MissingTag) ==> !Complete(old(PartitionOf(partitionId)))
      ensures forall id :: PartitionOf(id) == old(PartitionOf(id))
    {
      if globalSteps.Some? == (batchSize.Some? && batchSize.value != 0) {
        return Err(BadArguments);
      }
      if partitionId !in partitions {
        partitions := partitions[partitionId := map[]];
      }
      var partition := partitions[partitionId];
      var keys: seq<string>, tags: seq<Tags> := [], [];
      var todo := partition.Keys;
      while todo != {}
        invariant todo <= partition.Keys
        invariant forall key :: key in partition && key !in todo ==>
                    partition[key].globalSteps != globalSteps || partition[key].status != Some(Running)
        invariant forall key :: key in keys <==> key !in todo && InBatch(partition, globalSteps, key)
        invariant forall i, j :: 0 <= i < j < |keys| ==> keys[i] != keys[j]
        invariant |tags| == |keys| &&
          forall i :: 0 <= i < |keys| ==> keys[i] in partition && tags[i] == partition[keys[i]]
        decreases |todo|
      {
        var key :| key in todo;
        var tag := partition[key];
        if tag.globalSteps.None? {
          return Err(MissingTag);
        }
        if tag.globalSteps == globalSteps {
          if tag.status.None? {
            return Err(MissingTag);
          } else if tag.status.value == Running {
            return Ok(None);
          } else if tag.status.value == Success {
            keys := keys + [key];
            tags := tags + [tag];
          }
        }
        todo := todo - {key};
      }
      r := Ok(Some(KVBatchMeta(keys, tags)));
    }
  }

  /** Asked for a batch size instead of a step, sampling matches no entry: it returns at once, with
      an empty batch. */
  lemma BatchSizeModeIsEmpty(p: Partition, batch: KVBatchMeta)
    requires Complete(p)
    ensures !MustWait(p, None)
    ensures IsBatch(p, None, batch) <==> batch == KVBatchMeta([], [])
  {
    assert batch.keys != [] ==> batch.keys[0] in batch.keys;
  }
}
