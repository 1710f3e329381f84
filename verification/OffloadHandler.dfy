/** AsyncDoubleBufferGroupOffloadHandler as the object it is: fields that its methods update
    (verl/verl/utils/activation_offload.py).  Every method is proved to do to the fields what the
    functions of OffloadModel do to a handler value.  A returned fault stands for a raised
    exception; what the fields hold after one is not specified. */
module OffloadHandler {
  import opened Prelude
  import opened OffloadWindow
  import opened OffloadModel
  import opened OffloadTransparency

  /** What `tensor_push` returns: a tag, or the tensor itself when it is not to be offloaded. */
  datatype Handle = Tagged(tag: Tag) | Kept(tensor: Tensor)

  class AsyncDoubleBufferGroupOffloadHandler {
    const numOffloadGroup: nat
    const numLayers: nat
    const layerWindowMap: map<int, int>
    const tensorNeedOffloadingChecker: Tensor -> bool
    var tensorTagToState: seq<Entry>
    var tensorTagToBuf: map<Tag, Option<Tensor>>
    var groupOffloadMapping: map<nat, map<nat, Tensor>>
    var currentGroup: nat
    var tensorCountCurrentGroup: nat
    var offloadedGroupCount: nat

    /** The window map is the one `__init__` computes. */
    ghost predicate Valid() {
      && (forall i :: i in layerWindowMap <==> 0 <= i < numOffloadGroup)
      && forall i :: i in layerWindowMap ==> layerWindowMap[i] == Window(numOffloadGroup, numLayers, i)
    }

    ghost function Model(): Handler
      reads this
    {
      Handler(numOffloadGroup, numLayers, tensorTagToState, tensorTagToBuf, groupOffloadMapping,
              currentGroup, tensorCountCurrentGroup, offloadedGroupCount)
    }

    constructor (numOffloadGroup: nat, numModelGroup: nat, checker: Tensor -> bool)
      ensures Valid() && Model() == Init(numOffloadGroup, numModelGroup) && tensorNeedOffloadingChecker == checker
    {
      var windows := BuildWindowMap(numOffloadGroup, numModelGroup);
      this.numOffloadGroup := numOffloadGroup;
      numLayers := numModelGroup;
      layerWindowMap := windows;
      tensorNeedOffloadingChecker := checker;
      tensorTagToState := [];
      tensorTagToBuf := map[];
      groupOffloadMapping := map[];
      currentGroup := 0;
      tensorCountCurrentGroup := 0;
      offloadedGroupCount := 0;
    }

    /** `stray` stands for a fake or functional tensor. */
    method TensorPush(tensor: Tensor, stray: bool) returns (r: Result<Handle, Fault>)
      requires Valid()
      modifies this
      ensures stray || !tensorNeedOffloadingChecker(tensor) ==> r == Ok(Kept(tensor)) && Model() == old(Model())
      ensures !stray && tensorNeedOffloadingChecker(tensor) ==>
                match Push(old(Model()), tensor)
                case Err(f) => r == Err(f)
                case Ok((h, tag)) => r == Ok(Tagged(tag)) && Model() == h
    {
      if stray || !tensorNeedOffloadingChecker(tensor) {
        return Ok(Kept(tensor));
      }
      var tag := Tag(currentGroup, tensorCountCurrentGroup);
      tensorCountCurrentGroup := tensorCountCurrentGroup + 1;
      if HasTag(tensorTagToState, tag) {
        return Err(TagTaken);
      }
      tensorTagToState := tensorTagToState + [Entry(tag, OnDevice(tensor))];
      if currentGroup < numOffloadGroup {
        tensorTagToBuf := tensorTagToBuf[tag := Some(tensor)];
      }
      r := Ok(Tagged(tag));
    }

    method TensorPop(handle: Handle) returns (r: Result<Tensor, Fault>)
      requires Valid()
      modifies this
      ensures handle.Kept? ==> r == Ok(handle.tensor) && Model() == old(Model())
      ensures handle.Tagged? ==>
                match Pop(old(Model()), handle.tag)
                case Err(f) => r == Err(f)
                case Ok((h, t)) => r == Ok(t) && Model() == h
    {
      match handle
      case Kept(tensor) => r := Ok(tensor);
      case Tagged(tag) =>
        var i := Find(tensorTagToState, tag);
        if i == |tensorTagToState| {
          return Err(UnknownTag);
        }
        var state := tensorTagToState[i].saved;
        tensorTagToState := tensorTagToState[..i] + tensorTagToState[i + 1..];
        tensorTagToBuf := tensorTagToBuf - {tag};
        r := if state.OnDevice? then Ok(state.tensor) else Err(StillOffloaded);
    }

    /** The copies to the host leave the contents as they are. */
    method BulkOffloadGroup(group: nat) returns (r: Result<(), Fault>)
      requires Valid()
      modifies `tensorTagToState, `groupOffloadMapping
      ensures r == match BulkOffload(old(Model()), group) case Err(f) => Err(f) case Ok(_) => Ok(())
      ensures r.Ok? ==> Model() == BulkOffload(old(Model()), group).value
    {
      ghost var es := tensorTagToState;
      var offloadMapping: map<nat, Tensor> := map[];
      for i := 0 to |tensorTagToState|
        invariant |tensorTagToState| == |es| && groupOffloadMapping == old(groupOffloadMapping)
        invariant forall k :: 0 <= k < i ==> tensorTagToState[k] == OffloadEntry(es[k], group)
        invariant forall k :: 0 <= k < i && es[k].tag.group == group ==> es[k].saved.OnDevice?
        invariant forall k :: i <= k < |es| ==> tensorTagToState[k] == es[k]
        invariant offloadMapping == Copies(es, group, i)
      {
        var e := tensorTagToState[i];
        if e.tag.group == group {
          if e.saved.Offloaded? {
            return Err(AlreadyOffloaded);
          }
          var key := e.saved.tensor.key;
          if key !in offloadMapping {
            offloadMapping := offloadMapping[key := e.saved.tensor];
          }
          tensorTagToState := tensorTagToState[i := Entry(e.tag, Offloaded(key, e.saved.tensor.shape))];
        }
      }
      groupOffloadMapping := groupOffloadMapping[group := offloadMapping];
      assert tensorTagToState == OffloadEntries(es, group);
      r := Ok(());
    }

    /** The copies back leave the contents as they are; a view of another size raises. */
    method BulkReloadGroup(group: nat) returns (r: Result<(), Fault>)
      requires Valid()
      modifies `tensorTagToState, `groupOffloadMapping
      ensures r.Ok? <==> BulkReload(old(Model()), group).Ok?
      ensures r.Ok? ==> Model() == BulkReload(old(Model()), group).value
    {
      if group >= numOffloadGroup {
        return Err(NoSuchGroup);
      }
      if group !in groupOffloadMapping {
        return Err(NoSuchMapping);
      }
      ghost var es := tensorTagToState;
      var offloadMapping := groupOffloadMapping[group];
      groupOffloadMapping := groupOffloadMapping - {group};
      for i := 0 to |tensorTagToState|
        invariant |tensorTagToState| == |es| && groupOffloadMapping == old(groupOffloadMapping) - {group}
        invariant forall k :: 0 <= k < i ==> tensorTagToState[k] == ReloadEntry(es[k], group, offloadMapping)
        invariant forall k :: 0 <= k < i && es[k].tag.group == group && es[k].saved.Offloaded? ==>
                    es[k].saved.key in offloadMapping
                    && |offloadMapping[es[k].saved.key].data| == Numel(es[k].saved.shape)
        invariant forall k :: i <= k < |es| ==> tensorTagToState[k] == es[k]
      {
        var e := tensorTagToState[i];
        if e.tag.group == group && e.saved.Offloaded? {
          var key, shape := e.saved.key, e.saved.shape;
          if key !in offloadMapping {
            return Err(NoSuchKey);
          }
          if |offloadMapping[key].data| != Numel(shape) {
            return Err(BadView);
          }
          tensorTagToState :=
            tensorTagToState[i := Entry(e.tag, OnDevice(Tensor(key, shape, offloadMapping[key].data)))];
        }
      }
      assert tensorTagToState == ReloadEntries(es, group, offloadMapping);
      r := Ok(());
    }

    /** Drops the device copies of one group. */
    method FreeGroup(group: nat)
      requires Valid()
      modifies `tensorTagToBuf
      ensures tensorTagToBuf == FreeBufs(old(tensorTagToBuf), group)
    {
      var todo := tensorTagToBuf.Keys;
      while todo != {}
        invariant todo <= tensorTagToBuf.Keys == old(tensorTagToBuf.Keys)
        invariant forall tag :: tag in tensorTagToBuf ==>
                    tensorTagToBuf[tag] == if tag.group == group && tag !in todo then None else old(tensorTagToBuf)[tag]
        decreases |todo|
      {
        var tag :| tag in todo;
        if tag.group == group {
          tensorTagToBuf := tensorTagToBuf[tag := None];
        }
        todo := todo - {tag};
      }
    }

    method SynchronizeOnGroupCommitForward() returns (r: Result<(), Fault>)
      requires Valid()
      modifies this
      ensures var h := old(Model());
              var first := if h.current == 0 then BulkOffload(h, 0) else Ok(h);
              if first.Err? then r == Err(first.error)
              else match AtForwardWindow(first.value)
                   case Err(f) => r == Err(f)
                   case Ok(h') => r == Ok(()) && Model() == h'
    {
      if currentGroup == 0 {
        r := BulkOffloadGroup(0);
        if r.Err? {
          return;
        }
      }
      if offloadedGroupCount !in layerWindowMap {
        return Err(NoSuchWindow);
      }
      if layerWindowMap[offloadedGroupCount] == currentGroup {
        FreeGroup(offloadedGroupCount);
        if offloadedGroupCount < numOffloadGroup - 1 {
          r := BulkOffloadGroup(offloadedGroupCount + 1);
          if r.Err? {
            return;
          }
        }
        offloadedGroupCount := offloadedGroupCount + 1;
      }
      r := Ok(());
    }

    method OnGroupCommitForward() returns (r: Result<(), Fault>)
      requires Valid()
      modifies this
      ensures r == match CommitForward(old(Model())) case Err(f) => Err(f) case Ok(_) => Ok(())
      ensures r.Ok? ==> Model() == CommitForward(old(Model())).value
    {
      r := SynchronizeOnGroupCommitForward();
      if r.Ok? {
        currentGroup := currentGroup + 1;
        tensorCountCurrentGroup := 0;
      }
    }

    method OnGroupCommitBackward() returns (r: Result<(), Fault>)
      requires Valid()
      modifies this
      ensures r.Ok? <==> CommitBackward(old(Model())).Ok?
      ensures r.Ok? ==> Model() == CommitBackward(old(Model())).value
    {
      if currentGroup == 0 {
        return Err(NegativeGroup);
      }
      currentGroup := currentGroup - 1;
      if offloadedGroupCount - 1 !in layerWindowMap {
        return Err(NoSuchWindow);
      }
      if layerWindowMap[offloadedGroupCount - 1] == currentGroup {
        r := BulkReloadGroup(offloadedGroupCount - 1);
        if r.Err? {
          return;
        }
        if offloadedGroupCount > 1 {
          offloadedGroupCount := offloadedGroupCount - 1;
        }
      }
      if currentGroup == 0 {
        offloadedGroupCount := 0;
      }
      r := Ok(());
    }
  }

  /** A training run drives the object: every call succeeds and every answer is the one of the
      plain map from tags to tensors. */
  method Train(groups: nat, layers: nat, es: seq<Event>) returns (outs: seq<Output>)
    requires 0 < groups <= layers && LegalRun(Plain(layers, false, 0, 0, map[]), es)
    ensures SameOutputs(outs, PlainRun(Plain(layers, false, 0, 0, map[]), es).1)
  {
    OffloadIsTransparent(groups, layers, es);
    var handler := new AsyncDoubleBufferGroupOffloadHandler(groups, layers, (t: Tensor) => true);
    outs := [];
    ghost var run := HandlerRun(handler.Model(), es).value.1;
    for i := 0 to |es|
      invariant fresh(handler) && handler.Valid() && (forall t :: handler.tensorNeedOffloadingChecker(t))
      invariant HandlerRun(handler.Model(), es[i..]).Ok?
      invariant outs + HandlerRun(handler.Model(), es[i..]).value.1 == run
    {
      ghost var h := handler.Model();
      assert es[i..][0] == es[i] && es[i..][1..] == es[i + 1..];
      ghost var expected := HandlerStep(h, es[i]).value;
      ghost var rest := HandlerRun(expected.0, es[i + 1..]).value.1;
      assert outs + ([expected.1] + rest) == (outs + [expected.1]) + rest;
      match es[i]
      case PushTensor(t) =>
        var r := handler.TensorPush(t, false);
        outs := outs + [GotTag(r.value.tag)];
      case ForwardCommit =>
        var r := handler.OnGroupCommitForward();
        outs := outs + [Nothing];
      case BackwardCommit =>
        var r := handler.OnGroupCommitBackward();
        outs := outs + [Nothing];
      case PopTensor(tag) =>
        var r := handler.TensorPop(Tagged(tag));
        outs := outs + [GotTensor(r.value)];
    }
  }
}
