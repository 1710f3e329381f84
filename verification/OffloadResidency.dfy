/** What the offload handler keeps on the device, and the exact conditions behind its two
    promises: that a group is really offloaded, and that its values survive
    (verl/verl/utils/activation_offload.py). */
module OffloadResidency {
  import opened Prelude
  import opened OffloadWindow
  import opened OffloadModel
  import opened OffloadTransparency

  // --------------------------------------- when is a group really offloaded?

  /** The groups up to k are offloaded, but with as many groups as layers every group except
      the first is offloaded before its layer has pushed anything. */
  predicate TuplesUpTo(es: seq<Entry>, k: int, groups: nat, layers: nat) {
    forall i :: 0 <= i < |es| ==>
                  (es[i].saved.Offloaded? <==>
                   es[i].tag.group <= k && es[i].tag.group < groups && (es[i].tag.group == 0 || groups < layers))
  }

  /** In the forward pass a tensor is a tuple exactly when its group has been offloaded. */
  predicate OffloadedExactly(h: Handler) {
    TuplesUpTo(h.entries, if h.current == 0 then -1 else h.offloaded, h.groups, h.layers)
  }

  lemma OffloadOneMore(es: seq<Entry>, g: nat, groups: nat, layers: nat)
    requires TuplesUpTo(es, g - 1, groups, layers) && g < groups && OnDeviceIn(es, g)
    requires g == 0 || groups < layers || forall i :: 0 <= i < |es| ==> es[i].tag.group != g
    ensures TuplesUpTo(OffloadEntries(es, g), g, groups, layers)
  {
    var es' := OffloadEntries(es, g);
    forall i | 0 <= i < |es'|
      ensures es'[i].saved.Offloaded? <==>
              es'[i].tag.group <= g && es'[i].tag.group < groups && (es'[i].tag.group == 0 || groups < layers)
    {
      assert es'[i] == OffloadEntry(es[i], g);
    }
  }

  lemma PushKeepsExactly(h: Handler, p: Plain, t: Tensor)
    requires Rel(h, p) && !p.back && Legal(p, PushTensor(t)) && OffloadedExactly(h) && Push(h, t).Ok?
    ensures OffloadedExactly(Push(h, t).value.0)
  {
    if h.groups < h.layers && h.offloaded > 0 {
      WindowAfterNextLayer(h.groups, h.layers, h.offloaded - 1);
    }
    var es, es' := h.entries, Push(h, t).value.0.entries;
    forall i | 0 <= i < |es'| ensures i < |es| ==> es'[i] == es[i] {
    }
  }

  /** With as many groups as layers, the next group to offload has no tensors yet. */
  lemma NextGroupIsEmpty(h: Handler, p: Plain, es: seq<Entry>)
    requires 0 < h.groups == h.layers && h.current == p.current && !p.back && TagsInOrder(p)
    requires h.offloaded < h.groups - 1 && AtWindow(h) && SameTags(es, p.saved)
    ensures forall i :: 0 <= i < |es| ==> es[i].tag.group != h.offloaded + 1
  {
    WindowAfterNextLayer(h.groups, h.layers, h.offloaded);
    forall i | 0 <= i < |es| ensures es[i].tag.group != h.offloaded + 1 {
      assert es[i].tag in p.saved;
    }
  }

  lemma KickstartKeepsExactly(h: Handler, p: Plain)
    requires 0 < h.groups <= h.layers && !p.back && Schedule(h, p) && OffloadedExactly(h)
    requires h.current == 0 ==> OnDeviceIn(h.entries, 0)
    ensures TuplesUpTo(Kickstart(h).entries, h.offloaded, h.groups, h.layers)
  {
    if h.offloaded > 0 {
      WindowAfterOwnLayer(h.groups, h.layers, h.offloaded - 1);
    }
    if h.current == 0 {
      OffloadOneMore(h.entries, 0, h.groups, h.layers);
    }
  }

  lemma WindowKeepsExactly(h: Handler)
    requires h.offloaded < h.groups && TuplesUpTo(h.entries, h.offloaded, h.groups, h.layers)
    requires AtWindow(h) && h.offloaded < h.groups - 1 ==> OnDeviceIn(h.entries, h.offloaded + 1)
    requires AtWindow(h) && h.offloaded < h.groups - 1 ==>
               h.groups < h.layers || forall i :: 0 <= i < |h.entries| ==> h.entries[i].tag.group != h.offloaded + 1
    ensures TuplesUpTo(AfterWindow(h).entries, AfterWindow(h).offloaded, h.groups, h.layers)
  {
    if AtWindow(h) && h.offloaded < h.groups - 1 {
      OffloadOneMore(h.entries, h.offloaded + 1, h.groups, h.layers);
    }
  }

  lemma ForwardKeepsExactly(h: Handler, p: Plain)
    requires Rel(h, p) && !p.back && Legal(p, ForwardCommit) && OffloadedExactly(h)
    ensures CommitForward(h).Ok? && OffloadedExactly(CommitForward(h).value)
  {
    SomeWindowIsLeft(h, p);
    ForwardCommits(h, p);
    KickstartKeepsExactly(h, p);
    var h1 := Kickstart(h);
    if h.groups == h.layers && AtWindow(h) && h.offloaded < h.groups - 1 {
      KickstartHolds(h, p);
      NextGroupIsEmpty(h, p, h1.entries);
    }
    WindowKeepsExactly(h1);
  }

  ghost predicate Exact(h: Handler, p: Plain) {
    Rel(h, p) && (!p.back ==> OffloadedExactly(h))
  }

  lemma StepKeepsExact(h: Handler, p: Plain, e: Event)
    requires Exact(h, p) && Legal(p, e)
    ensures HandlerStep(h, e).Ok? && Exact(HandlerStep(h, e).value.0, PlainStep(p, e).0)
  {
    StepRefines(h, p, e);
    if !e.PopTensor? && !e.BackwardCommit? {
      ForwardForm(h, p);
      if p.back {
        IterationEndsInInit(h, p);
      }
      if e.PushTensor? {
        PushKeepsExactly(h, p.(back := false), e.t);
      } else {
        ForwardKeepsExactly(h, p.(back := false));
      }
    }
  }

  lemma {:induction false} RunKeepsExact(h: Handler, p: Plain, es: seq<Event>)
    requires Exact(h, p) && LegalRun(p, es)
    ensures HandlerRun(h, es).Ok? && Exact(HandlerRun(h, es).value.0, PlainRun(p, es).0)
    decreases |es|
  {
    if es != [] {
      StepKeepsExact(h, p, es[0]);
      RunKeepsExact(HandlerStep(h, es[0]).value.0, PlainStep(p, es[0]).0, es[1..]);
    }
  }

  lemma AllGroupsHadTheirWindow(h: Handler, p: Plain)
    requires 0 < h.groups <= h.layers && !p.back && Schedule(h, p) && h.current == h.layers
    ensures h.offloaded >= h.groups - 1
  {
    WindowOfLast(h.groups, h.layers);
    if h.offloaded < h.groups - 1 {
      WindowIncreases(h.groups, h.layers, h.offloaded, h.groups - 1);
    }
  }

  /** At the end of the forward pass of any iteration, a tensor of group g has really been
      replaced by a host copy exactly when g < G and (g == 0 or G < L): with as many groups as
      layers, only the first group is ever offloaded. */
  lemma OffloadedAtEndOfForward(groups: nat, layers: nat, es: seq<Event>, i: nat)
    requires 0 < groups <= layers && LegalRun(Plain(layers, false, 0, 0, map[]), es)
    requires var p := PlainRun(Plain(layers, false, 0, 0, map[]), es).0; !p.back && p.current == layers
    ensures HandlerRun(Init(groups, layers), es).Ok?
    ensures var entries := HandlerRun(Init(groups, layers), es).value.0.entries;
            i < |entries| ==>
              (entries[i].saved.Offloaded? <==>
               entries[i].tag.group < groups && (entries[i].tag.group == 0 || groups < layers))
  {
    var p0 := Plain(layers, false, 0, 0, map[]);
    InitRel(groups, layers);
    RunKeepsExact(Init(groups, layers), p0, es);
    SizesNeverChange(Init(groups, layers), es);
    PlainLayers(p0, es);
    AllGroupsHadTheirWindow(HandlerRun(Init(groups, layers), es).value.0, PlainRun(p0, es).0);
  }

  lemma {:induction false} PlainLayers(p: Plain, es: seq<Event>)
    requires LegalRun(p, es)
    ensures PlainRun(p, es).0.layers == p.layers
    decreases |es|
  {
    if es != [] {
      PlainLayers(PlainStep(p, es[0]).0, es[1..]);
    }
  }

  // ------------------------------------------------------------------- reload

  lemma KeysArePresent(h: Handler, p: Plain, g: nat)
    requires Agrees(h, p) && g in h.mapping
    ensures KeysPresent(h.entries, g, h.mapping[g])
  {
    forall i | 0 <= i < |h.entries| && h.entries[i].tag.group == g && h.entries[i].saved.Offloaded?
      ensures h.entries[i].saved.key in h.mapping[g]
    {
      assert StandsFor(h.mapping, h.entries[i], p.saved[h.entries[i].tag], p.back);
    }
  }

  lemma BackGroupsAreOnDevice(h: Handler, p: Plain, i: nat)
    requires Rel(h, p) && p.back && i < |h.entries| && h.entries[i].tag.group >= p.current
    ensures h.entries[i].saved.OnDevice?
  {
    PoppedGroupIsBack(h, p, h.entries[i].tag.group);
    assert StandsFor(h.mapping, h.entries[i], p.saved[h.entries[i].tag], p.back);
  }

  /** For any number of groups: from its layer's backward commit on, nothing of a group is still a
      host copy, so every offloaded group has been reloaded by the time its tensors are popped. */
  lemma ReloadedInTime(groups: nat, layers: nat, es: seq<Event>, i: nat)
    requires 0 < groups <= layers && LegalRun(Plain(layers, false, 0, 0, map[]), es)
    requires PlainRun(Plain(layers, false, 0, 0, map[]), es).0.back
    ensures HandlerRun(Init(groups, layers), es).Ok?
    ensures var entries := HandlerRun(Init(groups, layers), es).value.0.entries;
            i < |entries| && entries[i].tag.group >= PlainRun(Plain(layers, false, 0, 0, map[]), es).0.current ==>
              entries[i].saved.OnDevice?
  {
    var p0 := Plain(layers, false, 0, 0, map[]);
    InitRel(groups, layers);
    RunRefines(Init(groups, layers), p0, es);
    var h, p := HandlerRun(Init(groups, layers), es).value.0, PlainRun(p0, es).0;
    if i < |h.entries| && h.entries[i].tag.group >= p.current {
      BackGroupsAreOnDevice(h, p, i);
    }
  }

  // ------------------------------------------------------ dedup by storage key

  /** Tensors of the group that share a key have the same content. */
  predicate KeysAgree(es: seq<Entry>, g: nat) {
    forall i, j :: 0 <= i < |es| && 0 <= j < |es| && es[i].tag.group == es[j].tag.group == g
                   && es[i].saved.OnDevice? && es[j].saved.OnDevice?
                   && es[i].saved.tensor.key == es[j].saved.tensor.key
                   ==> es[i].saved.tensor.data == es[j].saved.tensor.data
  }

  predicate GroupSurvives(es: seq<Entry>, es': seq<Entry>, g: nat) {
    |es'| == |es| &&
    forall i :: 0 <= i < |es| && es[i].tag.group == g && es[i].saved.OnDevice? ==>
                  es'[i].saved.OnDevice? && SameValue(es'[i].saved.tensor, es[i].saved.tensor)
  }

  /** Offloading a group and reloading it gives every tensor back if and only if tensors that
      share a storage key have the same flattened content. */
  lemma DedupIsExact(h: Handler, g: nat)
    requires g < h.groups && OnDeviceIn(h.entries, g)
    requires forall i :: 0 <= i < |h.entries| && h.entries[i].saved.OnDevice? ==> WellFormed(h.entries[i].saved.tensor)
    ensures BulkOffload(h, g).Ok?
    ensures var back := BulkReload(BulkOffload(h, g).value, g);
            KeysAgree(h.entries, g) <==> back.Ok? && GroupSurvives(h.entries, back.value.entries, g)
  {
    var es := h.entries;
    var off := BulkOffload(h, g).value;
    var m := Copies(es, g, |es|);
    forall i | 0 <= i < |es| && es[i].tag.group == g
      ensures es[i].saved.tensor.key in m && off.entries[i] == OffloadEntry(es[i], g)
    {
      CopiesHaveAll(es, g, |es|, i);
    }
    var back := BulkReload(off, g);
    if KeysAgree(es, g) {
      forall i | 0 <= i < |es| && es[i].tag.group == g
        ensures m[es[i].saved.tensor.key].data == es[i].saved.tensor.data
      {
        var f := CopiesAreFirst(es, g, |es|, es[i].saved.tensor.key);
      }
    }
    if back.Ok? && GroupSurvives(es, back.value.entries, g) {
      forall i | 0 <= i < |es| && es[i].tag.group == g
        ensures m[es[i].saved.tensor.key].data == es[i].saved.tensor.data
      {
        assert back.value.entries[i] == ReloadEntry(off.entries[i], g, m);
      }
    }
  }

  // ----------------------------- a run in which two tensors of one layer share a key

  function OnDeviceBoth(x: Tensor, y: Tensor): seq<Entry> {
    [Entry(Tag(0, 0), OnDevice(x)), Entry(Tag(0, 1), OnDevice(y))]
  }

  function OffloadedBoth(x: Tensor, y: Tensor): seq<Entry> {
    [Entry(Tag(0, 0), Offloaded(x.key, x.shape)), Entry(Tag(0, 1), Offloaded(y.key, y.shape))]
  }

  /** One layer, one group: both tensors have been pushed. */
  function Pushed(x: Tensor, y: Tensor): Handler {
    Handler(1, 1, OnDeviceBoth(x, y), map[Tag(0, 0) := Some(x), Tag(0, 1) := Some(y)], map[], 0, 2, 0)
  }

  /** The layer has been committed: the group is offloaded, with one copy for both. */
  function Committed(x: Tensor, y: Tensor): Handler {
    Handler(1, 1, OffloadedBoth(x, y), FreeBufs(Pushed(x, y).bufs, 0), map[0 := map[x.key := x]], 1, 0, 1)
  }

  /** The backward pass has reached the layer: the group is back. */
  function Returned(x: Tensor, y: Tensor): Handler {
    Handler(1, 1, OnDeviceBoth(x, y.(data := x.data)), FreeBufs(Pushed(x, y).bufs, 0), map[], 0, 0, 0)
  }

  function PushedFirst(x: Tensor): Handler {
    Handler(1, 1, [Entry(Tag(0, 0), OnDevice(x))], map[Tag(0, 0) := Some(x)], map[], 0, 1, 0)
  }

  lemma PushBoth(x: Tensor, y: Tensor)
    ensures Push(Init(1, 1), x) == Ok((PushedFirst(x), Tag(0, 0)))
    ensures Push(PushedFirst(x), y) == Ok((Pushed(x, y), Tag(0, 1)))
  {
    assert [] + [Entry(Tag(0, 0), OnDevice(x))] == [Entry(Tag(0, 0), OnDevice(x))];
    assert [Entry(Tag(0, 0), OnDevice(x))] + [Entry(Tag(0, 1), OnDevice(y))] == OnDeviceBoth(x, y);
  }

  lemma CopiesOfBoth(x: Tensor, y: Tensor)
    requires x.key == y.key
    ensures Copies(OnDeviceBoth(x, y), 0, 2) == map[x.key := x]
  {
    assert Copies(OnDeviceBoth(x, y), 0, 0) == map[];
    assert Copies(OnDeviceBoth(x, y), 0, 1) == map[x.key := x];
  }

  lemma CommitBoth(x: Tensor, y: Tensor)
    requires x.key == y.key
    ensures CommitForward(Pushed(x, y)) == Ok(Committed(x, y))
  {
    CopiesOfBoth(x, y);
    var h, off := Pushed(x, y), Offload(Pushed(x, y), 0);
    assert OffloadEntries(h.entries, 0) == OffloadedBoth(x, y);
    assert BulkOffload(h, 0) == Ok(off);
    assert off == h.(entries := OffloadedBoth(x, y), mapping := map[0 := map[x.key := x]]);
    assert Window(1, 1, 0) == 0;
    assert AtForwardWindow(off) == Ok(off.(bufs := FreeBufs(h.bufs, 0), offloaded := 1));
  }

  lemma ReturnBoth(x: Tensor, y: Tensor)
    requires x.key == y.key && WellFormed(x) && |x.data| == Numel(y.shape)
    ensures CommitBackward(Committed(x, y)) == Ok(Returned(x, y))
  {
    var h := Committed(x, y).(current := 0);
    var m := map[x.key := x];
    assert h.mapping[0] == m;
    assert ReloadEntries(h.entries, 0, m) == OnDeviceBoth(x, y.(data := x.data));
    assert h.mapping - {0} == map[];
    assert BulkReload(h, 0) == Ok(Reload(h, 0));
    assert Window(1, 1, 0) == 0;
  }

  lemma PopSecond(x: Tensor, y: Tensor)
    ensures Pop(Returned(x, y), Tag(0, 1)).Ok? && Pop(Returned(x, y), Tag(0, 1)).value.1 == y.(data := x.data)
  {
    var es := OnDeviceBoth(x, y.(data := x.data));
    assert es[1].tag == Tag(0, 1) && HasTag(es, Tag(0, 1));
  }

  function SaveBoth(x: Tensor, y: Tensor): seq<Event> {
    [PushTensor(x), PushTensor(y), ForwardCommit, BackwardCommit, PopTensor(Tag(0, 1))]
  }

  /** A layer saves two tensors that share a key: after one forward and one backward pass the
      second is popped with the content of the first, and no fault is raised on the way. */
  lemma SecondOfKeyIsLost(x: Tensor, y: Tensor)
    requires x.key == y.key && WellFormed(x) && |x.data| == Numel(y.shape)
    ensures HandlerRun(Init(1, 1), SaveBoth(x, y)).Ok?
    ensures HandlerRun(Init(1, 1), SaveBoth(x, y)).value.1
         == [GotTag(Tag(0, 0)), GotTag(Tag(0, 1)), Nothing, Nothing, GotTensor(y.(data := x.data))]
  {
    BackwardOfBoth(x, y);
    PushBoth(x, y);
    CommitBoth(x, y);
    var es := SaveBoth(x, y);
    RunStep(Pushed(x, y), es[2..]);
    RunStep(PushedFirst(x), es[1..]);
    RunStep(Init(1, 1), es);
  }

  lemma BackwardOfBoth(x: Tensor, y: Tensor)
    requires x.key == y.key && WellFormed(x) && |x.data| == Numel(y.shape)
    ensures var run := HandlerRun(Committed(x, y), SaveBoth(x, y)[3..]);
            run.Ok? && run.value.1 == [Nothing, GotTensor(y.(data := x.data))]
  {
    ReturnBoth(x, y);
    PopSecond(x, y);
    var es := SaveBoth(x, y);
    RunStep(Returned(x, y), es[4..]);
    RunStep(Committed(x, y), es[3..]);
  }

  lemma RunStep(h: Handler, es: seq<Event>)
    requires es != [] && HandlerStep(h, es[0]).Ok?
    ensures var (h', out) := HandlerStep(h, es[0]).value;
            HandlerRun(h', es[1..]).Ok? ==>
              HandlerRun(h, es) == Ok((HandlerRun(h', es[1..]).value.0, [out] + HandlerRun(h', es[1..]).value.1))
  {
  }

  /** The plain map pops what was pushed. */
  lemma PlainKeepsSecond(x: Tensor, y: Tensor)
    ensures var p := PlainStep(PlainStep(Plain(1, false, 0, 0, map[]), PushTensor(x)).0, PushTensor(y)).0;
            var q := PlainStep(PlainStep(p, ForwardCommit).0, BackwardCommit).0;
            Answerable(q, PopTensor(Tag(0, 1))) && PlainStep(q, PopTensor(Tag(0, 1))).1 == GotTensor(y)
  {
  }

  lemma SixElements()
    ensures Numel([2, 3]) == 6 && Numel([3, 2]) == 6
  {
    assert [3, 2][1..] == [2] && [2][1..] == [];
    assert [2, 3][1..] == [3] && [3][1..] == [];
  }

  /** A tensor and its transpose share storage address and dtype.  Saved by one layer, the
      transpose is popped with the untransposed content, where the plain map gives the transpose. */
  lemma TransposeIsLost()
    ensures var x, xT := Tensor(7, [2, 3], [1, 2, 3, 4, 5, 6]), Tensor(7, [3, 2], [1, 4, 2, 5, 3, 6]);
            var run := HandlerRun(Init(1, 1), SaveBoth(x, xT));
            var p := PlainStep(PlainStep(Plain(1, false, 0, 0, map[]), PushTensor(x)).0, PushTensor(xT)).0;
            var q := PlainStep(PlainStep(p, ForwardCommit).0, BackwardCommit).0;
            && run.Ok? && |run.value.1| == 5
            && run.value.1[4] == GotTensor(Tensor(7, [3, 2], [1, 2, 3, 4, 5, 6]))
            && Answerable(q, PopTensor(Tag(0, 1)))
            && !SameOutput(run.value.1[4], PlainStep(q, PopTensor(Tag(0, 1))).1)
  {
    var x, xT := Tensor(7, [2, 3], [1, 2, 3, 4, 5, 6]), Tensor(7, [3, 2], [1, 4, 2, 5, 3, 6]);
    SixElements();
    SecondOfKeyIsLost(x, xT);
    PlainKeepsSecond(x, xT);
    assert x.data[1] != xT.data[1];
  }
}
