/** Where the offload handler keeps every tensor at every point of training, for any number of
    groups: which tensors are host copies, and which device references are still held
    (verl/verl/utils/activation_offload.py). */
module OffloadPlacement {
  import opened Prelude
  import opened OffloadWindow
  import opened OffloadModel
  import opened OffloadTransparency
  import opened OffloadResidency

  // ------------------------------------------------------ windows and counters

  lemma WindowsInOrder(groups: nat, layers: nat, i: nat, j: nat)
    requires 0 < groups <= layers && i <= j
    ensures Window(groups, layers, i) <= Window(groups, layers, j)
  {
    if i < j {
      WindowIncreases(groups, layers, i, j);
    }
  }

  /** In the forward pass offloaded_group_count is the number of windows that have passed. */
  lemma CountIsWindows(h: Handler, p: Plain, g: nat)
    requires 0 < h.groups <= h.layers && !p.back && Schedule(h, p) && g < h.groups
    ensures g < h.offloaded <==> Window(h.groups, h.layers, g) < h.current
  {
    var k := h.offloaded;
    if g < k {
      WindowsInOrder(h.groups, h.layers, g, k - 1);
    } else {
      WindowsInOrder(h.groups, h.layers, k, g);
    }
  }

  /** Group g has begun to be offloaded: at the first commit, or at the window of the group before. */
  predicate Begun(groups: nat, layers: nat, g: nat, current: nat)
    requires 0 < groups
  {
    if g == 0 then current > 0 else Window(groups, layers, g - 1) < current
  }

  lemma MappedInForward(h: Handler, p: Plain, g: nat)
    requires 0 < h.groups <= h.layers && !p.back && Schedule(h, p) && g < h.groups
    ensures g in h.mapping <==> Begun(h.groups, h.layers, g, h.current)
    ensures h.current == 0 ==> !Begun(h.groups, h.layers, g, 0)
  {
    WindowOfFirst(h.groups, h.layers);
    if g > 0 {
      CountIsWindows(h, p, g - 1);
      WindowsInOrder(h.groups, h.layers, 0, g - 1);
    }
  }

  lemma MappedInBackward(h: Handler, p: Plain, g: nat)
    requires 0 < h.groups <= h.layers && p.back && Schedule(h, p) && g < h.groups
    ensures g in h.mapping <==> Window(h.groups, h.layers, g) < h.current
  {
    var k := h.offloaded;
    WindowOfFirst(h.groups, h.layers);
    WindowsInOrder(h.groups, h.layers, 0, g);
    if h.current > 0 {
      if g < k {
        WindowsInOrder(h.groups, h.layers, g, k - 1);
      } else {
        WindowsInOrder(h.groups, h.layers, k, g);
      }
    }
  }

  // --------------------------------------------------------------- host copies

  /** The host copies are the tensors of the registered groups; with as many groups as layers only
      group 0 has any. */
  predicate MappedAreHost(es: seq<Entry>, mapping: map<nat, map<nat, Tensor>>, groups: nat, layers: nat) {
    forall i :: 0 <= i < |es| ==>
                  (es[i].saved.Offloaded? <==>
                   es[i].tag.group in mapping && (es[i].tag.group == 0 || groups < layers))
  }

  predicate HostIsMapped(h: Handler) {
    MappedAreHost(h.entries, h.mapping, h.groups, h.layers)
  }

  lemma ForwardIsMapped(h: Handler, p: Plain)
    requires 0 < h.groups <= h.layers && !p.back && Schedule(h, p) && OffloadedExactly(h)
    ensures HostIsMapped(h)
  {
  }

  lemma ReloadKeepsMapped(h: Handler, g: nat)
    requires HostIsMapped(h) && g in h.mapping && KeysPresent(h.entries, g, h.mapping[g])
    ensures HostIsMapped(Reload(h, g))
  {
    var es, es' := h.entries, Reload(h, g).entries;
    forall i | 0 <= i < |es'|
      ensures es'[i].saved.Offloaded? <==>
              es'[i].tag.group in h.mapping - {g} && (es'[i].tag.group == 0 || h.groups < h.layers)
    {
      assert es'[i] == ReloadEntry(es[i], g, h.mapping[g]);
    }
  }

  lemma BackwardKeepsMapped(h: Handler, p: Plain)
    requires Rel(h, p) && HostIsMapped(h) && Legal(p, BackwardCommit)
    ensures CommitBackward(h).Ok? && HostIsMapped(CommitBackward(h).value)
  {
    BackwardCommits(h, p);
    if h.offloaded - 1 in h.mapping {
      KeysArePresent(h, p, h.offloaded - 1);
    }
    AfterBackwardMapped(h);
  }

  lemma AfterBackwardMapped(h: Handler)
    requires HostIsMapped(h) && 0 < h.current && 0 < h.offloaded <= h.groups
    requires h.offloaded - 1 in h.mapping ==> KeysPresent(h.entries, h.offloaded - 1, h.mapping[h.offloaded - 1])
    ensures HostIsMapped(AfterBackward(h))
  {
    var h1 := h.(current := h.current - 1);
    if AtBackWindow(h1) {
      ReloadKeepsMapped(h1, h.offloaded - 1);
    }
  }

  lemma WithoutKeepsMapped(h: Handler, i: nat)
    requires HostIsMapped(h) && i < |h.entries|
    ensures HostIsMapped(Without(h, i))
  {
    var es' := h.entries[..i] + h.entries[i + 1..];
    forall k | 0 <= k < |es'| ensures es'[k] == h.entries[if k < i then k else k + 1] {
    }
  }

  // -------------------------------------------------------- device references

  /** tensor_tag_to_buf has a tensor of a group below G as long as it is saved, and really holds
      on to it while the group's window has not passed in the forward pass. */
  ghost predicate HoldsDevice(bufs: map<Tag, Option<Tensor>>, saved: map<Tag, Tensor>, groups: nat, back: bool,
                        offloaded: nat)
  {
    && (forall tag :: tag in bufs <==> tag in saved && tag.group < groups)
    && forall tag :: tag in bufs ==>
         bufs[tag] == if !back && offloaded <= tag.group then Some(saved[tag]) else None
  }

  ghost predicate BufsExact(h: Handler, p: Plain) {
    HoldsDevice(h.bufs, p.saved, h.groups, p.back, h.offloaded)
  }

  lemma PushKeepsBufs(h: Handler, p: Plain, t: Tensor)
    requires Rel(h, p) && !p.back && Legal(p, PushTensor(t)) && BufsExact(h, p)
    ensures Push(h, t).Ok? && BufsExact(Push(h, t).value.0, PlainStep(p, PushTensor(t)).0)
  {
    PushRefines(h, p, t);
    CountBelowCurrent(h, p);
    PushHeld(h.bufs, p.saved, h.groups, h.offloaded, Tag(p.current, p.count), t);
  }

  lemma CountBelowCurrent(h: Handler, p: Plain)
    requires 0 < h.groups <= h.layers && !p.back && Schedule(h, p)
    ensures h.offloaded <= h.current
  {
    if h.offloaded > 0 {
      WindowAfterOwnLayer(h.groups, h.layers, h.offloaded - 1);
    }
  }

  lemma PushHeld(bufs: map<Tag, Option<Tensor>>, saved: map<Tag, Tensor>, groups: nat, offloaded: nat, tag: Tag,
                 t: Tensor)
    requires HoldsDevice(bufs, saved, groups, false, offloaded) && offloaded <= tag.group
    ensures HoldsDevice(if tag.group < groups then bufs[tag := Some(t)] else bufs, saved[tag := t], groups, false,
                        offloaded)
  {
  }

  lemma FreeKeepsBufs(bufs: map<Tag, Option<Tensor>>, saved: map<Tag, Tensor>, groups: nat, k: nat)
    requires HoldsDevice(bufs, saved, groups, false, k)
    ensures HoldsDevice(FreeBufs(bufs, k), saved, groups, false, k + 1)
  {
  }

  lemma ForwardKeepsBufs(h: Handler, p: Plain)
    requires Rel(h, p) && !p.back && Legal(p, ForwardCommit) && BufsExact(h, p)
    ensures CommitForward(h).Ok? && BufsExact(CommitForward(h).value, PlainStep(p, ForwardCommit).0)
  {
    SomeWindowIsLeft(h, p);
    ForwardCommits(h, p);
    FreeKeepsBufs(h.bufs, p.saved, h.groups, h.offloaded);
  }

  /** When the backward pass begins, every group has had its window. */
  lemma BackwardKeepsBufs(h: Handler, p: Plain)
    requires Rel(h, p) && Legal(p, BackwardCommit) && BufsExact(h, p)
    ensures CommitBackward(h).Ok? && BufsExact(CommitBackward(h).value, PlainStep(p, BackwardCommit).0)
  {
    BackwardCommits(h, p);
    if !p.back {
      AllWindowsPassed(h, p);
    }
    NothingHeldInBackward(h.bufs, p.saved, h.groups, p.back, h.offloaded, AfterBackward(h).offloaded);
  }

  lemma AllWindowsPassed(h: Handler, p: Plain)
    requires 0 < h.groups <= h.layers && !p.back && Schedule(h, p) && h.current == h.layers
    ensures h.groups <= h.offloaded
  {
    WindowOfLast(h.groups, h.layers);
    CountIsWindows(h, p, h.groups - 1);
  }

  lemma NothingHeldInBackward(bufs: map<Tag, Option<Tensor>>, saved: map<Tag, Tensor>, groups: nat, back: bool,
                              offloaded: nat, offloaded': nat)
    requires HoldsDevice(bufs, saved, groups, back, offloaded) && (back || groups <= offloaded)
    ensures HoldsDevice(bufs, saved, groups, true, offloaded')
  {
  }

  // ---------------------------------------------------------------------- runs

  ghost predicate Placement(h: Handler, p: Plain) {
    Exact(h, p) && BufsExact(h, p) && HostIsMapped(h)
  }

  lemma StepKeepsBufs(h: Handler, p: Plain, e: Event)
    requires Rel(h, p) && BufsExact(h, p) && Legal(p, e)
    ensures HandlerStep(h, e).Ok? && BufsExact(HandlerStep(h, e).value.0, PlainStep(p, e).0)
  {
    if InForward(p) && (e.PushTensor? || e.ForwardCommit?) {
      ForwardForm(h, p);
    }
    match e
    case PushTensor(t) => PushKeepsBufs(h, p.(back := false), t);
    case ForwardCommit => ForwardKeepsBufs(h, p.(back := false));
    case BackwardCommit => BackwardKeepsBufs(h, p);
    case PopTensor(tag) => var i := PopFindsValue(h, p, tag);
  }

  lemma StepKeepsMapped(h: Handler, p: Plain, e: Event)
    requires Exact(h, p) && HostIsMapped(h) && Legal(p, e)
    ensures HandlerStep(h, e).Ok? && HostIsMapped(HandlerStep(h, e).value.0)
  {
    StepKeepsExact(h, p, e);
    match e
    case PushTensor(_) => ForwardIsMapped(HandlerStep(h, e).value.0, PlainStep(p, e).0);
    case ForwardCommit => ForwardIsMapped(HandlerStep(h, e).value.0, PlainStep(p, e).0);
    case BackwardCommit => BackwardKeepsMapped(h, p);
    case PopTensor(tag) =>
      var i := PopFindsValue(h, p, tag);
      WithoutKeepsMapped(h, i);
  }

  lemma {:induction false} RunKeepsPlacement(h: Handler, p: Plain, es: seq<Event>)
    requires Placement(h, p) && LegalRun(p, es)
    ensures HandlerRun(h, es).Ok? && Placement(HandlerRun(h, es).value.0, PlainRun(p, es).0)
    decreases |es|
  {
    if es != [] {
      StepKeepsExact(h, p, es[0]);
      StepKeepsBufs(h, p, es[0]);
      StepKeepsMapped(h, p, es[0]);
      RunKeepsPlacement(HandlerStep(h, es[0]).value.0, PlainStep(p, es[0]).0, es[1..]);
    }
  }

  lemma PlacementOfRun(groups: nat, layers: nat, es: seq<Event>) returns (h: Handler, p: Plain)
    requires 0 < groups <= layers && LegalRun(Plain(layers, false, 0, 0, map[]), es)
    ensures HandlerRun(Init(groups, layers), es).Ok? && h == HandlerRun(Init(groups, layers), es).value.0
    ensures p == PlainRun(Plain(layers, false, 0, 0, map[]), es).0
    ensures Placement(h, p) && h.groups == groups && h.layers == layers
  {
    var p0 := Plain(layers, false, 0, 0, map[]);
    InitRel(groups, layers);
    RunKeepsPlacement(Init(groups, layers), p0, es);
    SizesNeverChange(Init(groups, layers), es);
    h, p := HandlerRun(Init(groups, layers), es).value.0, PlainRun(p0, es).0;
  }

  /** At every point of training the handler holds device references for exactly the saved tensors
      of groups below G whose window is still to come in the forward pass, and each is the tensor
      saved; of the others of these groups it keeps only the tags. */
  lemma DeviceReferences(groups: nat, layers: nat, es: seq<Event>, tag: Tag)
    requires 0 < groups <= layers && LegalRun(Plain(layers, false, 0, 0, map[]), es)
    ensures HandlerRun(Init(groups, layers), es).Ok?
    ensures var bufs, p := HandlerRun(Init(groups, layers), es).value.0.bufs,
                           PlainRun(Plain(layers, false, 0, 0, map[]), es).0;
            && (tag in bufs <==> tag in p.saved && tag.group < groups)
            && (tag in bufs ==>
                  bufs[tag] == if !p.back && Window(groups, layers, tag.group) >= p.current
                               then Some(p.saved[tag]) else None)
  {
    var h, p := PlacementOfRun(groups, layers, es);
    if !p.back && tag.group < groups {
      CountIsWindows(h, p, tag.group);
    }
  }

  /** In the forward pass: the groups from offloaded_group_count on are held, those below it are not. */
  lemma ReferencesByCount(groups: nat, layers: nat, es: seq<Event>, tag: Tag)
    requires 0 < groups <= layers && LegalRun(Plain(layers, false, 0, 0, map[]), es)
    ensures HandlerRun(Init(groups, layers), es).Ok?
    ensures var h, p := HandlerRun(Init(groups, layers), es).value.0,
                        PlainRun(Plain(layers, false, 0, 0, map[]), es).0;
            !p.back && tag in p.saved && tag.group < groups ==>
              && tag in h.bufs
              && h.bufs[tag] == if h.offloaded <= tag.group then Some(p.saved[tag]) else None
  {
    var h, p := PlacementOfRun(groups, layers, es);
  }

  /** At every point of training a tensor is a host copy if and only if its group is one of those
      really offloaded, and: in the forward pass, its offload has begun; in the backward pass, its
      window is still to come. */
  lemma HostCopies(groups: nat, layers: nat, es: seq<Event>, i: nat)
    requires 0 < groups <= layers && LegalRun(Plain(layers, false, 0, 0, map[]), es)
    ensures HandlerRun(Init(groups, layers), es).Ok?
    ensures var entries, p := HandlerRun(Init(groups, layers), es).value.0.entries,
                              PlainRun(Plain(layers, false, 0, 0, map[]), es).0;
            i < |entries| ==>
              var g := entries[i].tag.group;
              entries[i].saved.Offloaded? <==>
                && g < groups && (g == 0 || groups < layers)
                && if p.back then Window(groups, layers, g) < p.current else Begun(groups, layers, g, p.current)
  {
    var h, p := PlacementOfRun(groups, layers, es);
    if i < |h.entries| && h.entries[i].tag.group < groups {
      if p.back {
        MappedInBackward(h, p, h.entries[i].tag.group);
      } else {
        MappedInForward(h, p, h.entries[i].tag.group);
      }
    }
  }

  // --------------------------------------------- residency with G = L - 1

  /** Some tensor of group g occupies device memory. */
  predicate Resident(h: Handler, g: nat) {
    || (exists i :: 0 <= i < |h.entries| && h.entries[i].tag.group == g && h.entries[i].saved.OnDevice?)
    || (exists tag :: tag in h.bufs && h.bufs[tag] != None && tag.group == g)
  }

  predicate EntriesPlaced(es: seq<Entry>, back: bool, current: nat, groups: nat) {
    forall i :: 0 <= i < |es| ==>
                  (es[i].saved.OnDevice? <==>
                   if back then es[i].tag.group + 1 >= current
                   else es[i].tag.group >= current || es[i].tag.group >= groups)
  }

  predicate BufsPlaced(bufs: map<Tag, Option<Tensor>>, back: bool, current: nat, groups: nat) {
    forall tag :: tag in bufs && bufs[tag] != None ==> !back && tag.group < groups && tag.group + 1 >= current
  }

  /** Where every tensor is, with one group per layer but the last. */
  ghost predicate Placed(h: Handler, p: Plain) {
    && h.groups + 1 == h.layers
    && EntriesPlaced(h.entries, p.back, h.current, h.groups)
    && BufsPlaced(h.bufs, p.back, h.current, h.groups)
  }

  lemma DefaultEntriesPlaced(h: Handler, p: Plain)
    requires Placement(h, p) && h.groups + 1 == h.layers
    ensures EntriesPlaced(h.entries, p.back, h.current, h.groups)
  {
    forall i | 0 <= i < |h.entries|
      ensures h.entries[i].saved.Offloaded? <==>
              h.entries[i].tag.group < h.groups && h.entries[i].tag.group + (if p.back then 1 else 0) < h.current
    {
      DefaultPlace(h, p, h.entries[i].tag.group);
    }
  }

  lemma DefaultBufsPlaced(h: Handler, p: Plain)
    requires Placement(h, p) && h.groups + 1 == h.layers
    ensures BufsPlaced(h.bufs, p.back, h.current, h.groups)
  {
    forall tag | tag in h.bufs && h.bufs[tag] != None ensures !p.back && tag.group + 1 >= h.current {
      WindowOfDefaultConfiguration(h.layers, tag.group);
      CountIsWindows(h, p, tag.group);
    }
  }

  lemma DefaultPlace(h: Handler, p: Plain, g: nat)
    requires Rel(h, p) && h.groups + 1 == h.layers
    ensures g in h.mapping <==> g < h.groups && g + (if p.back then 1 else 0) < h.current
  {
    if g < h.groups {
      WindowOfDefaultConfiguration(h.layers, g);
      if p.back {
        MappedInBackward(h, p, g);
      } else {
        MappedInForward(h, p, g);
        if g > 0 { WindowOfDefaultConfiguration(h.layers, g - 1); }
      }
    }
  }
  /** No tensor of a layer above the current one is waiting to be popped. */
  predicate NothingAbove(saved: map<Tag, Tensor>, current: nat) {
    forall tag :: tag in saved ==> tag.group <= current
  }

  predicate AtMostTwo(h: Handler) {
    && (forall i :: 0 <= i < |h.entries| && h.entries[i].saved.OnDevice? ==> NearCurrent(h, h.entries[i].tag.group))
    && (forall tag :: tag in h.bufs && h.bufs[tag] != None ==> NearCurrent(h, tag.group))
  }

  /** The current group or the one below it. */
  predicate NearCurrent(h: Handler, g: nat) {
    g == h.current || g + 1 == h.current
  }

  lemma AtMostTwoMeansResident(h: Handler)
    ensures AtMostTwo(h) <==> forall g: nat :: Resident(h, g) ==> NearCurrent(h, g)
  {
    if forall g: nat :: Resident(h, g) ==> NearCurrent(h, g) {
      forall i | 0 <= i < |h.entries| && h.entries[i].saved.OnDevice? ensures NearCurrent(h, h.entries[i].tag.group) {
        assert Resident(h, h.entries[i].tag.group);
      }
      forall tag | tag in h.bufs && h.bufs[tag] != None ensures NearCurrent(h, tag.group) {
        assert Resident(h, tag.group);
      }
    }
  }

  /** At most two groups are on the device exactly when nothing above the current layer is left. */
  lemma AtMostTwoResident(h: Handler, p: Plain)
    requires Rel(h, p) && Placed(h, p)
    ensures AtMostTwo(h) <==> NothingAbove(p.saved, h.current)
  {
    if NothingAbove(p.saved, h.current) {
      forall i | 0 <= i < |h.entries| && h.entries[i].saved.OnDevice? ensures NearCurrent(h, h.entries[i].tag.group) {
        assert h.entries[i].tag in p.saved;
      }
    }
    if AtMostTwo(h) {
      forall tag | tag in p.saved ensures tag.group <= h.current {
        assert HasTag(h.entries, tag);
      }
    }
  }

  /** The promise of `enable_activation_offloading`: with one group per layer but the last, at
      every point of every iteration only the current group and the one below it are in device
      memory, if and only if no tensor of a layer above the current one is still to be popped.
      In the forward pass there never is one. */
  lemma TwoGroupsInDeviceMemory(layers: nat, es: seq<Event>)
    requires 2 <= layers && LegalRun(Plain(layers, false, 0, 0, map[]), es)
    ensures HandlerRun(Init(layers - 1, layers), es).Ok?
    ensures var h, p := HandlerRun(Init(layers - 1, layers), es).value.0,
                       PlainRun(Plain(layers, false, 0, 0, map[]), es).0;
            && ((forall g: nat :: Resident(h, g) ==> NearCurrent(h, g)) <==> NothingAbove(p.saved, h.current))
            && (!p.back ==> NothingAbove(p.saved, h.current))
  {
    var h, p := PlacementOfRun(layers - 1, layers, es);
    DefaultEntriesPlaced(h, p);
    DefaultBufsPlaced(h, p);
    AtMostTwoResident(h, p);
    AtMostTwoMeansResident(h);
  }
}
