/** The offload handler is transparent: over any number of forward and backward passes it
    agrees with a plain map from tags to tensors, and none of its assertions or lookups fails. */
module OffloadTransparency {
  import opened Prelude
  import opened OffloadWindow
  import opened OffloadModel

  // -------------------------------------------------------- the simple form

  /** What autograd does to the handler. */
  datatype Event = PushTensor(t: Tensor) | ForwardCommit | BackwardCommit | PopTensor(tag: Tag)

  datatype Output = Nothing | GotTag(tag: Tag) | GotTensor(t: Tensor)

  /** The plain handler: a map from tags to tensors, and where training is in its iteration. */
  datatype Plain = Plain(layers: nat, back: bool, current: nat, count: nat, saved: map<Tag, Tensor>)

  /** The forward pass is on, or the backward pass is over and everything has been popped. */
  predicate InForward(p: Plain) {
    !p.back || (p.current == 0 && p.saved == map[])
  }

  /** Tensors of one layer that share a dedup key have the same flattened content. */
  predicate KeyAgrees(p: Plain, t: Tensor) {
    forall tag :: tag in p.saved && tag.group == p.current && p.saved[tag].key == t.key ==> p.saved[tag].data == t.data
  }

  /** L forward commits, then L backward commits; pushes of a layer precede its forward
      commit, pops of a layer follow its backward commit, and a tag is popped once. */
  predicate Allowed(p: Plain, e: Event) {
    match e
    case PushTensor(t) => InForward(p) && p.current < p.layers && WellFormed(t)
    case ForwardCommit => InForward(p) && p.current < p.layers
    case BackwardCommit => if p.back then p.current > 0 else p.current == p.layers && p.layers > 0
    case PopTensor(tag) => p.back && tag in p.saved && tag.group >= p.current
  }

  /** And what is pushed agrees with what the layer has pushed under the same key. */
  predicate Legal(p: Plain, e: Event) {
    Allowed(p, e) && (e.PushTensor? ==> KeyAgrees(p, e.t))
  }

  /** The plain map has an answer; every legal event is one of these. */
  predicate Answerable(p: Plain, e: Event) {
    match e
    case BackwardCommit => p.current > 0
    case PopTensor(tag) => tag in p.saved
    case _ => true
  }

  function PlainStep(p: Plain, e: Event): (Plain, Output)
    requires Answerable(p, e)
  {
    match e
    case PushTensor(t) =>
      var tag := Tag(p.current, p.count);
      (p.(back := false, count := p.count + 1, saved := p.saved[tag := t]), GotTag(tag))
    case ForwardCommit => (p.(back := false, current := p.current + 1, count := 0), Nothing)
    case BackwardCommit => (p.(back := true, current := p.current - 1), Nothing)
    case PopTensor(tag) => (p.(saved := p.saved - {tag}), GotTensor(p.saved[tag]))
  }

  function HandlerStep(h: Handler, e: Event): Result<(Handler, Output), Fault> {
    match e
    case PushTensor(t) =>
      (match Push(h, t)
       case Err(f) => Err(f)
       case Ok((h', tag)) => Ok((h', GotTag(tag))))
    case ForwardCommit =>
      (match CommitForward(h)
       case Err(f) => Err(f)
       case Ok(h') => Ok((h', Nothing)))
    case BackwardCommit =>
      (match CommitBackward(h)
       case Err(f) => Err(f)
       case Ok(h') => Ok((h', Nothing)))
    case PopTensor(tag) =>
      (match Pop(h, tag)
       case Err(f) => Err(f)
       case Ok((h', t)) => Ok((h', GotTensor(t))))
  }

  /** Equal up to the storage address of a tensor. */
  predicate SameOutput(a: Output, b: Output) {
    match (a, b)
    case (Nothing, Nothing) => true
    case (GotTag(x), GotTag(y)) => x == y
    case (GotTensor(x), GotTensor(y)) => SameValue(x, y)
    case _ => false
  }

  // --------------------------------------------------------------- relation

  predicate UniqueTags(es: seq<Entry>) {
    forall i, j :: 0 <= i < j < |es| ==> es[i].tag != es[j].tag
  }

  predicate SameTags(es: seq<Entry>, saved: map<Tag, Tensor>) {
    && (forall i :: 0 <= i < |es| ==> es[i].tag in saved)
    && (forall tag :: tag in saved ==> HasTag(es, tag))
  }

  /** An entry stands for tensor t: it holds it, or the host copy of its group does. */
  predicate StandsFor(mapping: map<nat, map<nat, Tensor>>, e: Entry, t: Tensor, back: bool) {
    match e.saved
    case OnDevice(d) => SameValue(d, t) && (!back ==> d.key == t.key)
    case Offloaded(key, shape) =>
      && shape == t.shape && e.tag.group in mapping && key in mapping[e.tag.group]
      && mapping[e.tag.group][key].data == t.data
  }

  /** The entries and host copies hold what the plain map holds. */
  predicate Holds(es: seq<Entry>, mapping: map<nat, map<nat, Tensor>>, saved: map<Tag, Tensor>, back: bool) {
    && UniqueTags(es) && SameTags(es, saved)
    && forall i :: 0 <= i < |es| ==> StandsFor(mapping, es[i], saved[es[i].tag], back)
  }

  predicate Agrees(h: Handler, p: Plain) {
    Holds(h.entries, h.mapping, p.saved, p.back)
  }

  predicate Consistent(saved: map<Tag, Tensor>) {
    && (forall tag :: tag in saved ==> WellFormed(saved[tag]))
    && forall a, b :: a in saved && b in saved && a.group == b.group && saved[a].key == saved[b].key
                      ==> saved[a].data == saved[b].data
  }

  /** The backward pass: the groups whose window is still to come are the mapped ones. */
  ghost predicate BackSchedule(h: Handler, current: nat)
    requires 0 < h.groups
  {
    && 0 < h.offloaded <= h.groups
    && (h.offloaded < h.groups ==> Window(h.groups, h.layers, h.offloaded) >= current)
    && (|| (Window(h.groups, h.layers, h.offloaded - 1) < current
           && forall g: nat :: g in h.mapping <==> g < h.offloaded)
        || (h.offloaded == 1 && Window(h.groups, h.layers, 0) >= current && h.mapping == map[]))
  }

  /** offloaded_group_count and the keys of group_offload_mapping follow the windows. */
  ghost predicate Schedule(h: Handler, p: Plain)
    requires 0 < h.groups
  {
    var k := h.offloaded;
    if !p.back then
      && h.current <= h.layers && k <= h.groups
      && (k > 0 ==> Window(h.groups, h.layers, k - 1) < h.current)
      && (k < h.groups ==> Window(h.groups, h.layers, k) >= h.current)
      && (forall g: nat :: g in h.mapping <==> h.current > 0 && g <= k && g < h.groups)
    else if h.current == 0 then k == 0 && h.mapping == map[]
    else
      h.current < h.layers && BackSchedule(h, h.current)
  }

  predicate TagsInOrder(p: Plain) {
    forall tag :: tag in p.saved ==>
                    tag.group < p.layers &&
                    (!p.back ==> tag.group < p.current || (tag.group == p.current && tag.index < p.count))
  }

  ghost predicate Rel(h: Handler, p: Plain) {
    && 0 < h.groups <= h.layers && h.layers == p.layers
    && h.current == p.current && h.count == p.count
    && Agrees(h, p) && Consistent(p.saved) && TagsInOrder(p) && Schedule(h, p)
    && (forall tag :: tag in h.bufs ==> tag in p.saved)
    && (p.back || p.current == p.layers ==> p.count == 0)
  }

  lemma InitRel(groups: nat, layers: nat)
    requires 0 < groups <= layers
    ensures Rel(Init(groups, layers), Plain(layers, false, 0, 0, map[]))
  {
    WindowOfFirst(groups, layers);
  }

  lemma EntriesMeanTags(es: seq<Entry>, saved: map<Tag, Tensor>)
    requires SameTags(es, saved)
    ensures es != [] ==> saved != map[]
  {
    if es != [] {
      assert es[0].tag in saved;
    }
  }

  /** At the end of an iteration, once everything has been popped, the handler is as at first. */
  lemma IterationEndsInInit(h: Handler, p: Plain)
    requires Rel(h, p) && p.back && p.current == 0 && p.saved == map[]
    ensures h == Init(h.groups, h.layers)
  {
    EntriesMeanTags(h.entries, p.saved);
    assert h.bufs.Keys == {};
  }

  lemma ForwardForm(h: Handler, p: Plain)
    requires Rel(h, p) && InForward(p)
    ensures Rel(h, p.(back := false))
  {
    if p.back {
      IterationEndsInInit(h, p);
      InitRel(h.groups, h.layers);
    }
  }

  // --------------------------------------------------------------- push, pop

  /** Appending an entry with a new tag. */
  lemma PushHolds(h: Handler, p: Plain, h': Handler, p': Plain, tag: Tag, t: Tensor)
    requires Agrees(h, p) && !p.back && tag !in p.saved
    requires h'.entries == h.entries + [Entry(tag, OnDevice(t))] && h'.mapping == h.mapping
    requires p'.saved == p.saved[tag := t] && !p'.back
    ensures Agrees(h', p')
  {
    var es, es' := h.entries, h'.entries;
    forall x | x in p'.saved ensures HasTag(es', x) {
      if x == tag {
        assert es'[|es|].tag == tag;
      } else {
        assert HasTag(es, x);
        var i :| 0 <= i < |es| && es[i].tag == x;
        assert es'[i].tag == x;
      }
    }
    forall i | 0 <= i < |es'|
      ensures es'[i].tag in p'.saved && StandsFor(h'.mapping, es'[i], p'.saved[es'[i].tag], p'.back)
    {
      if i < |es| {
        assert es'[i] == es[i] && StandsFor(h.mapping, es[i], p.saved[es[i].tag], p.back);
      }
    }
    forall i, j | 0 <= i < j < |es'| ensures es'[i].tag != es'[j].tag {
      assert es'[i] == es[i] && es[i].tag in p.saved;
    }
  }

  lemma PushConsistent(p: Plain, t: Tensor)
    requires Consistent(p.saved) && TagsInOrder(p) && !p.back && Legal(p, PushTensor(t))
    ensures Tag(p.current, p.count) !in p.saved
    ensures Consistent(p.saved[Tag(p.current, p.count) := t])
    ensures TagsInOrder(PlainStep(p, PushTensor(t)).0)
  {
  }

  lemma PushRefines(h: Handler, p: Plain, t: Tensor)
    requires Rel(h, p) && !p.back && Legal(p, PushTensor(t))
    ensures Push(h, t).Ok?
    ensures var (h', tag) := Push(h, t).value;
            var (p', out) := PlainStep(p, PushTensor(t));
            Rel(h', p') && out == GotTag(tag)
  {
    var tag := Tag(p.current, p.count);
    PushConsistent(p, t);
    assert !HasTag(h.entries, tag);
    var h', p' := Push(h, t).value.0, PlainStep(p, PushTensor(t)).0;
    PushHolds(h, p, h', p', tag, t);
    assert Schedule(h', p');
  }

  /** Removing the entry of a tag removes exactly that tag. */
  lemma RemoveEntry(es: seq<Entry>, saved: map<Tag, Tensor>, i: nat)
    requires UniqueTags(es) && SameTags(es, saved) && i < |es|
    ensures var es' := es[..i] + es[i + 1..];
            && UniqueTags(es') && SameTags(es', saved - {es[i].tag})
            && forall k :: 0 <= k < |es'| ==> es'[k] in es
  {
    var es' := es[..i] + es[i + 1..];
    forall k | 0 <= k < |es'| ensures es'[k].tag in saved - {es[i].tag} {
      var o := if k < i then k else k + 1;
      assert es'[k] == es[o];
    }
    forall tag | tag in saved - {es[i].tag} ensures HasTag(es', tag) {
      OtherTagStays(es, i, tag);
    }
  }

  lemma OtherTagStays(es: seq<Entry>, i: nat, tag: Tag)
    requires i < |es| && HasTag(es, tag) && tag != es[i].tag
    ensures HasTag(es[..i] + es[i + 1..], tag)
  {
    var o :| 0 <= o < |es| && es[o].tag == tag;
    assert (es[..i] + es[i + 1..])[if o < i then o else o - 1].tag == tag;
  }

  /** In the backward pass a group at or above the current one has been reloaded. */
  lemma PoppedGroupIsBack(h: Handler, p: Plain, g: nat)
    requires Rel(h, p) && p.back && g >= p.current
    ensures g !in h.mapping
  {
    if g in h.mapping {
      var k := h.offloaded;
      WindowAfterOwnLayer(h.groups, h.layers, g);
      if g < k - 1 {
        WindowIncreases(h.groups, h.layers, g, k - 1);
      }
    }
  }

  lemma PopHolds(h: Handler, p: Plain, i: nat)
    requires Agrees(h, p) && i < |h.entries|
    ensures Agrees(h.(entries := h.entries[..i] + h.entries[i + 1..]), p.(saved := p.saved - {h.entries[i].tag}))
  {
    RemoveEntry(h.entries, p.saved, i);
    var es' := h.entries[..i] + h.entries[i + 1..];
    forall k | 0 <= k < |es'| ensures StandsFor(h.mapping, es'[k], p.saved[es'[k].tag], p.back) {
      assert es'[k] in h.entries;
    }
  }

  /** The handler without its i-th entry. */
  function Without(h: Handler, i: nat): Handler
    requires i < |h.entries|
  {
    h.(entries := h.entries[..i] + h.entries[i + 1..], bufs := h.bufs - {h.entries[i].tag})
  }

  lemma PopKeepsRel(h: Handler, p: Plain, i: nat)
    requires Rel(h, p) && p.back && i < |h.entries|
    ensures Rel(Without(h, i), p.(saved := p.saved - {h.entries[i].tag}))
  {
    PopHolds(h, p, i);
    var h', p' := Without(h, i), p.(saved := p.saved - {h.entries[i].tag});
    assert Agrees(h', p');
    assert Schedule(h', p');
  }

  lemma PopFindsValue(h: Handler, p: Plain, tag: Tag) returns (i: nat)
    requires Rel(h, p) && Legal(p, PopTensor(tag))
    ensures i < |h.entries| && h.entries[i].tag == tag && h.entries[i].saved.OnDevice?
    ensures Pop(h, tag) == Ok((Without(h, i), h.entries[i].saved.tensor))
    ensures SameValue(h.entries[i].saved.tensor, p.saved[tag])
  {
    assert HasTag(h.entries, tag);
    i := Find(h.entries, tag);
    PoppedGroupIsBack(h, p, tag.group);
    assert StandsFor(h.mapping, h.entries[i], p.saved[tag], p.back);
  }

  lemma PopRefines(h: Handler, p: Plain, tag: Tag)
    requires Rel(h, p) && Legal(p, PopTensor(tag))
    ensures Pop(h, tag).Ok?
    ensures var (h', t) := Pop(h, tag).value;
            Rel(h', p.(saved := p.saved - {tag})) && SameValue(t, p.saved[tag])
  {
    var i := PopFindsValue(h, p, tag);
    PopKeepsRel(h, p, i);
  }

  // ------------------------------------------------------------ bulk offload

  /** A group's copy for a key comes from the first of its tensors with that key. */
  lemma {:induction false} CopiesAreFirst(es: seq<Entry>, g: nat, n: nat, key: nat) returns (f: nat)
    requires n <= |es| && key in Copies(es, g, n)
    ensures f < n && es[f].tag.group == g && es[f].saved.OnDevice? && es[f].saved.tensor.key == key
    ensures Copies(es, g, n)[key] == es[f].saved.tensor
    ensures forall i :: 0 <= i < f && es[i].tag.group == g && es[i].saved.OnDevice? ==> es[i].saved.tensor.key != key
  {
    if key in Copies(es, g, n - 1) {
      f := CopiesAreFirst(es, g, n - 1, key);
    } else {
      f := n - 1;
      forall i | 0 <= i < f && es[i].tag.group == g && es[i].saved.OnDevice? ensures es[i].saved.tensor.key != key {
        CopiesHaveAll(es, g, n - 1, i);
      }
    }
  }

  lemma {:induction false} CopiesHaveAll(es: seq<Entry>, g: nat, n: nat, i: nat)
    requires i < n <= |es| && es[i].tag.group == g && es[i].saved.OnDevice?
    ensures es[i].saved.tensor.key in Copies(es, g, n)
  {
    if i < n - 1 {
      CopiesHaveAll(es, g, n - 1, i);
    }
  }

  /** Offloading a group whose tensors are on the device loses nothing. */
  lemma OffloadHolds(h: Handler, p: Plain, g: nat)
    requires Agrees(h, p) && !p.back && Consistent(p.saved) && g !in h.mapping
    ensures OnDeviceIn(h.entries, g) && Agrees(Offload(h, g), p)
  {
    forall i | 0 <= i < |h.entries| && h.entries[i].tag.group == g ensures h.entries[i].saved.OnDevice? {
      assert StandsFor(h.mapping, h.entries[i], p.saved[h.entries[i].tag], p.back);
    }
    var h' := Offload(h, g);
    var es, es' := h.entries, h'.entries;
    forall i | 0 <= i < |es'|
      ensures es'[i].tag == es[i].tag && StandsFor(h'.mapping, es'[i], p.saved[es'[i].tag], p.back)
    {
      assert StandsFor(h.mapping, es[i], p.saved[es[i].tag], p.back);
      if es[i].tag.group == g {
        CopiesHaveAll(es, g, |es|, i);
        var f := CopiesAreFirst(es, g, |es|, es[i].saved.tensor.key);
        assert StandsFor(h.mapping, es[f], p.saved[es[f].tag], p.back);
      }
    }
    SameTagsPointwise(es, es', p.saved);
  }

  lemma SameTagsPointwise(es: seq<Entry>, es': seq<Entry>, saved: map<Tag, Tensor>)
    requires |es'| == |es| && forall i :: 0 <= i < |es| ==> es'[i].tag == es[i].tag
    requires UniqueTags(es) && SameTags(es, saved)
    ensures UniqueTags(es') && SameTags(es', saved)
  {
    forall tag | tag in saved ensures HasTag(es', tag) {
      var i :| 0 <= i < |es| && es[i].tag == tag;
      assert es'[i].tag == tag;
    }
  }

  /** Reloading a group brings its values back. */
  lemma BulkReloadHolds(h: Handler, p: Plain, g: nat)
    requires Agrees(h, p) && p.back && Consistent(p.saved) && g < h.groups && g in h.mapping
    ensures BulkReload(h, g) == Ok(Reload(h, g)) && Agrees(Reload(h, g), p)
  {
    var m, es := h.mapping[g], h.entries;
    forall i | 0 <= i < |es| && es[i].tag.group == g && es[i].saved.Offloaded?
      ensures es[i].saved.key in m && |m[es[i].saved.key].data| == Numel(es[i].saved.shape)
    {
      assert StandsFor(h.mapping, es[i], p.saved[es[i].tag], p.back);
      assert WellFormed(p.saved[es[i].tag]);
    }
    var h' := Reload(h, g);
    var es' := h'.entries;
    forall i | 0 <= i < |es'|
      ensures es'[i].tag == es[i].tag && StandsFor(h'.mapping, es'[i], p.saved[es'[i].tag], p.back)
    {
      assert StandsFor(h.mapping, es[i], p.saved[es[i].tag], p.back);
    }
    SameTagsPointwise(es, es', p.saved);
  }

  // ----------------------------------------------------------------- commits

  ghost predicate MappedUpTo(h: Handler, k: nat) {
    forall g: nat :: g in h.mapping <==> g <= k && g < h.groups
  }

  predicate AtWindow(h: Handler)
    requires h.offloaded < h.groups
  {
    Window(h.groups, h.layers, h.offloaded) == h.current
  }

  /** The first offload of an iteration. */
  function Kickstart(h: Handler): Handler {
    if h.current == 0 then Offload(h, 0) else h
  }

  lemma KickstartHolds(h: Handler, p: Plain)
    requires 0 < h.groups <= h.layers && Agrees(h, p) && Consistent(p.saved) && !p.back && Schedule(h, p)
    ensures h.current == 0 ==> OnDeviceIn(h.entries, 0)
    ensures Agrees(Kickstart(h), p)
  {
    if h.current == 0 {
      OffloadHolds(h, p, 0);
    }
  }

  lemma KickstartMaps(h: Handler, p: Plain)
    requires 0 < h.groups <= h.layers && !p.back && Schedule(h, p)
    ensures MappedUpTo(Kickstart(h), h.offloaded)
  {
    if h.current == 0 && h.offloaded > 0 {
      WindowAfterOwnLayer(h.groups, h.layers, h.offloaded - 1);
    }
  }

  /** What the window of the next group does: free it, and offload the one after it. */
  function AfterWindow(h: Handler): Handler
    requires h.offloaded < h.groups
  {
    if !AtWindow(h) then h
    else
      (if h.offloaded < h.groups - 1 then Offload(h, h.offloaded + 1) else h)
      .(bufs := FreeBufs(h.bufs, h.offloaded), offloaded := h.offloaded + 1)
  }

  lemma SameContents(h: Handler, h': Handler, p: Plain)
    requires Agrees(h, p) && h'.entries == h.entries && h'.mapping == h.mapping
    ensures Agrees(h', p)
  {
  }

  lemma WindowHolds(h: Handler, p: Plain)
    requires Agrees(h, p) && Consistent(p.saved) && !p.back && h.offloaded < h.groups && h.offloaded + 1 !in h.mapping
    ensures AtWindow(h) && h.offloaded < h.groups - 1 ==> OnDeviceIn(h.entries, h.offloaded + 1)
    ensures Agrees(AfterWindow(h), p)
  {
    if AtWindow(h) {
      if h.offloaded < h.groups - 1 {
        OffloadHolds(h, p, h.offloaded + 1);
        SameContents(Offload(h, h.offloaded + 1), AfterWindow(h), p);
      } else {
        SameContents(h, AfterWindow(h), p);
      }
    }
  }

  lemma WindowMaps(h: Handler)
    requires h.offloaded < h.groups && MappedUpTo(h, h.offloaded)
    ensures MappedUpTo(AfterWindow(h), AfterWindow(h).offloaded)
  {
  }

  /** The handler after a forward commit. */
  function AfterForward(h: Handler): Handler
    requires h.offloaded < h.groups
  {
    AfterWindow(Kickstart(h)).(current := h.current + 1, count := 0)
  }

  lemma CommitForwardIs(h: Handler)
    requires h.offloaded < h.groups && (h.current == 0 ==> OnDeviceIn(h.entries, 0))
    requires AtWindow(h) && h.offloaded < h.groups - 1 ==> OnDeviceIn(Kickstart(h).entries, h.offloaded + 1)
    ensures CommitForward(h) == Ok(AfterForward(h))
  {
    assert AtForwardWindow(Kickstart(h)) == Ok(AfterWindow(Kickstart(h)));
  }

  lemma ForwardScheduled(h: Handler, p: Plain, h': Handler)
    requires 0 < h.groups <= h.layers && !p.back && h.layers == p.layers && h.current < h.layers && Schedule(h, p)
    requires h.offloaded < h.groups
    requires h'.groups == h.groups && h'.layers == h.layers && h'.current == h.current + 1
    requires h'.offloaded == h.offloaded + (if AtWindow(h) then 1 else 0) && MappedUpTo(h', h'.offloaded)
    ensures Schedule(h', p.(current := h'.current, count := 0))
  {
    if h.offloaded < h.groups - 1 {
      WindowIncreases(h.groups, h.layers, h.offloaded, h.offloaded + 1);
    }
  }

  /** Before the last forward commit some window is still to come. */
  lemma SomeWindowIsLeft(h: Handler, p: Plain)
    requires 0 < h.groups && !p.back && h.current < h.layers && Schedule(h, p)
    ensures h.offloaded < h.groups
  {
    WindowOfLast(h.groups, h.layers);
  }

  lemma ForwardCommits(h: Handler, p: Plain)
    requires 0 < h.groups <= h.layers && h.offloaded < h.groups
    requires Agrees(h, p) && Consistent(p.saved) && !p.back && Schedule(h, p)
    ensures CommitForward(h) == Ok(AfterForward(h)) && Agrees(AfterForward(h), p)
    ensures MappedUpTo(AfterForward(h), AfterForward(h).offloaded)
    ensures h.current == 0 ==> OnDeviceIn(h.entries, 0)
    ensures AtWindow(h) && h.offloaded < h.groups - 1 ==> OnDeviceIn(Kickstart(h).entries, h.offloaded + 1)
  {
    KickstartHolds(h, p);
    KickstartMaps(h, p);
    WindowHolds(Kickstart(h), p);
    WindowMaps(Kickstart(h));
    CommitForwardIs(h);
  }

  lemma ForwardRefines(h: Handler, p: Plain)
    requires Rel(h, p) && !p.back && Legal(p, ForwardCommit)
    ensures CommitForward(h).Ok? && Rel(CommitForward(h).value, PlainStep(p, ForwardCommit).0)
  {
    SomeWindowIsLeft(h, p);
    ForwardCommits(h, p);
    var h', p' := AfterForward(h), PlainStep(p, ForwardCommit).0;
    ForwardScheduled(h, p, h');
    assert p' == p.(current := h'.current, count := 0);
  }

  /** The window of the last group not yet reloaded has come. */
  predicate AtBackWindow(h: Handler)
    requires 0 < h.offloaded <= h.groups
  {
    Window(h.groups, h.layers, h.offloaded - 1) == h.current && h.offloaded - 1 in h.mapping
  }

  /** The handler after the window part of a backward commit. */
  function AfterBackWindow(h: Handler): Handler
    requires 0 < h.offloaded <= h.groups
  {
    if !AtBackWindow(h) then h
    else Reload(h, h.offloaded - 1).(offloaded := if h.offloaded > 1 then h.offloaded - 1 else h.offloaded)
  }

  lemma BackWindowSchedule(h: Handler)
    requires 0 < h.groups <= h.layers && BackSchedule(h, h.current + 1)
    ensures Window(h.groups, h.layers, h.offloaded - 1) == h.current ==> AtBackWindow(h)
    ensures BackSchedule(AfterBackWindow(h), h.current)
  {
    var k := h.offloaded;
    if k > 1 {
      WindowIncreases(h.groups, h.layers, k - 2, k - 1);
    }
  }

  lemma BackWindowHolds(h: Handler, p: Plain)
    requires Agrees(h, p) && Consistent(p.saved) && p.back && 0 < h.offloaded <= h.groups
    requires Window(h.groups, h.layers, h.offloaded - 1) == h.current ==> AtBackWindow(h)
    ensures AtBackwardWindow(h) == Ok(AfterBackWindow(h)) && Agrees(AfterBackWindow(h), p)
  {
    if AtBackWindow(h) {
      BulkReloadHolds(h, p, h.offloaded - 1);
      SameContents(Reload(h, h.offloaded - 1), AfterBackWindow(h), p);
    }
  }

  /** The entries after a backward commit. */
  function ReloadedEntries(h: Handler): seq<Entry>
    requires 0 < h.offloaded <= h.groups && 0 < h.current
  {
    AfterBackWindow(h.(current := h.current - 1)).entries
  }

  lemma HoldsInBackward(es: seq<Entry>, mapping: map<nat, map<nat, Tensor>>, saved: map<Tag, Tensor>, back: bool)
    requires Holds(es, mapping, saved, back)
    ensures Holds(es, mapping, saved, true)
  {
    forall i | 0 <= i < |es| ensures StandsFor(mapping, es[i], saved[es[i].tag], true) {
      assert StandsFor(mapping, es[i], saved[es[i].tag], back);
    }
  }

  /** After the last forward commit every group has had its window. */
  lemma BackScheduleStarts(h: Handler, p: Plain)
    requires 0 < h.groups <= h.layers && h.current == p.current && h.layers == p.layers
    requires Schedule(h, p) && Legal(p, BackwardCommit)
    ensures BackSchedule(h, h.current)
  {
    WindowOfLast(h.groups, h.layers);
    if !p.back && h.offloaded < h.groups - 1 {
      WindowIncreases(h.groups, h.layers, h.offloaded, h.groups - 1);
    }
  }

  /** At layer 0 every window has passed, and the count is reset. */
  function ResetAtZero(h: Handler): Handler {
    if h.current == 0 then h.(offloaded := 0) else h
  }

  lemma BackwardScheduled(h: Handler, p: Plain)
    requires 0 < h.groups <= h.layers && h.current < h.layers && BackSchedule(h, h.current) && p.back
    ensures Schedule(ResetAtZero(h), p)
  {
    WindowAfterOwnLayer(h.groups, h.layers, h.offloaded - 1);
    if h.current == 0 {
      assert h.mapping.Keys == {};
    }
  }

  /** The handler after a backward commit. */
  function AfterBackward(h: Handler): Handler
    requires 0 < h.current && 0 < h.offloaded <= h.groups
  {
    ResetAtZero(AfterBackWindow(h.(current := h.current - 1)))
  }

  lemma BackwardHolds(h: Handler, p: Plain)
    requires 0 < h.groups <= h.layers && 0 < h.current && BackSchedule(h, h.current)
    requires Agrees(h, p) && Consistent(p.saved)
    ensures CommitBackward(h) == Ok(AfterBackward(h))
    ensures Holds(AfterBackward(h).entries, AfterBackward(h).mapping, p.saved, true)
  {
    var h1 := h.(current := h.current - 1);
    HoldsInBackward(h.entries, h.mapping, p.saved, p.back);
    BackWindowSchedule(h1);
    BackWindowHolds(h1, p.(back := true));
  }

  lemma BackwardSchedules(h: Handler, p: Plain)
    requires 0 < h.groups <= h.layers && 0 < h.current <= h.layers && BackSchedule(h, h.current) && p.back
    ensures Schedule(AfterBackward(h), p)
  {
    var h1 := h.(current := h.current - 1);
    BackWindowSchedule(h1);
    BackwardScheduled(AfterBackWindow(h1), p);
  }

  lemma BackwardCommits(h: Handler, p: Plain)
    requires 0 < h.groups <= h.layers && h.current == p.current && h.layers == p.layers
    requires Agrees(h, p) && Consistent(p.saved) && Schedule(h, p) && Legal(p, BackwardCommit)
    ensures 0 < h.current && 0 < h.offloaded <= h.groups && CommitBackward(h) == Ok(AfterBackward(h))
    ensures Holds(AfterBackward(h).entries, AfterBackward(h).mapping, p.saved, true)
    ensures Schedule(AfterBackward(h), PlainStep(p, BackwardCommit).0)
  {
    BackScheduleStarts(h, p);
    BackwardHolds(h, p);
    BackwardSchedules(h, PlainStep(p, BackwardCommit).0);
  }

  lemma BackwardRefines(h: Handler, p: Plain)
    requires Rel(h, p) && Legal(p, BackwardCommit)
    ensures CommitBackward(h).Ok? && Rel(CommitBackward(h).value, PlainStep(p, BackwardCommit).0)
  {
    BackwardCommits(h, p);
  }

  // ------------------------------------------------------------- refinement

  /** One event: the handler does not fault, answers like the plain map, and stays related. */
  lemma StepRefines(h: Handler, p: Plain, e: Event)
    requires Rel(h, p) && Legal(p, e)
    ensures HandlerStep(h, e).Ok?
    ensures var (h', out) := HandlerStep(h, e).value;
            var (p', out') := PlainStep(p, e);
            Rel(h', p') && SameOutput(out, out')
  {
    match e
    case PushTensor(t) =>
      ForwardForm(h, p);
      PushRefines(h, p.(back := false), t);
    case ForwardCommit =>
      ForwardForm(h, p);
      ForwardRefines(h, p.(back := false));
    case BackwardCommit => BackwardRefines(h, p);
    case PopTensor(tag) => PopRefines(h, p, tag);
  }

  /** A whole training run of the plain map, and what it answers. */
  predicate AllowedRun(p: Plain, es: seq<Event>)
    decreases |es|
  {
    es == [] || (Allowed(p, es[0]) && AllowedRun(PlainStep(p, es[0]).0, es[1..]))
  }

  predicate LegalRun(p: Plain, es: seq<Event>): (r: bool)
    ensures r ==> AllowedRun(p, es)
    decreases |es|
  {
    es == [] || (Legal(p, es[0]) && LegalRun(PlainStep(p, es[0]).0, es[1..]))
  }

  function PlainRun(p: Plain, es: seq<Event>): (Plain, seq<Output>)
    requires AllowedRun(p, es)
    decreases |es|
  {
    if es == [] then (p, [])
    else
      var (p1, out) := PlainStep(p, es[0]);
      var (p2, outs) := PlainRun(p1, es[1..]);
      (p2, [out] + outs)
  }

  function HandlerRun(h: Handler, es: seq<Event>): Result<(Handler, seq<Output>), Fault>
    decreases |es|
  {
    if es == [] then Ok((h, []))
    else
      match HandlerStep(h, es[0])
      case Err(f) => Err(f)
      case Ok((h1, out)) =>
        match HandlerRun(h1, es[1..])
        case Err(f) => Err(f)
        case Ok((h2, outs)) => Ok((h2, [out] + outs))
  }

  predicate SameOutputs(a: seq<Output>, b: seq<Output>) {
    |a| == |b| && forall i :: 0 <= i < |a| ==> SameOutput(a[i], b[i])
  }

  lemma SameOutputsCons(a: Output, rest: seq<Output>, b: Output, rest': seq<Output>)
    requires SameOutput(a, b) && SameOutputs(rest, rest')
    ensures SameOutputs([a] + rest, [b] + rest')
  {
  }

  lemma {:induction false} RunRefines(h: Handler, p: Plain, es: seq<Event>)
    requires Rel(h, p) && LegalRun(p, es)
    ensures HandlerRun(h, es).Ok?
    ensures Rel(HandlerRun(h, es).value.0, PlainRun(p, es).0)
    ensures SameOutputs(HandlerRun(h, es).value.1, PlainRun(p, es).1)
    decreases |es|
  {
    if es != [] {
      StepRefines(h, p, es[0]);
      var (h1, out) := HandlerStep(h, es[0]).value;
      var (p1, out') := PlainStep(p, es[0]);
      RunRefines(h1, p1, es[1..]);
      SameOutputsCons(out, HandlerRun(h1, es[1..]).value.1, out', PlainRun(p1, es[1..]).1);
    }
  }

  /** Transparency: for any 1 <= G <= L, any number of iterations and any tensors, no assertion
      fails, no lookup is out of range, and every answer is the plain map's. */
  lemma OffloadIsTransparent(groups: nat, layers: nat, es: seq<Event>)
    requires 0 < groups <= layers
    requires LegalRun(Plain(layers, false, 0, 0, map[]), es)
    ensures HandlerRun(Init(groups, layers), es).Ok?
    ensures SameOutputs(HandlerRun(Init(groups, layers), es).value.1,
                        PlainRun(Plain(layers, false, 0, 0, map[]), es).1)
  {
    InitRel(groups, layers);
    RunRefines(Init(groups, layers), Plain(layers, false, 0, 0, map[]), es);
  }

  /** After any number of complete iterations the handler is in its initial state. */
  lemma IterationsReset(groups: nat, layers: nat, es: seq<Event>)
    requires 0 < groups <= layers
    requires LegalRun(Plain(layers, false, 0, 0, map[]), es)
    requires var p := PlainRun(Plain(layers, false, 0, 0, map[]), es).0;
             p.back && p.current == 0 && p.saved == map[]
    ensures HandlerRun(Init(groups, layers), es).Ok?
    ensures HandlerRun(Init(groups, layers), es).value.0 == Init(groups, layers)
  {
    InitRel(groups, layers);
    RunRefines(Init(groups, layers), Plain(layers, false, 0, 0, map[]), es);
    IterationEndsInInit(HandlerRun(Init(groups, layers), es).value.0,
                        PlainRun(Plain(layers, false, 0, 0, map[]), es).0);
    SizesNeverChange(Init(groups, layers), es);
  }

  lemma {:induction false} SizesNeverChange(h: Handler, es: seq<Event>)
    ensures HandlerRun(h, es).Ok? ==>
              HandlerRun(h, es).value.0.groups == h.groups && HandlerRun(h, es).value.0.layers == h.layers
    decreases |es|
  {
    if es != [] && HandlerStep(h, es[0]).Ok? {
      SizesNeverChange(HandlerStep(h, es[0]).value.0, es[1..]);
    }
  }
}
