/** What the offload handler answers when tensors of one layer share a storage key without having
    equal contents: a plain map that keeps, for every key of a layer that is really offloaded, the
    tensor pushed first (verl/verl/utils/activation_offload.py). */
module OffloadDedup {
  import opened Prelude
  import opened OffloadWindow
  import opened OffloadModel
  import opened OffloadTransparency
  import opened OffloadResidency

  // --------------------------------------------------- the deduplicating plain map

  /** The tensors of layer g are really offloaded. */
  predicate Moves(groups: nat, layers: nat, g: nat) {
    g < groups && (g == 0 || groups < layers)
  }

  /** The first of n tensors of layer g that has the key. */
  function FirstOfKey(saved: map<Tag, Tensor>, g: nat, n: nat, key: nat): (r: Option<Tensor>)
    ensures r.Some? ==>
              exists k: nat :: k < n && Tag(g, k) in saved && saved[Tag(g, k)] == r.value && r.value.key == key
    ensures r == None ==> forall k: nat :: k < n && Tag(g, k) in saved ==> saved[Tag(g, k)].key != key
  {
    if n == 0 then None
    else
      var before := FirstOfKey(saved, g, n - 1, key);
      if before.Some? then before
      else if Tag(g, n - 1) in saved && saved[Tag(g, n - 1)].key == key then Some(saved[Tag(g, n - 1)])
      else None
  }

  /** What the map keeps for a tensor: the first of its key in its layer, if the layer is really
      offloaded; otherwise itself, under a key of its own. */
  function Recast(groups: nat, q: Plain, t: Tensor): Tensor {
    if Moves(groups, q.layers, q.current) then
      match FirstOfKey(q.saved, q.current, q.count, t.key)
      case Some(first) => first
      case None => t
    else t.(key := q.count)
  }

  function RecastEvent(groups: nat, q: Plain, e: Event): Event {
    if e.PushTensor? then PushTensor(Recast(groups, q, e.t)) else e
  }

  function DedupStep(groups: nat, q: Plain, e: Event): (Plain, Output)
    requires Answerable(q, e)
  {
    PlainStep(q, RecastEvent(groups, q, e))
  }

  predicate DedupAnswerable(groups: nat, q: Plain, es: seq<Event>)
    decreases |es|
  {
    es == [] || (Answerable(q, es[0]) && DedupAnswerable(groups, DedupStep(groups, q, es[0]).0, es[1..]))
  }

  function DedupRun(groups: nat, q: Plain, es: seq<Event>): seq<Output>
    requires DedupAnswerable(groups, q, es)
    decreases |es|
  {
    if es == [] then []
    else
      var (q1, out) := DedupStep(groups, q, es[0]);
      [out] + DedupRun(groups, q1, es[1..])
  }

  // -------------------------------------- the plain map and the deduplicating one

  predicate TwinTensors(moves: bool, index: nat, a: Tensor, b: Tensor) {
    WellFormed(a) && if moves then a.key == b.key else SameValue(a, b) && b.key == index
  }

  /** p is the plain map and q the deduplicating one, after the same events. */
  predicate Twin(groups: nat, p: Plain, q: Plain) {
    && p.layers == q.layers && p.back == q.back && p.current == q.current && p.count == q.count
    && p.saved.Keys == q.saved.Keys
    && forall tag :: tag in p.saved && tag in q.saved ==>
         TwinTensors(Moves(groups, p.layers, tag.group), tag.index, p.saved[tag], q.saved[tag])
  }

  lemma TwinsAllow(groups: nat, p: Plain, q: Plain, e: Event)
    requires Twin(groups, p, q) && Allowed(p, e)
    ensures Allowed(q, e) && Answerable(q, e)
    ensures Twin(groups, PlainStep(p, e).0, DedupStep(groups, q, e).0)
  {
    assert p.saved == map[] ==> q.saved.Keys == {};
  }

  /** What the deduplicating map is given agrees on the keys of every layer. */
  lemma RecastIsLegal(groups: nat, p: Plain, q: Plain, e: Event)
    requires Twin(groups, p, q) && Consistent(q.saved) && TagsInOrder(q) && Allowed(q, e)
    ensures Legal(q, RecastEvent(groups, q, e))
  {
    if e.PushTensor? {
      var t := Recast(groups, q, e.t);
      forall tag | tag in q.saved && tag.group == q.current && q.saved[tag].key == t.key
        ensures q.saved[tag].data == t.data
      {
        assert tag in p.saved;
        assert tag == Tag(q.current, tag.index) && tag.index < q.count;
      }
    }
  }

  // --------------------------------------------- two handlers, with the same events

  /** An entry of the handler, and the one of a handler that is given the deduplicated tensors. */
  predicate EntryTwin(moves: bool, back: bool, a: Tensor, b: Tensor, e: Entry, f: Entry) {
    e.tag == f.tag &&
    match (e.saved, f.saved)
    case (OnDevice(d), OnDevice(c)) =>
      if moves && back then d.shape == a.shape && d.data == b.data
      else d == a && (moves ==> d.key == c.key)
    case (Offloaded(key, shape), Offloaded(key', _)) => moves && key == key' && shape == a.shape
    case _ => false
  }

  predicate EntriesTwin(groups: nat, p: Plain, q: Plain, back: bool, es: seq<Entry>, fs: seq<Entry>) {
    |es| == |fs| &&
    forall i :: 0 <= i < |es| ==>
      && es[i].tag in p.saved && es[i].tag in q.saved
      && EntryTwin(Moves(groups, p.layers, es[i].tag.group), back, p.saved[es[i].tag], q.saved[es[i].tag], es[i], fs[i])
  }

  /** Before a layer is offloaded, the first tensor of each key is its own twin. */
  predicate OwnOrLater(moves: bool, es: seq<Entry>, fs: seq<Entry>, i: nat)
    requires i < |es| == |fs|
  {
    moves && es[i].saved.OnDevice? ==>
      || es[i].saved == fs[i].saved
      || exists j :: 0 <= j < i && KeyBefore(es, i, j)
  }

  predicate KeyBefore(es: seq<Entry>, i: nat, j: nat)
    requires i < |es| && j < |es| && es[i].saved.OnDevice?
  {
    es[j].tag.group == es[i].tag.group && es[j].saved.OnDevice? && es[j].saved.tensor.key == es[i].saved.tensor.key
  }

  predicate FirstsAreOwn(groups: nat, layers: nat, es: seq<Entry>, fs: seq<Entry>)
    requires |es| == |fs|
  {
    forall i :: 0 <= i < |es| ==> OwnOrLater(Moves(groups, layers, es[i].tag.group), es, fs, i)
  }

  /** The handlers differ in the contents of their entries and in the device references only. */
  predicate SameShell(h: Handler, k: Handler) {
    h == k.(entries := h.entries, bufs := h.bufs)
  }

  ghost predicate Sim(h: Handler, k: Handler, p: Plain, q: Plain) {
    && Exact(k, q) && Twin(k.groups, p, q) && SameShell(h, k)
    && EntriesTwin(k.groups, p, q, p.back, h.entries, k.entries)
    && (!p.back ==> FirstsAreOwn(k.groups, p.layers, h.entries, k.entries))
  }

  lemma TwinsHaveSameTags(groups: nat, p: Plain, q: Plain, back: bool, es: seq<Entry>, fs: seq<Entry>, tag: Tag)
    requires EntriesTwin(groups, p, q, back, es, fs)
    ensures HasTag(es, tag) <==> HasTag(fs, tag)
    ensures Find(es, tag) == Find(fs, tag)
    decreases |es|
  {
    if es != [] {
      TwinsHaveSameTags(groups, p, q, back, es[1..], fs[1..], tag);
      assert HasTag(es, tag) ==> Find(es, tag) < |es|;
      assert HasTag(fs, tag) ==> Find(fs, tag) < |fs|;
    }
  }

  // ------------------------------------------------------------------ push and pop

  /** A new iteration begins where the first one began. */
  lemma SimForward(h: Handler, k: Handler, p: Plain, q: Plain)
    requires Sim(h, k, p, q) && InForward(p)
    ensures Sim(h, k, p.(back := false), q.(back := false))
  {
    if p.back {
      assert q.saved.Keys == {};
      assert q.saved == map[];
      ForwardForm(k, q);
      IterationEndsInInit(k, q);
      assert k.entries == [] && h.entries == [];
    }
  }

  lemma PushTwins(groups: nat, p: Plain, q: Plain, es: seq<Entry>, fs: seq<Entry>, tag: Tag, t: Tensor, u: Tensor)
    requires EntriesTwin(groups, p, q, false, es, fs) && tag !in p.saved && tag !in q.saved
    requires Moves(groups, p.layers, tag.group) ==> t.key == u.key
    ensures EntriesTwin(groups, p.(saved := p.saved[tag := t]), q.(saved := q.saved[tag := u]), false,
                        es + [Entry(tag, OnDevice(t))], fs + [Entry(tag, OnDevice(u))])
  {
    var es', fs' := es + [Entry(tag, OnDevice(t))], fs + [Entry(tag, OnDevice(u))];
    forall i | 0 <= i < |es| ensures es'[i] == es[i] && fs'[i] == fs[i] && es[i].tag != tag {
    }
  }

  lemma PushKeepsFirsts(groups: nat, layers: nat, es: seq<Entry>, fs: seq<Entry>, e: Entry, f: Entry)
    requires |es| == |fs| && FirstsAreOwn(groups, layers, es, fs) && e.saved.OnDevice?
    requires Moves(groups, layers, e.tag.group) ==>
               e.saved == f.saved || exists j :: 0 <= j < |es| && KeyBefore(es + [e], |es|, j)
    ensures FirstsAreOwn(groups, layers, es + [e], fs + [f])
  {
    var es', fs' := es + [e], fs + [f];
    forall i | 0 <= i < |es'| ensures OwnOrLater(Moves(groups, layers, es'[i].tag.group), es', fs', i) {
      if i < |es| {
        assert es'[i] == es[i] && fs'[i] == fs[i];
        assert OwnOrLater(Moves(groups, layers, es[i].tag.group), es, fs, i);
        if j :| Moves(groups, layers, es[i].tag.group) && es[i].saved.OnDevice? && 0 <= j < i && KeyBefore(es, i, j) {
          assert es'[j] == es[j] && KeyBefore(es', i, j);
        }
      }
    }
  }

  /** The tensor that stands for a later one of its key is on the device, like the one pushed. */
  lemma EarlierIsOnDevice(groups: nat, p: Plain, q: Plain, es: seq<Entry>, fs: seq<Entry>, last: int, key: nat,
                          f: Entry)
    returns (j: nat)
    requires EntriesTwin(groups, p, q, false, es, fs) && SameTags(fs, q.saved) && Moves(groups, p.layers, p.current)
    requires Twin(groups, p, q) && FirstOfKey(q.saved, q.current, q.count, key).Some?
    requires f.tag.group == q.current && f.saved.OnDevice? && TuplesUpTo(fs + [f], last, groups, p.layers)
    ensures j < |es| && es[j].tag.group == p.current && es[j].saved.OnDevice? && es[j].saved.tensor.key == key
  {
    var i: nat :| i < q.count && Tag(q.current, i) in q.saved && q.saved[Tag(q.current, i)].key == key;
    j := EntryOfTag(fs, q.saved, Tag(q.current, i));
    SameLayerOnDevice(fs, f, last, groups, p.layers, j);
    assert es[j].tag == fs[j].tag == Tag(q.current, i) && es[j].tag in p.saved;
  }

  lemma EntryOfTag(fs: seq<Entry>, saved: map<Tag, Tensor>, tag: Tag) returns (j: nat)
    requires SameTags(fs, saved) && tag in saved
    ensures j < |fs| && fs[j].tag == tag
  {
    assert HasTag(fs, tag);
    j :| 0 <= j < |fs| && fs[j].tag == tag;
  }

  lemma SameLayerOnDevice(fs: seq<Entry>, f: Entry, last: int, groups: nat, layers: nat, j: nat)
    requires TuplesUpTo(fs + [f], last, groups, layers) && f.saved.OnDevice?
    requires j < |fs| && fs[j].tag.group == f.tag.group
    ensures fs[j].saved.OnDevice?
  {
    assert (fs + [f])[j] == fs[j] && (fs + [f])[|fs|] == f;
  }

  lemma PushKeepsTwins(groups: nat, p: Plain, q: Plain, es: seq<Entry>, fs: seq<Entry>, last: int, t: Tensor)
    requires EntriesTwin(groups, p, q, false, es, fs) && FirstsAreOwn(groups, p.layers, es, fs)
    requires Twin(groups, p, q) && SameTags(fs, q.saved) && Tag(p.current, p.count) !in p.saved
    requires var f := Entry(Tag(p.current, p.count), OnDevice(Recast(groups, q, t)));
             TuplesUpTo(fs + [f], last, groups, p.layers)
    ensures var tag, u := Tag(p.current, p.count), Recast(groups, q, t);
            var es', fs' := es + [Entry(tag, OnDevice(t))], fs + [Entry(tag, OnDevice(u))];
            && EntriesTwin(groups, p.(saved := p.saved[tag := t]), q.(saved := q.saved[tag := u]), false, es', fs')
            && FirstsAreOwn(groups, p.layers, es', fs')
  {
    var tag, u := Tag(p.current, p.count), Recast(groups, q, t);
    var e, f := Entry(tag, OnDevice(t)), Entry(tag, OnDevice(u));
    assert Moves(groups, p.layers, p.current) ==> t.key == u.key;
    PushTwins(groups, p, q, es, fs, tag, t, u);
    if Moves(groups, p.layers, p.current) && e.saved != f.saved {
      var j := EarlierIsOnDevice(groups, p, q, es, fs, last, t.key, f);
      assert (es + [e])[j] == es[j] && (es + [e])[|es|] == e;
      assert KeyBefore(es + [e], |es|, j);
    }
    PushKeepsFirsts(groups, p.layers, es, fs, e, f);
  }

  /** What is pushed to the second handler is legal, and keeps it exact. */
  lemma RecastStepIsExact(k: Handler, p: Plain, q: Plain, e: Event)
    requires Exact(k, q) && Twin(k.groups, p, q) && Allowed(p, e)
    ensures var e' := RecastEvent(k.groups, q, e);
            && Legal(q, e') && HandlerStep(k, e').Ok?
            && Exact(HandlerStep(k, e').value.0, PlainStep(q, e').0)
            && Twin(k.groups, PlainStep(p, e).0, PlainStep(q, e').0)
  {
    TwinsAllow(k.groups, p, q, e);
    RecastIsLegal(k.groups, p, q, e);
    StepKeepsExact(k, q, RecastEvent(k.groups, q, e));
  }

  lemma PushSucceeds(h: Handler, k: Handler, p: Plain, q: Plain, t: Tensor, u: Tensor)
    requires EntriesTwin(k.groups, p, q, false, h.entries, k.entries) && SameShell(h, k)
    requires Push(k, u).Ok?
    ensures Push(h, t).Ok? && Push(h, t).value.1 == Push(k, u).value.1
    ensures Push(h, t).value.0.entries == h.entries + [Entry(Tag(k.current, k.count), OnDevice(t))]
    ensures Push(k, u).value.0.entries == k.entries + [Entry(Tag(k.current, k.count), OnDevice(u))]
    ensures SameShell(Push(h, t).value.0, Push(k, u).value.0)
  {
    TwinsHaveSameTags(k.groups, p, q, false, h.entries, k.entries, Tag(k.current, k.count));
  }

  lemma NewTag(q: Plain, p: Plain)
    requires TagsInOrder(q) && !q.back && p.saved.Keys == q.saved.Keys && p.current == q.current && p.count == q.count
    ensures Tag(p.current, p.count) !in p.saved
  {
    assert Tag(p.current, p.count) in p.saved ==> Tag(p.current, p.count) in q.saved;
  }

  lemma PushSim(h: Handler, k: Handler, p: Plain, q: Plain, t: Tensor)
    requires Sim(h, k, p, q) && !p.back && Allowed(p, PushTensor(t))
    ensures var u := Recast(k.groups, q, t);
            && Push(h, t).Ok? && Push(k, u).Ok? && Push(h, t).value.1 == Push(k, u).value.1 == Tag(p.current, p.count)
            && Sim(Push(h, t).value.0, Push(k, u).value.0, PlainStep(p, PushTensor(t)).0, PlainStep(q, PushTensor(u)).0)
  {
    var u := Recast(k.groups, q, t);
    RecastStepIsExact(k, p, q, PushTensor(t));
    PushSucceeds(h, k, p, q, t, u);
    NewTag(q, p);
    var k' := Push(k, u).value.0;
    PushKeepsTwins(k.groups, p, q, h.entries, k.entries, if k'.current == 0 then -1 else k'.offloaded, t);
  }

  // --------------------------------------------------------------- forward commits

  predicate NoneOf(es: seq<Entry>, g: nat) {
    forall i :: 0 <= i < |es| ==> es[i].tag.group != g
  }

  /** The host copies of a layer that moves are the same: they come from the first of each key. */
  lemma {:induction false} CopiesTwin(groups: nat, p: Plain, q: Plain, es: seq<Entry>, fs: seq<Entry>, g: nat, n: nat)
    requires EntriesTwin(groups, p, q, false, es, fs) && FirstsAreOwn(groups, p.layers, es, fs) && n <= |es|
    requires Moves(groups, p.layers, g) || NoneOf(es, g)
    ensures Copies(es, g, n) == Copies(fs, g, n)
  {
    if n > 0 {
      CopiesTwin(groups, p, q, es, fs, g, n - 1);
      var last: nat := n - 1;
      if es[last].tag.group == g && es[last].saved.OnDevice? && es[last].saved.tensor.key !in Copies(es, g, last) {
        assert OwnOrLater(Moves(groups, p.layers, g), es, fs, last);
        if j :| 0 <= j < last && KeyBefore(es, last, j) {
          CopiesHaveAll(es, g, last, j);
        }
      }
    }
  }

  lemma OnDeviceTwins(groups: nat, p: Plain, q: Plain, es: seq<Entry>, fs: seq<Entry>, g: nat)
    requires EntriesTwin(groups, p, q, false, es, fs)
    ensures OnDeviceIn(es, g) <==> OnDeviceIn(fs, g)
    ensures NoneOf(es, g) <==> NoneOf(fs, g)
  {
    forall i | 0 <= i < |es|
      ensures es[i].tag == fs[i].tag && (es[i].saved.OnDevice? <==> fs[i].saved.OnDevice?)
    {
      assert es[i].tag in p.saved;
    }
  }

  lemma OffloadTwins(groups: nat, p: Plain, q: Plain, es: seq<Entry>, fs: seq<Entry>, g: nat)
    requires EntriesTwin(groups, p, q, false, es, fs) && FirstsAreOwn(groups, p.layers, es, fs)
    requires Moves(groups, p.layers, g) || NoneOf(es, g)
    ensures EntriesTwin(groups, p, q, false, OffloadEntries(es, g), OffloadEntries(fs, g))
    ensures FirstsAreOwn(groups, p.layers, OffloadEntries(es, g), OffloadEntries(fs, g))
  {
    var es', fs' := OffloadEntries(es, g), OffloadEntries(fs, g);
    forall i | 0 <= i < |es'| ensures OwnOrLater(Moves(groups, p.layers, es'[i].tag.group), es', fs', i) {
      assert OwnOrLater(Moves(groups, p.layers, es[i].tag.group), es, fs, i);
      if j :| es'[i].saved.OnDevice? && es[i].saved.OnDevice? && 0 <= j < i && KeyBefore(es, i, j) {
        assert es'[j] == es[j] && KeyBefore(es', i, j);
      }
    }
  }

  /** Two handlers in the forward pass, without what the schedule says. */
  predicate ForwardTwins(h: Handler, k: Handler, p: Plain, q: Plain) {
    && SameShell(h, k) && EntriesTwin(k.groups, p, q, false, h.entries, k.entries)
    && FirstsAreOwn(k.groups, p.layers, h.entries, k.entries)
  }

  lemma OffloadSim(h: Handler, k: Handler, p: Plain, q: Plain, g: nat)
    requires ForwardTwins(h, k, p, q) && (Moves(k.groups, p.layers, g) || NoneOf(k.entries, g))
    ensures ForwardTwins(Offload(h, g), Offload(k, g), p, q)
  {
    OnDeviceTwins(k.groups, p, q, h.entries, k.entries, g);
    OffloadTwins(k.groups, p, q, h.entries, k.entries, g);
    CopiesTwin(k.groups, p, q, h.entries, k.entries, g, |h.entries|);
  }

  lemma KickstartSim(h: Handler, k: Handler, p: Plain, q: Plain)
    requires ForwardTwins(h, k, p, q) && 0 < k.groups && (k.current == 0 ==> OnDeviceIn(k.entries, 0))
    ensures ForwardTwins(Kickstart(h), Kickstart(k), p, q)
    ensures h.current == 0 ==> OnDeviceIn(h.entries, 0)
  {
    OnDeviceTwins(k.groups, p, q, h.entries, k.entries, 0);
    if k.current == 0 {
      OffloadSim(h, k, p, q, 0);
    }
  }

  lemma WindowSim(h: Handler, k: Handler, p: Plain, q: Plain)
    requires ForwardTwins(h, k, p, q) && k.offloaded < k.groups
    requires var g := k.offloaded + 1;
             AtWindow(k) && g < k.groups ==>
               OnDeviceIn(k.entries, g) && (Moves(k.groups, p.layers, g) || NoneOf(k.entries, g))
    ensures ForwardTwins(AfterWindow(h), AfterWindow(k), p, q)
    ensures AtWindow(h) <==> AtWindow(k)
    ensures AtWindow(k) && k.offloaded + 1 < k.groups ==> OnDeviceIn(h.entries, k.offloaded + 1)
  {
    OnDeviceTwins(k.groups, p, q, h.entries, k.entries, k.offloaded + 1);
    if AtWindow(k) && k.offloaded + 1 < k.groups {
      OffloadSim(h, k, p, q, k.offloaded + 1);
    }
  }

  /** A layer that is offloaded with tensors in it moves. */
  lemma OffloadedMoves(es: seq<Entry>, g: nat, last: int, groups: nat, layers: nat)
    requires OnDeviceIn(es, g) && TuplesUpTo(OffloadEntries(es, g), last, groups, layers)
    ensures Moves(groups, layers, g) || NoneOf(es, g)
  {
    if i :| 0 <= i < |es| && es[i].tag.group == g {
      assert OffloadEntries(es, g)[i] == OffloadEntry(es[i], g);
    }
  }

  lemma CommitForwardSim(h: Handler, k: Handler, p: Plain, q: Plain)
    requires ForwardTwins(h, k, p, q) && 0 < k.groups && k.offloaded < k.groups
    requires k.current == 0 ==> OnDeviceIn(k.entries, 0)
    requires var g, es := k.offloaded + 1, Kickstart(k).entries;
             AtWindow(k) && g < k.groups ==> OnDeviceIn(es, g) && (Moves(k.groups, p.layers, g) || NoneOf(es, g))
    ensures CommitForward(h) == Ok(AfterForward(h)) && ForwardTwins(AfterForward(h), AfterForward(k), p, q)
  {
    KickstartSim(h, k, p, q);
    WindowSim(Kickstart(h), Kickstart(k), p, q);
    CommitForwardIs(h);
  }

  lemma WindowMovesOrIsEmpty(k: Handler, q: Plain, layers: nat)
    requires k.offloaded < k.groups && k.layers == layers && OffloadedExactly(AfterForward(k))
    requires AtWindow(k) && k.offloaded + 1 < k.groups ==> OnDeviceIn(Kickstart(k).entries, k.offloaded + 1)
    ensures var g, es := k.offloaded + 1, Kickstart(k).entries;
            AtWindow(k) && g < k.groups ==> Moves(k.groups, layers, g) || NoneOf(es, g)
  {
    if AtWindow(k) && k.offloaded + 1 < k.groups {
      OffloadedMoves(Kickstart(k).entries, k.offloaded + 1, AfterForward(k).offloaded, k.groups, layers);
    }
  }

  lemma ForwardIsExact(k: Handler, q: Plain)
    requires Exact(k, q) && !q.back && Allowed(q, ForwardCommit)
    ensures k.layers == q.layers && 0 < k.groups && k.offloaded < k.groups
    ensures CommitForward(k) == Ok(AfterForward(k)) && Exact(AfterForward(k), PlainStep(q, ForwardCommit).0)
    ensures k.current == 0 ==> OnDeviceIn(k.entries, 0)
    ensures AtWindow(k) && k.offloaded + 1 < k.groups ==> OnDeviceIn(Kickstart(k).entries, k.offloaded + 1)
  {
    SomeWindowIsLeft(k, q);
    ForwardCommits(k, q);
    StepKeepsExact(k, q, ForwardCommit);
  }

  lemma ForwardSim(h: Handler, k: Handler, p: Plain, q: Plain)
    requires Sim(h, k, p, q) && !p.back && Allowed(p, ForwardCommit)
    ensures CommitForward(h).Ok? && CommitForward(k).Ok?
    ensures Sim(CommitForward(h).value, CommitForward(k).value,
                PlainStep(p, ForwardCommit).0, PlainStep(q, ForwardCommit).0)
  {
    TwinsAllow(k.groups, p, q, ForwardCommit);
    ForwardIsExact(k, q);
    WindowMovesOrIsEmpty(k, q, p.layers);
    CommitForwardSim(h, k, p, q);
    SamePlains(h, k, p, q, AfterForward(h), AfterForward(k));
    SimInForward(AfterForward(h), AfterForward(k), PlainStep(p, ForwardCommit).0, PlainStep(q, ForwardCommit).0);
  }

  lemma SimInForward(h: Handler, k: Handler, p: Plain, q: Plain)
    requires !p.back && Exact(k, q) && Twin(k.groups, p, q) && SameShell(h, k)
    requires EntriesTwin(k.groups, p, q, false, h.entries, k.entries)
    requires FirstsAreOwn(k.groups, p.layers, h.entries, k.entries)
    ensures Sim(h, k, p, q)
  {
  }

  /** Where a plain map is in its iteration does not matter to the twins. */
  lemma SamePlains(h: Handler, k: Handler, p: Plain, q: Plain, h': Handler, k': Handler)
    requires ForwardTwins(h', k', p, q) && k'.groups == k.groups
    ensures var p', q' := PlainStep(p, ForwardCommit).0, PlainStep(q, ForwardCommit).0;
            && EntriesTwin(k.groups, p', q', false, h'.entries, k'.entries)
            && FirstsAreOwn(k.groups, p'.layers, h'.entries, k'.entries)
  {
  }

  // -------------------------------------------------------------- backward commits

  /** Every view that a reload makes has as many elements as its shape says. */
  predicate AllFit(groups: nat, p: Plain, q: Plain) {
    forall tag :: tag in p.saved && tag in q.saved && Moves(groups, p.layers, tag.group) ==>
      |q.saved[tag].data| == Numel(p.saved[tag].shape)
  }

  /** When the backward pass begins, every layer that moves has been offloaded. */
  lemma TurnTwins(k: Handler, p: Plain, q: Plain, es: seq<Entry>)
    requires Exact(k, q) && Twin(k.groups, p, q) && !q.back && q.current == q.layers
    requires EntriesTwin(k.groups, p, q, false, es, k.entries)
    ensures EntriesTwin(k.groups, p, q, true, es, k.entries)
  {
    AllGroupsHadTheirWindow(k, q);
    forall i | 0 <= i < |es|
      ensures Moves(k.groups, p.layers, es[i].tag.group) ==> es[i].saved.Offloaded?
    {
      assert es[i].tag == k.entries[i].tag;
    }
  }

  predicate AllStand(k: Handler, q: Plain) {
    forall i :: 0 <= i < |k.entries| ==>
      k.entries[i].tag in q.saved && StandsFor(k.mapping, k.entries[i], q.saved[k.entries[i].tag], q.back)
  }

  lemma ReloadSim(h: Handler, k: Handler, p: Plain, q: Plain, g: nat)
    requires SameShell(h, k) && EntriesTwin(k.groups, p, q, true, h.entries, k.entries) && AllStand(k, q)
    requires BulkReload(k, g).Ok?
    ensures BulkReload(h, g).Err? ==> BulkReload(h, g) == Err(BadView) && !AllFit(k.groups, p, q)
    ensures BulkReload(h, g).Ok? ==>
              && BulkReload(h, g) == Ok(Reload(h, g)) && BulkReload(k, g) == Ok(Reload(k, g))
              && SameShell(Reload(h, g), Reload(k, g))
              && EntriesTwin(k.groups, p, q, true, Reload(h, g).entries, Reload(k, g).entries)
  {
    var es, fs, m := h.entries, k.entries, k.mapping[g];
    forall i | 0 <= i < |es| && es[i].tag.group == g && es[i].saved.Offloaded?
      ensures es[i].saved.key in m && m[es[i].saved.key].data == q.saved[es[i].tag].data
    {
      assert StandsFor(k.mapping, fs[i], q.saved[fs[i].tag], q.back);
    }
    if !ViewsFit(es, g, m) {
      var i :| 0 <= i < |es| && es[i].tag.group == g && es[i].saved.Offloaded?
               && |m[es[i].saved.key].data| != Numel(es[i].saved.shape);
      assert |q.saved[es[i].tag].data| != Numel(p.saved[es[i].tag].shape);
    } else {
      ReloadTwins(k.groups, p, q, es, fs, g, m);
    }
  }

  lemma ReloadTwins(groups: nat, p: Plain, q: Plain, es: seq<Entry>, fs: seq<Entry>, g: nat, m: map<nat, Tensor>)
    requires EntriesTwin(groups, p, q, true, es, fs)
    requires forall i :: 0 <= i < |es| && es[i].tag.group == g && es[i].saved.Offloaded? ==>
               es[i].saved.key in m && m[es[i].saved.key].data == q.saved[es[i].tag].data
    ensures EntriesTwin(groups, p, q, true, ReloadEntries(es, g, m), ReloadEntries(fs, g, m))
  {
    var es', fs' := ReloadEntries(es, g, m), ReloadEntries(fs, g, m);
    forall i | 0 <= i < |es'| ensures es'[i] == ReloadEntry(es[i], g, m) && fs'[i] == ReloadEntry(fs[i], g, m) {
    }
  }

  /** The window part of a backward commit; both handlers have been decremented. */
  lemma BackWindowSim(h: Handler, k: Handler, p: Plain, q: Plain)
    requires SameShell(h, k) && EntriesTwin(k.groups, p, q, true, h.entries, k.entries) && AllStand(k, q)
    requires AtBackwardWindow(k).Ok?
    ensures AtBackwardWindow(h).Err? ==> AtBackwardWindow(h) == Err(BadView) && !AllFit(k.groups, p, q)
    ensures AtBackwardWindow(h).Ok? ==>
              && SameShell(AtBackwardWindow(h).value, AtBackwardWindow(k).value)
              && EntriesTwin(k.groups, p, q, true, AtBackwardWindow(h).value.entries, AtBackwardWindow(k).value.entries)
  {
    if Window(k.groups, k.layers, k.offloaded - 1) == k.current {
      ReloadSim(h, k, p, q, k.offloaded - 1);
    }
  }

  lemma CommitBackwardSim(h: Handler, k: Handler, p: Plain, q: Plain)
    requires SameShell(h, k) && EntriesTwin(k.groups, p, q, true, h.entries, k.entries) && AllStand(k, q)
    requires CommitBackward(k).Ok?
    ensures CommitBackward(h).Err? ==> CommitBackward(h) == Err(BadView) && !AllFit(k.groups, p, q)
    ensures CommitBackward(h).Ok? ==>
              && SameShell(CommitBackward(h).value, CommitBackward(k).value)
              && EntriesTwin(k.groups, p, q, true, CommitBackward(h).value.entries, CommitBackward(k).value.entries)
  {
    BackWindowSim(h.(current := h.current - 1), k.(current := k.current - 1), p, q);
  }

  /** What both handlers are like just before a backward commit. */
  lemma BackwardTwins(h: Handler, k: Handler, p: Plain, q: Plain)
    requires Sim(h, k, p, q) && Allowed(p, BackwardCommit)
    ensures SameShell(h, k) && EntriesTwin(k.groups, p, q, true, h.entries, k.entries) && AllStand(k, q)
  {
    if !p.back {
      TurnTwins(k, p, q, h.entries);
    }
  }

  lemma TwinsOfSaved(groups: nat, p: Plain, q: Plain, p': Plain, q': Plain, back: bool, es: seq<Entry>, fs: seq<Entry>)
    requires EntriesTwin(groups, p, q, back, es, fs)
    requires p'.saved == p.saved && q'.saved == q.saved && p'.layers == p.layers
    ensures EntriesTwin(groups, p', q', back, es, fs)
  {
  }

  lemma BackwardSim(h: Handler, k: Handler, p: Plain, q: Plain)
    requires Sim(h, k, p, q) && Allowed(p, BackwardCommit)
    ensures CommitBackward(h).Err? ==> CommitBackward(h) == Err(BadView) && !AllFit(k.groups, p, q)
    ensures var p', q' := PlainStep(p, BackwardCommit).0, PlainStep(q, BackwardCommit).0;
            CommitBackward(h).Ok? ==>
              CommitBackward(k).Ok? && Sim(CommitBackward(h).value, CommitBackward(k).value, p', q')
  {
    BackwardTwins(h, k, p, q);
    BackwardIsExact(k, p, q);
    CommitBackwardSim(h, k, p, q);
    if CommitBackward(h).Ok? {
      var h', k' := CommitBackward(h).value, CommitBackward(k).value;
      var p', q' := PlainStep(p, BackwardCommit).0, PlainStep(q, BackwardCommit).0;
      TwinsOfSaved(k.groups, p, q, p', q', true, h'.entries, k'.entries);
      SimInBackward(h', k', p', q');
    }
  }

  lemma SimInBackward(h: Handler, k: Handler, p: Plain, q: Plain)
    requires p.back && Exact(k, q) && Twin(k.groups, p, q) && SameShell(h, k)
    requires EntriesTwin(k.groups, p, q, true, h.entries, k.entries)
    ensures Sim(h, k, p, q)
  {
  }

  lemma BackwardIsExact(k: Handler, p: Plain, q: Plain)
    requires Exact(k, q) && Twin(k.groups, p, q) && Allowed(p, BackwardCommit)
    ensures CommitBackward(k).Ok? && CommitBackward(k).value.groups == k.groups && Answerable(q, BackwardCommit)
    ensures Exact(CommitBackward(k).value, PlainStep(q, BackwardCommit).0)
    ensures Twin(k.groups, PlainStep(p, BackwardCommit).0, PlainStep(q, BackwardCommit).0)
  {
    TwinsAllow(k.groups, p, q, BackwardCommit);
    StepKeepsExact(k, q, BackwardCommit);
  }

  // ----------------------------------------------------------------------- answers

  /** The shape of the plain map's answer with the content of the deduplicating map's. */
  predicate Mixed(out: Output, plain: Output, dedup: Output) {
    match (out, plain, dedup)
    case (Nothing, Nothing, Nothing) => true
    case (GotTag(x), GotTag(y), GotTag(z)) => x == y == z
    case (GotTensor(x), GotTensor(y), GotTensor(z)) => x.shape == y.shape && x.data == z.data
    case _ => false
  }

  lemma WithoutTwins(groups: nat, p: Plain, q: Plain, es: seq<Entry>, fs: seq<Entry>, i: nat)
    requires EntriesTwin(groups, p, q, true, es, fs) && UniqueTags(fs) && i < |es|
    ensures var tag := es[i].tag;
            EntriesTwin(groups, p.(saved := p.saved - {tag}), q.(saved := q.saved - {tag}), true,
                        es[..i] + es[i + 1..], fs[..i] + fs[i + 1..])
  {
    var tag, es', fs' := es[i].tag, es[..i] + es[i + 1..], fs[..i] + fs[i + 1..];
    forall n | 0 <= n < |es'|
      ensures var o := if n < i then n else n + 1; es'[n] == es[o] && fs'[n] == fs[o] && es[o].tag != tag
    {
      var o := if n < i then n else n + 1;
      assert es[o].tag == fs[o].tag && es[i].tag == fs[i].tag;
    }
  }

  lemma PopSim(h: Handler, k: Handler, p: Plain, q: Plain, tag: Tag)
    requires Sim(h, k, p, q) && Allowed(p, PopTensor(tag))
    ensures Pop(h, tag).Ok? && Pop(k, tag).Ok?
    ensures Sim(Pop(h, tag).value.0, Pop(k, tag).value.0,
                PlainStep(p, PopTensor(tag)).0, PlainStep(q, PopTensor(tag)).0)
    ensures Pop(h, tag).value.1.shape == p.saved[tag].shape && Pop(h, tag).value.1.data == q.saved[tag].data
  {
    PopIsExact(k, p, q, tag);
    PopTwins(h, k, p, q, tag);
    SimInBackward(Pop(h, tag).value.0, Pop(k, tag).value.0,
                  PlainStep(p, PopTensor(tag)).0, PlainStep(q, PopTensor(tag)).0);
  }

  lemma PopIsExact(k: Handler, p: Plain, q: Plain, tag: Tag)
    requires Exact(k, q) && Twin(k.groups, p, q) && Allowed(p, PopTensor(tag))
    ensures Legal(q, PopTensor(tag)) && Pop(k, tag).Ok? && Pop(k, tag).value.0.groups == k.groups
    ensures Exact(Pop(k, tag).value.0, PlainStep(q, PopTensor(tag)).0)
    ensures Twin(k.groups, PlainStep(p, PopTensor(tag)).0, PlainStep(q, PopTensor(tag)).0)
  {
    TwinsAllow(k.groups, p, q, PopTensor(tag));
    StepKeepsExact(k, q, PopTensor(tag));
  }

  lemma PopFrom(h: Handler, tag: Tag, i: nat)
    requires i == Find(h.entries, tag) < |h.entries| && h.entries[i].saved.OnDevice?
    ensures Pop(h, tag) == Ok((Without(h, i), h.entries[i].saved.tensor))
  {
  }

  lemma TwinEntry(groups: nat, p: Plain, q: Plain, es: seq<Entry>, fs: seq<Entry>, i: nat)
    requires EntriesTwin(groups, p, q, true, es, fs) && Twin(groups, p, q) && i < |fs| && fs[i].saved.OnDevice?
    ensures i < |es| && es[i].saved.OnDevice? && es[i].tag == fs[i].tag && es[i].tag in p.saved && es[i].tag in q.saved
    ensures es[i].saved.tensor.shape == p.saved[es[i].tag].shape && es[i].saved.tensor.data == q.saved[es[i].tag].data
  {
  }

  lemma PopTwins(h: Handler, k: Handler, p: Plain, q: Plain, tag: Tag)
    requires Rel(k, q) && Twin(k.groups, p, q) && SameShell(h, k) && Legal(q, PopTensor(tag))
    requires EntriesTwin(k.groups, p, q, true, h.entries, k.entries)
    ensures tag in p.saved && Pop(h, tag).Ok? && Pop(k, tag).Ok?
    ensures var h', k' := Pop(h, tag).value.0, Pop(k, tag).value.0;
            && SameShell(h', k')
            && EntriesTwin(k.groups, p.(saved := p.saved - {tag}), q.(saved := q.saved - {tag}), true,
                           h'.entries, k'.entries)
    ensures Pop(h, tag).value.1.shape == p.saved[tag].shape && Pop(h, tag).value.1.data == q.saved[tag].data
  {
    var i := PopFindsValue(k, q, tag);
    FindsTheOne(k.entries, tag, i);
    TwinsHaveSameTags(k.groups, p, q, true, h.entries, k.entries, tag);
    TwinEntry(k.groups, p, q, h.entries, k.entries, i);
    PopFrom(h, tag, i);
    WithoutTwins(k.groups, p, q, h.entries, k.entries, i);
  }

  lemma FindsTheOne(es: seq<Entry>, tag: Tag, i: nat)
    requires UniqueTags(es) && i < |es| && es[i].tag == tag
    ensures Find(es, tag) == i
  {
    assert HasTag(es, tag);
  }

  /** The handler answers with the shape of the plain map's answer and the content of the
      deduplicating map's, unless a view does not fit. */
  ghost predicate Simulated(h: Handler, k: Handler, p: Plain, q: Plain, e: Event)
    requires Answerable(p, e) && Answerable(q, e)
  {
    var e' := RecastEvent(k.groups, q, e);
    match HandlerStep(h, e)
    case Err(f) => f == BadView && !AllFit(k.groups, p, q)
    case Ok((h', out)) =>
      && HandlerStep(k, e').Ok?
      && Sim(h', HandlerStep(k, e').value.0, PlainStep(p, e).0, PlainStep(q, e').0)
      && Mixed(out, PlainStep(p, e).1, PlainStep(q, e').1)
  }

  lemma PushSimulated(h: Handler, k: Handler, p: Plain, q: Plain, t: Tensor)
    requires Sim(h, k, p, q) && Allowed(p, PushTensor(t))
    ensures Simulated(h, k, p, q, PushTensor(t))
  {
    var p0, q0 := p.(back := false), q.(back := false);
    SimForward(h, k, p, q);
    PushSim(h, k, p0, q0, t);
    var u := Recast(k.groups, q, t);
    assert Recast(k.groups, q0, t) == u;
    assert PlainStep(p, PushTensor(t)) == PlainStep(p0, PushTensor(t));
    assert PlainStep(q, PushTensor(u)) == PlainStep(q0, PushTensor(u));
  }

  lemma ForwardSimulated(h: Handler, k: Handler, p: Plain, q: Plain)
    requires Sim(h, k, p, q) && Allowed(p, ForwardCommit)
    ensures Simulated(h, k, p, q, ForwardCommit)
  {
    var p0, q0 := p.(back := false), q.(back := false);
    SimForward(h, k, p, q);
    ForwardSim(h, k, p0, q0);
    assert PlainStep(p, ForwardCommit) == PlainStep(p0, ForwardCommit)
           && PlainStep(q, ForwardCommit) == PlainStep(q0, ForwardCommit);
  }

  lemma BackwardSimulated(h: Handler, k: Handler, p: Plain, q: Plain)
    requires Sim(h, k, p, q) && Allowed(p, BackwardCommit) && Answerable(q, BackwardCommit)
    ensures Simulated(h, k, p, q, BackwardCommit)
  {
    BackwardSim(h, k, p, q);
  }

  lemma PopSimulated(h: Handler, k: Handler, p: Plain, q: Plain, tag: Tag)
    requires Sim(h, k, p, q) && Allowed(p, PopTensor(tag)) && Answerable(q, PopTensor(tag))
    ensures Simulated(h, k, p, q, PopTensor(tag))
  {
    PopSim(h, k, p, q, tag);
  }

  lemma StepSim(h: Handler, k: Handler, p: Plain, q: Plain, e: Event)
    requires Sim(h, k, p, q) && Allowed(p, e)
    ensures Answerable(q, e) && Simulated(h, k, p, q, e)
  {
    TwinsAllow(k.groups, p, q, e);
    match e
    case PushTensor(t) => PushSimulated(h, k, p, q, t);
    case ForwardCommit => ForwardSimulated(h, k, p, q);
    case BackwardCommit => BackwardSimulated(h, k, p, q);
    case PopTensor(tag) => PopSimulated(h, k, p, q, tag);
  }

  // -------------------------------------------------------------------------- runs

  predicate AllMixed(outs: seq<Output>, plain: seq<Output>, dedup: seq<Output>) {
    |outs| == |plain| == |dedup| && forall i :: 0 <= i < |outs| ==> Mixed(outs[i], plain[i], dedup[i])
  }

  lemma AllMixedCons(out: Output, plain: Output, dedup: Output, outs: seq<Output>, plains: seq<Output>,
                     dedups: seq<Output>)
    requires Mixed(out, plain, dedup) && AllMixed(outs, plains, dedups)
    ensures AllMixed([out] + outs, [plain] + plains, [dedup] + dedups)
  {
  }

  lemma {:induction false} RunSim(h: Handler, k: Handler, p: Plain, q: Plain, es: seq<Event>)
    requires Sim(h, k, p, q) && AllowedRun(p, es)
    ensures DedupAnswerable(k.groups, q, es)
    ensures match HandlerRun(h, es)
            case Err(f) => f == BadView
            case Ok((_, outs)) => AllMixed(outs, PlainRun(p, es).1, DedupRun(k.groups, q, es))
    decreases |es|
  {
    if es != [] {
      StepSim(h, k, p, q, es[0]);
      DedupIsAnswerable(k.groups, p, q, es);
      if HandlerStep(h, es[0]).Ok? {
        var h', k' := HandlerStep(h, es[0]).value.0, HandlerStep(k, RecastEvent(k.groups, q, es[0])).value.0;
        var p', q' := PlainStep(p, es[0]).0, DedupStep(k.groups, q, es[0]).0;
        GroupsStay(k, RecastEvent(k.groups, q, es[0]));
        RunSim(h', k', p', q', es[1..]);
        if HandlerRun(h', es[1..]).Ok? {
          AllMixedCons(HandlerStep(h, es[0]).value.1, PlainStep(p, es[0]).1, DedupStep(k.groups, q, es[0]).1,
                       HandlerRun(h', es[1..]).value.1, PlainRun(p', es[1..]).1, DedupRun(k.groups, q', es[1..]));
        }
      }
    }
  }

  lemma GroupsStay(k: Handler, e: Event)
    requires HandlerStep(k, e).Ok?
    ensures HandlerStep(k, e).value.0.groups == k.groups
  {
  }

  lemma {:induction false} DedupIsAnswerable(groups: nat, p: Plain, q: Plain, es: seq<Event>)
    requires Twin(groups, p, q) && AllowedRun(p, es)
    ensures DedupAnswerable(groups, q, es)
    decreases |es|
  {
    if es != [] {
      TwinsAllow(groups, p, q, es[0]);
      DedupIsAnswerable(groups, PlainStep(p, es[0]).0, DedupStep(groups, q, es[0]).0, es[1..]);
    }
  }

  function Start(layers: nat): Plain {
    Plain(layers, false, 0, 0, map[])
  }

  lemma InitSim(groups: nat, layers: nat)
    requires 0 < groups <= layers
    ensures Sim(Init(groups, layers), Init(groups, layers), Start(layers), Start(layers))
  {
    InitRel(groups, layers);
  }

  /** What the handler answers, whatever shares a key: the only fault there can be is a view that
      does not fit, and each popped tensor has its own shape and the content of the first tensor
      of its key in its layer, if the layer is really offloaded, and its own otherwise. */
  lemma DedupAnswers(groups: nat, layers: nat, es: seq<Event>)
    requires 0 < groups <= layers && AllowedRun(Start(layers), es)
    ensures DedupAnswerable(groups, Start(layers), es)
    ensures match HandlerRun(Init(groups, layers), es)
            case Err(f) => f == BadView
            case Ok((_, outs)) => AllMixed(outs, PlainRun(Start(layers), es).1, DedupRun(groups, Start(layers), es))
  {
    InitSim(groups, layers);
    RunSim(Init(groups, layers), Init(groups, layers), Start(layers), Start(layers), es);
  }

  // -------------------------------------------------------- when nothing is lost

  /** Within every layer that is really offloaded, tensors pushed under one key have one content. */
  predicate KeysAgreeWhereMoved(groups: nat, p: Plain, es: seq<Event>)
    requires AllowedRun(p, es)
    decreases |es|
  {
    es == [] ||
    ((es[0].PushTensor? && Moves(groups, p.layers, p.current) ==> KeyAgrees(p, es[0].t)) &&
     KeysAgreeWhereMoved(groups, PlainStep(p, es[0]).0, es[1..]))
  }

  predicate SameData(p: Plain, q: Plain) {
    forall tag :: tag in p.saved && tag in q.saved ==> p.saved[tag].data == q.saved[tag].data
  }

  lemma SameDataStays(groups: nat, p: Plain, q: Plain, e: Event)
    requires Twin(groups, p, q) && SameData(p, q) && Allowed(p, e) && Allowed(q, e) && Answerable(q, e)
    requires e.PushTensor? && Moves(groups, p.layers, p.current) ==> KeyAgrees(p, e.t)
    ensures SameData(PlainStep(p, e).0, DedupStep(groups, q, e).0)
  {
    if e.PushTensor? && Moves(groups, p.layers, p.current) {
      var first := FirstOfKey(q.saved, q.current, q.count, e.t.key);
      if first.Some? {
        var i: nat :| i < q.count && Tag(q.current, i) in q.saved && q.saved[Tag(q.current, i)] == first.value
                      && first.value.key == e.t.key;
        assert Tag(q.current, i) in p.saved;
      }
    }
  }

  lemma SameDataFits(groups: nat, p: Plain, q: Plain)
    requires Twin(groups, p, q) && SameData(p, q)
    ensures AllFit(groups, p, q)
  {
  }

  /** Answers with the same contents. */
  lemma MixedIsSame(p: Plain, q: Plain, groups: nat, e: Event, out: Output)
    requires Twin(groups, p, q) && SameData(p, q) && Allowed(p, e) && Answerable(q, e)
    requires Mixed(out, PlainStep(p, e).1, DedupStep(groups, q, e).1)
    ensures SameOutput(out, PlainStep(p, e).1)
  {
  }

  lemma {:induction false} AgreeingRun(h: Handler, k: Handler, p: Plain, q: Plain, es: seq<Event>)
    requires Sim(h, k, p, q) && SameData(p, q) && AllowedRun(p, es) && KeysAgreeWhereMoved(k.groups, p, es)
    ensures HandlerRun(h, es).Ok? && SameOutputs(HandlerRun(h, es).value.1, PlainRun(p, es).1)
    decreases |es|
  {
    if es != [] {
      StepSim(h, k, p, q, es[0]);
      SameDataFits(k.groups, p, q);
      TwinsAllow(k.groups, p, q, es[0]);
      SameDataStays(k.groups, p, q, es[0]);
      var h', k' := HandlerStep(h, es[0]).value.0, HandlerStep(k, RecastEvent(k.groups, q, es[0])).value.0;
      GroupsStay(k, RecastEvent(k.groups, q, es[0]));
      AgreeingRun(h', k', PlainStep(p, es[0]).0, DedupStep(k.groups, q, es[0]).0, es[1..]);
      MixedIsSame(p, q, k.groups, es[0], HandlerStep(h, es[0]).value.1);
      SameOutputsCons(HandlerStep(h, es[0]).value.1, HandlerRun(h', es[1..]).value.1,
                      PlainStep(p, es[0]).1, PlainRun(PlainStep(p, es[0]).0, es[1..]).1);
    }
  }

  /** A push that finds its key in the map agrees, if everything has the plain map's content. */
  lemma PushAgrees(groups: nat, p: Plain, q: Plain, t: Tensor)
    requires Twin(groups, p, q) && Allowed(p, PushTensor(t)) && Answerable(q, PushTensor(t))
    requires Moves(groups, p.layers, p.current) && TagsInOrder(q)
    requires Legal(q, RecastEvent(groups, q, PushTensor(t)))
    requires SameData(PlainStep(p, PushTensor(t)).0, DedupStep(groups, q, PushTensor(t)).0)
    ensures KeyAgrees(p, t)
  {
    var p', q', u := PlainStep(p, PushTensor(t)).0, DedupStep(groups, q, PushTensor(t)).0, Recast(groups, q, t);
    assert Tag(p.current, p.count) in p'.saved && Tag(p.current, p.count) in q'.saved;
    assert u.data == t.data && u.key == t.key;
    forall tag | tag in p.saved && tag.group == p.current && p.saved[tag].key == t.key
      ensures p.saved[tag].data == t.data
    {
      assert tag in q.saved && q.saved[tag].key == t.key;
      assert tag != Tag(p.current, p.count) ==> p'.saved[tag] == p.saved[tag] && q'.saved[tag] == q.saved[tag];
    }
  }

  /** What a map still holds of the tensors that stay. */
  lemma SameDataBefore(groups: nat, p: Plain, q: Plain, e: Event)
    requires Twin(groups, p, q) && Allowed(p, e) && Answerable(q, e) && TagsInOrder(q) && !e.PopTensor?
    requires SameData(PlainStep(p, e).0, DedupStep(groups, q, e).0)
    ensures SameData(p, q)
  {
    forall tag | tag in p.saved && tag in q.saved ensures p.saved[tag].data == q.saved[tag].data {
      assert tag in PlainStep(p, e).0.saved && tag in DedupStep(groups, q, e).0.saved;
      if e.PushTensor? {
        assert p.back ==> p.saved == map[];
        assert tag != Tag(p.current, p.count);
      }
    }
  }

  lemma SameDataBeforePop(groups: nat, p: Plain, q: Plain, tag: Tag, out: Output)
    requires Twin(groups, p, q) && Allowed(p, PopTensor(tag)) && Answerable(q, PopTensor(tag))
    requires SameData(PlainStep(p, PopTensor(tag)).0, DedupStep(groups, q, PopTensor(tag)).0)
    requires Mixed(out, GotTensor(p.saved[tag]), GotTensor(q.saved[tag])) && SameOutput(out, GotTensor(p.saved[tag]))
    ensures SameData(p, q)
  {
    forall x | x in p.saved && x in q.saved ensures p.saved[x].data == q.saved[x].data {
      if x != tag {
        assert x in p.saved - {tag} && x in q.saved - {tag};
      }
    }
  }

  /** If everything pushed is popped and every answer is right, every key agreed. */
  lemma {:induction false} RightRunAgrees(h: Handler, k: Handler, p: Plain, q: Plain, es: seq<Event>)
    requires Sim(h, k, p, q) && AllowedRun(p, es) && PlainRun(p, es).0.saved == map[]
    requires HandlerRun(h, es).Ok? && SameOutputs(HandlerRun(h, es).value.1, PlainRun(p, es).1)
    ensures SameData(p, q) && KeysAgreeWhereMoved(k.groups, p, es)
    decreases |es|
  {
    if es != [] {
      var e := es[0];
      StepSim(h, k, p, q, e);
      var h', k' := HandlerStep(h, e).value.0, HandlerStep(k, RecastEvent(k.groups, q, e)).value.0;
      var p', q' := PlainStep(p, e).0, DedupStep(k.groups, q, e).0;
      GroupsStay(k, RecastEvent(k.groups, q, e));
      SameOutputsTail(HandlerStep(h, e).value.1, HandlerRun(h', es[1..]).value.1,
                      PlainStep(p, e).1, PlainRun(p', es[1..]).1);
      RightRunAgrees(h', k', p', q', es[1..]);
      RightStepAgrees(k, p, q, e, HandlerStep(h, e).value.1);
    }
  }

  lemma SameOutputsTail(a: Output, as': seq<Output>, b: Output, bs: seq<Output>)
    requires SameOutputs([a] + as', [b] + bs)
    ensures SameOutput(a, b) && SameOutputs(as', bs)
  {
    assert ([a] + as')[0] == a && ([b] + bs)[0] == b;
    forall i | 0 <= i < |as'| ensures SameOutput(as'[i], bs[i]) {
      assert ([a] + as')[i + 1] == as'[i] && ([b] + bs)[i + 1] == bs[i];
    }
  }

  lemma RightStepAgrees(k: Handler, p: Plain, q: Plain, e: Event, out: Output)
    requires Exact(k, q) && Twin(k.groups, p, q) && Allowed(p, e) && Answerable(q, e)
    requires SameData(PlainStep(p, e).0, DedupStep(k.groups, q, e).0)
    requires Mixed(out, PlainStep(p, e).1, DedupStep(k.groups, q, e).1) && SameOutput(out, PlainStep(p, e).1)
    ensures SameData(p, q)
    ensures e.PushTensor? && Moves(k.groups, p.layers, p.current) ==> KeyAgrees(p, e.t)
  {
    RecastStepIsExact(k, p, q, e);
    if e.PopTensor? {
      SameDataBeforePop(k.groups, p, q, e.tag, out);
    } else {
      SameDataBefore(k.groups, p, q, e);
    }
    if e.PushTensor? && Moves(k.groups, p.layers, p.current) {
      PushAgrees(k.groups, p, q, e.t);
    }
  }

  /** Exactly when offloading is transparent: over a run that pops everything it pushed, no fault is
      raised and every answer is the plain map's if and only if, in every layer that is really
      offloaded, tensors with one key have one content.  The other layers may share as they like. */
  lemma TransparentExactly(groups: nat, layers: nat, es: seq<Event>)
    requires 0 < groups <= layers && AllowedRun(Start(layers), es) && PlainRun(Start(layers), es).0.saved == map[]
    ensures var run := HandlerRun(Init(groups, layers), es);
            run.Ok? && SameOutputs(run.value.1, PlainRun(Start(layers), es).1) <==>
            KeysAgreeWhereMoved(groups, Start(layers), es)
  {
    var h, p, run := Init(groups, layers), Start(layers), HandlerRun(Init(groups, layers), es);
    InitSim(groups, layers);
    if KeysAgreeWhereMoved(groups, p, es) {
      AgreeingRun(h, h, p, p, es);
    }
    if run.Ok? && SameOutputs(run.value.1, PlainRun(p, es).1) {
      RightRunAgrees(h, h, p, p, es);
    }
  }

  /** And over any run, transparent if they agree. */
  lemma TransparentIfKeysAgree(groups: nat, layers: nat, es: seq<Event>)
    requires 0 < groups <= layers && AllowedRun(Start(layers), es) && KeysAgreeWhereMoved(groups, Start(layers), es)
    ensures var run := HandlerRun(Init(groups, layers), es);
            run.Ok? && SameOutputs(run.value.1, PlainRun(Start(layers), es).1)
  {
    InitSim(groups, layers);
    AgreeingRun(Init(groups, layers), Init(groups, layers), Start(layers), Start(layers), es);
  }
}
