/** The state of AsyncDoubleBufferGroupOffloadHandler and what its methods do to it
    (verl/verl/utils/activation_offload.py).  A fault stands for the assertion that fails or
    the dictionary lookup that raises. */
module OffloadModel {
  import opened Prelude
  import opened OffloadWindow

  /** A saved activation.  `key` is its storage address and dtype; `data` its flattened content. */
  datatype Tensor = Tensor(key: nat, shape: seq<nat>, data: seq<int>)

  predicate WellFormed(t: Tensor) {
    |t.data| == Numel(t.shape)
  }

  /** What the backward pass sees of a tensor. */
  predicate SameValue(a: Tensor, b: Tensor) {
    a.shape == b.shape && a.data == b.data
  }

  datatype Tag = Tag(group: nat, index: nat)

  /** An entry of tensor_tag_to_state: a device tensor, or the tuple (key, shape). */
  datatype Saved = OnDevice(tensor: Tensor) | Offloaded(key: nat, shape: seq<nat>)

  datatype Entry = Entry(tag: Tag, saved: Saved)

  datatype Fault = TagTaken | UnknownTag | StillOffloaded | AlreadyOffloaded | NoSuchWindow
                 | NegativeGroup | NoSuchGroup | NoSuchMapping | NoSuchKey | BadView

  /** `entries` is tensor_tag_to_state in insertion order, `mapping` is group_offload_mapping
      (its tensors are the host copies). */
  datatype Handler = Handler(
    groups: nat, layers: nat,
    entries: seq<Entry>, bufs: map<Tag, Option<Tensor>>, mapping: map<nat, map<nat, Tensor>>,
    current: nat, count: nat, offloaded: nat)

  function Init(groups: nat, layers: nat): Handler {
    Handler(groups, layers, [], map[], map[], 0, 0, 0)
  }

  // ------------------------------------------------------- ordered dictionary

  predicate HasTag(es: seq<Entry>, tag: Tag) {
    exists i :: 0 <= i < |es| && es[i].tag == tag
  }

  /** Position of a tag; |es| when it is absent. */
  function Find(es: seq<Entry>, tag: Tag): (i: nat)
    ensures i <= |es|
    ensures i < |es| ==> es[i].tag == tag
    ensures i < |es| <==> HasTag(es, tag)
  {
    if es == [] then 0
    else if es[0].tag == tag then 0
    else
      var k := Find(es[1..], tag);
      assert HasTag(es, tag) ==> HasTag(es[1..], tag) by {
        if HasTag(es, tag) {
          var i :| 0 <= i < |es| && es[i].tag == tag;
          assert es[1..][i - 1].tag == tag;
        }
      }
      k + 1
  }

  // -------------------------------------------------------------- operations

  /** The branch of `tensor_push` that stores the tensor. */
  function Push(h: Handler, t: Tensor): Result<(Handler, Tag), Fault> {
    var tag := Tag(h.current, h.count);
    if HasTag(h.entries, tag) then Err(TagTaken)
    else
      Ok((h.(count := h.count + 1,
             entries := h.entries + [Entry(tag, OnDevice(t))],
             bufs := if h.current < h.groups then h.bufs[tag := Some(t)] else h.bufs), tag))
  }

  /** `tensor_pop` of a tag. */
  function Pop(h: Handler, tag: Tag): Result<(Handler, Tensor), Fault> {
    var i := Find(h.entries, tag);
    if i == |h.entries| then Err(UnknownTag)
    else
      match h.entries[i].saved
      case Offloaded(_, _) => Err(StillOffloaded)
      case OnDevice(t) =>
        Ok((h.(entries := h.entries[..i] + h.entries[i + 1..], bufs := h.bufs - {tag}), t))
  }

  predicate OnDeviceIn(es: seq<Entry>, g: nat) {
    forall i :: 0 <= i < |es| && es[i].tag.group == g ==> es[i].saved.OnDevice?
  }

  function OffloadEntry(e: Entry, g: nat): Entry {
    if e.tag.group == g && e.saved.OnDevice?
    then e.(saved := Offloaded(e.saved.tensor.key, e.saved.tensor.shape)) else e
  }

  function OffloadEntries(es: seq<Entry>, g: nat): (r: seq<Entry>)
    ensures |r| == |es|
  {
    seq(|es|, i requires 0 <= i < |es| => OffloadEntry(es[i], g))
  }

  /** offload_mapping after the first n entries: the first tensor of the group with each key. */
  function Copies(es: seq<Entry>, g: nat, n: nat): map<nat, Tensor>
    requires n <= |es|
  {
    if n == 0 then map[]
    else
      var m := Copies(es, g, n - 1);
      var e := es[n - 1];
      if e.tag.group == g && e.saved.OnDevice? && e.saved.tensor.key !in m then m[e.saved.tensor.key := e.saved.tensor]
      else m
  }

  /** A group's tensors become tuples, and its host copies are registered. */
  function Offload(h: Handler, g: nat): Handler {
    h.(entries := OffloadEntries(h.entries, g), mapping := h.mapping[g := Copies(h.entries, g, |h.entries|)])
  }

  /** `bulk_offload_group` */
  function BulkOffload(h: Handler, g: nat): Result<Handler, Fault> {
    if OnDeviceIn(h.entries, g) then Ok(Offload(h, g)) else Err(AlreadyOffloaded)
  }

  predicate KeysPresent(es: seq<Entry>, g: nat, m: map<nat, Tensor>) {
    forall i :: 0 <= i < |es| && es[i].tag.group == g && es[i].saved.Offloaded? ==> es[i].saved.key in m
  }

  predicate ViewsFit(es: seq<Entry>, g: nat, m: map<nat, Tensor>)
    requires KeysPresent(es, g, m)
  {
    forall i :: 0 <= i < |es| && es[i].tag.group == g && es[i].saved.Offloaded? ==>
                  |m[es[i].saved.key].data| == Numel(es[i].saved.shape)
  }

  /** `offload_mapping[key].view(shape)`; the address of a reloaded tensor is not observed. */
  function ReloadEntry(e: Entry, g: nat, m: map<nat, Tensor>): Entry {
    if e.tag.group == g && e.saved.Offloaded? && e.saved.key in m
    then e.(saved := OnDevice(Tensor(e.saved.key, e.saved.shape, m[e.saved.key].data)))
    else e
  }

  function ReloadEntries(es: seq<Entry>, g: nat, m: map<nat, Tensor>): (r: seq<Entry>)
    ensures |r| == |es|
  {
    seq(|es|, i requires 0 <= i < |es| => ReloadEntry(es[i], g, m))
  }

  /** A group's tuples become tensors again, and its host copies are unregistered. */
  function Reload(h: Handler, g: nat): Handler
    requires g in h.mapping
  {
    h.(entries := ReloadEntries(h.entries, g, h.mapping[g]), mapping := h.mapping - {g})
  }

  /** `bulk_reload_group` */
  function BulkReload(h: Handler, g: nat): Result<Handler, Fault> {
    if g >= h.groups then Err(NoSuchGroup)
    else if g !in h.mapping then Err(NoSuchMapping)
    else if !KeysPresent(h.entries, g, h.mapping[g]) then Err(NoSuchKey)
    else if !ViewsFit(h.entries, g, h.mapping[g]) then Err(BadView)
    else Ok(Reload(h, g))
  }

  /** The loop that drops the device copies of a group. */
  function FreeBufs(bufs: map<Tag, Option<Tensor>>, g: nat): map<Tag, Option<Tensor>> {
    map tag | tag in bufs :: if tag.group == g then None else bufs[tag]
  }

  /** The second half of `synchronize_on_group_commit_forward`. */
  function AtForwardWindow(h: Handler): Result<Handler, Fault> {
    if h.offloaded >= h.groups then Err(NoSuchWindow)
    else if Window(h.groups, h.layers, h.offloaded) != h.current then Ok(h)
    else
      match if h.offloaded < h.groups - 1 then BulkOffload(h, h.offloaded + 1) else Ok(h)
      case Err(e) => Err(e)
      case Ok(h') => Ok(h'.(bufs := FreeBufs(h.bufs, h.offloaded), offloaded := h.offloaded + 1))
  }

  /** `on_group_commit_forward` */
  function CommitForward(h: Handler): Result<Handler, Fault> {
    match if h.current == 0 then BulkOffload(h, 0) else Ok(h)
    case Err(e) => Err(e)
    case Ok(h1) =>
      match AtForwardWindow(h1)
      case Err(e) => Err(e)
      case Ok(h2) => Ok(h2.(current := h2.current + 1, count := 0))
  }

  /** The window part of `on_group_commit_backward`; `current` is already decremented. */
  function AtBackwardWindow(h: Handler): Result<Handler, Fault> {
    if h.offloaded == 0 || h.offloaded > h.groups then Err(NoSuchWindow)
    else if Window(h.groups, h.layers, h.offloaded - 1) != h.current then Ok(h)
    else
      match BulkReload(h, h.offloaded - 1)
      case Err(e) => Err(e)
      case Ok(h') => Ok(h'.(offloaded := if h.offloaded > 1 then h.offloaded - 1 else h.offloaded))
  }

  /** `on_group_commit_backward` */
  function CommitBackward(h: Handler): Result<Handler, Fault> {
    if h.current == 0 then Err(NegativeGroup)
    else
      match AtBackwardWindow(h.(current := h.current - 1))
      case Err(e) => Err(e)
      case Ok(h') => Ok(if h'.current == 0 then h'.(offloaded := 0) else h')
  }
}
