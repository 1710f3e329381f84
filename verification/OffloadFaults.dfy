/** What the offload handler refuses: calls out of order (verl/verl/utils/activation_offload.py). */
module OffloadFaults {
  import opened Prelude
  import opened OffloadWindow
  import opened OffloadModel
  import opened OffloadTransparency
  import opened OffloadResidency

  lemma FindInSameTags(es: seq<Entry>, es': seq<Entry>, tag: Tag)
    requires |es'| == |es| && (forall i :: 0 <= i < |es| ==> es'[i].tag == es[i].tag) && HasTag(es, tag)
    ensures HasTag(es', tag)
  {
    var i :| 0 <= i < |es| && es[i].tag == tag;
    assert es'[i].tag == tag;
  }

  lemma OffloadedEntry(h: Handler, g: nat, i: nat)
    requires BulkOffload(h, g).Ok? && i < |h.entries| && h.entries[i].tag.group == g
    ensures var es := BulkOffload(h, g).value.entries;
            |es| == |h.entries| && es[i].tag == h.entries[i].tag && es[i].saved.Offloaded?
  {
  }

  /** A group that has tensors is not offloaded twice. */
  lemma OffloadTwiceIsRefused(h: Handler, g: nat, i: nat)
    requires BulkOffload(h, g).Ok? && i < |h.entries| && h.entries[i].tag.group == g
    ensures BulkOffload(BulkOffload(h, g).value, g) == Err(AlreadyOffloaded)
  {
    OffloadedEntry(h, g, i);
    var es := BulkOffload(h, g).value.entries;
    assert es[i].tag.group == g && !es[i].saved.OnDevice?;
  }

  /** A tensor is not popped while its group is offloaded. */
  lemma PopBeforeReloadIsRefused(h: Handler, g: nat, tag: Tag)
    requires BulkOffload(h, g).Ok? && HasTag(h.entries, tag) && tag.group == g
    ensures Pop(BulkOffload(h, g).value, tag) == Err(StillOffloaded)
  {
    var es := BulkOffload(h, g).value.entries;
    forall i | 0 <= i < |es| ensures es[i].tag == h.entries[i].tag {
      assert es[i] == OffloadEntry(h.entries[i], g);
    }
    FindInSameTags(h.entries, es, tag);
    OffloadedEntry(h, g, Find(es, tag));
  }

  /** A group is not reloaded twice. */
  lemma ReloadTwiceIsRefused(h: Handler, g: nat)
    requires BulkReload(h, g).Ok?
    ensures BulkReload(BulkReload(h, g).value, g) == Err(NoSuchMapping)
  {
  }

  /** A tag is not popped twice. */
  lemma PopTwiceIsRefused(h: Handler, tag: Tag)
    requires UniqueTags(h.entries) && Pop(h, tag).Ok?
    ensures Pop(Pop(h, tag).value.0, tag) == Err(UnknownTag)
  {
    var i := Find(h.entries, tag);
    var es := h.entries[..i] + h.entries[i + 1..];
    forall k | 0 <= k < |es| ensures es[k].tag != tag {
      assert es[k] == h.entries[if k < i then k else k + 1];
    }
  }

  /** A tag is not given twice. */
  lemma PushTwiceIsRefused(h: Handler, t: Tensor, u: Tensor)
    requires Push(h, t).Ok?
    ensures Push(Push(h, t).value.0.(count := h.count), u) == Err(TagTaken)
  {
    var es := Push(h, t).value.0.entries;
    assert es[|h.entries|].tag == Tag(h.current, h.count);
    assert HasTag(es, Tag(h.current, h.count));
  }

  /** More forward commits than layers are refused: every window has passed. */
  lemma ExtraForwardIsRefused(h: Handler, p: Plain)
    requires Rel(h, p) && !p.back && p.current == p.layers
    ensures CommitForward(h) == Err(NoSuchWindow)
  {
    WindowOfLast(h.groups, h.layers);
    AllGroupsHadTheirWindow(h, p);
  }

  /** More backward commits than forward commits are refused. */
  lemma ExtraBackwardIsRefused(h: Handler, p: Plain)
    requires Rel(h, p) && p.current == 0
    ensures CommitBackward(h) == Err(NegativeGroup)
  {
  }
}
