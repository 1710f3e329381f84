/** The window map of the asynchronous offload handler: after which layer's commit a group's
    device copies are freed, and before which layer's backward it is reloaded
    (verl/verl/utils/activation_offload.py). */
module OffloadWindow {
  import opened Prelude

  /** `layer_window_map[i]` for G = num_offload_group and L = num_layers. */
  function Window(groups: nat, layers: nat, i: nat): int
    requires 0 < groups
  {
    (layers / groups) * (i + 1) - 1 + Min(i + 1, layers % groups)
  }

  /** The loop of `__init__` that builds the map. */
  method BuildWindowMap(groups: nat, layers: nat) returns (m: map<int, int>)
    ensures forall i :: i in m <==> 0 <= i < groups
    ensures forall i :: i in m ==> m[i] == Window(groups, layers, i)
  {
    m := map[];
    var constant := 0;
    for i: nat := 0 to groups
      invariant forall k :: k in m <==> 0 <= k < i
      invariant forall k :: k in m ==> m[k] == Window(groups, layers, k)
      invariant groups > 0 ==> constant == Min(i, layers % groups)
    {
      m := m[i := (layers / groups) * (i + 1) - 1];
      if i < layers % groups {
        m := m[i := m[i] + i + 1];
        constant := i + 1;
      } else {
        m := m[i := m[i] + constant];
      }
    }
  }

  lemma WindowStep(groups: nat, layers: nat, i: nat)
    requires 0 < groups
    ensures Window(groups, layers, i + 1) ==
            Window(groups, layers, i) + layers / groups + (if i + 1 < layers % groups then 1 else 0)
  {
    var q := layers / groups;
    assert q * (i + 2) == q * (i + 1) + q;
  }

  lemma QuotientIsPositive(groups: nat, layers: nat)
    requires 0 < groups <= layers
    ensures layers / groups >= 1
    ensures layers / groups == 1 && layers % groups == 0 <==> groups == layers
  {
    var q, r := layers / groups, layers % groups;
    assert layers == groups * q + r;
    if q >= 2 {
      assert groups * q >= groups * 2;
    }
  }

  /** No two groups share a window, and windows follow the order of the groups. */
  lemma {:induction false} WindowIncreases(groups: nat, layers: nat, i: nat, j: nat)
    requires 0 < groups <= layers && i < j
    ensures Window(groups, layers, i) + (j - i) <= Window(groups, layers, j)
    decreases j - i
  {
    QuotientIsPositive(groups, layers);
    WindowStep(groups, layers, j - 1);
    if i < j - 1 {
      WindowIncreases(groups, layers, i, j - 1);
    }
  }

  lemma WindowOfFirst(groups: nat, layers: nat)
    requires 0 < groups <= layers
    ensures Window(groups, layers, 0) >= 0
    ensures groups < layers ==> Window(groups, layers, 0) >= 1
    ensures groups == layers ==> Window(groups, layers, 0) == 0
  {
    QuotientIsPositive(groups, layers);
  }

  /** The last window is the last layer: the map is never asked for a group beyond the last. */
  lemma WindowOfLast(groups: nat, layers: nat)
    requires 0 < groups
    ensures Window(groups, layers, groups - 1) == layers - 1
  {
    assert layers == (layers / groups) * groups + layers % groups;
  }

  /** How many layers lie after the window before group i's, up to its own. */
  function LayersOf(groups: nat, layers: nat, i: nat): int
    requires 0 < groups
  {
    Window(groups, layers, i) - if i == 0 then -1 else Window(groups, layers, i - 1)
  }

  /** The layers are dealt out evenly: no two groups differ by more than one, the larger ones first. */
  lemma WindowsAreEven(groups: nat, layers: nat, i: nat, j: nat)
    requires 0 < groups && i <= j
    ensures LayersOf(groups, layers, j) <= LayersOf(groups, layers, i) <= LayersOf(groups, layers, j) + 1
  {
    if i > 0 { WindowStep(groups, layers, i - 1); }
    if j > 0 { WindowStep(groups, layers, j - 1); }
  }

  /** A window is not before its group's own layer. */
  lemma WindowAfterOwnLayer(groups: nat, layers: nat, i: nat)
    requires 0 < groups <= layers
    ensures i <= Window(groups, layers, i)
  {
    WindowOfFirst(groups, layers);
    if i > 0 {
      WindowIncreases(groups, layers, 0, i);
    }
  }

  /** The window of group i leaves room for layer i + 1 exactly when there are fewer groups
      than layers. */
  lemma WindowAfterNextLayer(groups: nat, layers: nat, i: nat)
    requires 0 < groups <= layers
    ensures groups < layers ==> i + 1 <= Window(groups, layers, i)
    ensures groups == layers ==> Window(groups, layers, i) == i
  {
    WindowOfFirst(groups, layers);
    QuotientIsPositive(groups, layers);
    if i > 0 {
      WindowIncreases(groups, layers, 0, i);
    }
  }

  /** The configuration that `enable_activation_offloading` builds: one group per layer but the last. */
  lemma WindowOfDefaultConfiguration(layers: nat, i: nat)
    requires 2 <= layers && i < layers - 1
    ensures Window(layers - 1, layers, i) == i + 1
  {
    var g := layers - 1;
    WindowOfLast(g, layers);
    WindowAfterNextLayer(g, layers, i);
    if i < g - 1 {
      WindowIncreases(g, layers, i, g - 1);
    }
  }
}
