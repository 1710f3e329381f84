/** Block expansion of a model: after every group of layers a copy of the last one is inserted
    whose output projections are zero (LLaMA-Factory/scripts/llama_pro.py).  Tensors are opaque. */
module BlockExpansion {
  import opened Decimal
  import opened Prelude

  // ------------------------------------------------------------- names as text

  predicate MatchesAt(s: string, p: nat, pattern: string) {
    p + |pattern| <= |s| && s[p..p + |pattern|] == pattern
  }

  /** `pattern in s` */
  predicate Contains(s: string, pattern: string) {
    exists p: nat :: p <= |s| && MatchesAt(s, p, pattern)
  }

  /** `s.replace(pattern, repl)` */
  function Replace(s: string, pattern: string, repl: string): string
    requires pattern != ""
    decreases |s|
  {
    if |s| < |pattern| then s
    else if s[..|pattern|] == pattern then repl + Replace(s[|pattern|..], pattern, repl)
    else [s[0]] + Replace(s[1..], pattern, repl)
  }

  /** `f".{i:d}."` */
  function Dotted(i: nat): string {
    "." + Digits(i) + "."
  }

  /** `change_name` */
  function ChangeName(name: string, oldIndex: nat, newIndex: nat): string {
    Replace(name, Dotted(oldIndex), Dotted(newIndex))
  }

  const PREFIX := "model.layers"

  function LayerKey(i: nat, suffix: string): string {
    PREFIX + Dotted(i) + suffix
  }

  lemma {:induction false} ReplaceNone(s: string, pattern: string, repl: string)
    requires pattern != "" && forall p: nat :: p < |s| ==> !MatchesAt(s, p, pattern)
    ensures Replace(s, pattern, repl) == s
    decreases |s|
  {
    if |s| >= |pattern| {
      assert !MatchesAt(s, 0, pattern) && s[0..|pattern|] == s[..|pattern|];
      forall p: nat | p < |s[1..]| ensures !MatchesAt(s[1..], p, pattern) {
        assert !MatchesAt(s, p + 1, pattern);
        assert p + |pattern| <= |s[1..]| ==> s[1..][p..p + |pattern|] == s[p + 1..p + 1 + |pattern|];
      }
      ReplaceNone(s[1..], pattern, repl);
    }
  }

  /** The first match is replaced, and what follows it. */
  lemma {:induction false} ReplaceFirst(a: string, pattern: string, b: string, repl: string)
    requires pattern != ""
    requires forall p: nat :: p < |a| ==> !MatchesAt(a + pattern + b, p, pattern)
    ensures Replace(a + pattern + b, pattern, repl) == a + repl + Replace(b, pattern, repl)
    decreases |a|
  {
    var s := a + pattern + b;
    if a == "" {
      assert s[..|pattern|] == pattern && s[|pattern|..] == b;
    } else {
      assert !MatchesAt(s, 0, pattern) && s[0..|pattern|] == s[..|pattern|];
      assert s[1..] == a[1..] + pattern + b;
      forall p: nat | p < |a[1..]| ensures !MatchesAt(s[1..], p, pattern) {
        assert !MatchesAt(s, p + 1, pattern);
        assert p + |pattern| <= |s[1..]| ==> s[1..][p..p + |pattern|] == s[p + 1..p + 1 + |pattern|];
      }
      ReplaceFirst(a[1..], pattern, b, repl);
      JoinHead(a, repl, Replace(b, pattern, repl));
    }
  }

  lemma JoinHead(a: string, b: string, c: string)
    requires a != ""
    ensures [a[0]] + (a[1..] + b + c) == a + b + c
  {
  }

  lemma {:induction false} ReplaceBySame(s: string, pattern: string)
    requires pattern != ""
    ensures Replace(s, pattern, pattern) == s
    decreases |s|
  {
    if |s| >= |pattern| {
      ReplaceBySame(s[|pattern|..], pattern);
      ReplaceBySame(s[1..], pattern);
    }
  }

  lemma MatchStartsWithDotDigit(s: string, p: nat, i: nat)
    ensures MatchesAt(s, p, Dotted(i)) ==> p + 1 < |s| && s[p] == '.' && IsDigit(s[p + 1])
  {
    var pattern := Dotted(i);
    if MatchesAt(s, p, pattern) {
      assert s[p] == s[p..p + |pattern|][0] && s[p + 1] == s[p..p + |pattern|][1];
      assert pattern[1] == Digits(i)[0];
    }
  }

  lemma PrefixHasNoMatch(i: nat, suffix: string, j: nat, p: nat)
    requires p < |PREFIX|
    ensures !MatchesAt(LayerKey(i, suffix), p, Dotted(j))
  {
    MatchStartsWithDotDigit(LayerKey(i, suffix), p, j);
    assert LayerKey(i, suffix)[..12] == "model.layers";
    assert LayerKey(i, suffix)[p] == "model.layers"[p];
    if p < 11 {
      assert LayerKey(i, suffix)[p + 1] == "model.layers"[p + 1];
    }
  }

  lemma DotEndsDigits(i: nat, s: string, j: nat, t: string)
    requires Digits(i) + "." + s == Digits(j) + "." + t
    ensures i == j && s == t
  {
    var u, v := Digits(i) + "." + s, Digits(j) + "." + t;
    var m, n := |Digits(i)|, |Digits(j)|;
    assert u[m] == '.' && v[n] == '.';
    assert forall k :: 0 <= k < m ==> u[k] == Digits(i)[k] && u[k] != '.';
    assert forall k :: 0 <= k < n ==> v[k] == Digits(j)[k] && v[k] != '.';
    assert m == n;
    assert u[..m] == Digits(i) && v[..n] == Digits(j);
    assert u[m + 1..] == s && v[n + 1..] == t;
    DigitsReadBack(i);
    DigitsReadBack(j);
  }

  lemma LayerKeysAreDistinct(i: nat, s: string, j: nat, t: string)
    ensures LayerKey(i, s) == LayerKey(j, t) ==> i == j && s == t
  {
    if LayerKey(i, s) == LayerKey(j, t) {
      var n := |PREFIX| + 1;
      assert LayerKey(i, s)[n..] == Digits(i) + "." + s && LayerKey(j, t)[n..] == Digits(j) + "." + t;
      DotEndsDigits(i, s, j, t);
    }
  }

  lemma TailsAgree(i: nat, s: string, j: nat, t: string)
    requires Dotted(i) + s == Dotted(j) + t
    ensures i == j && s == t
  {
    assert (Dotted(i) + s)[1..] == Digits(i) + "." + s && (Dotted(j) + t)[1..] == Digits(j) + "." + t;
    DotEndsDigits(i, s, j, t);
  }

  /** From the dot on that ends its layer number, a key goes on with its suffix. */
  lemma TailOfKey(j: nat, suffix: string)
    ensures |PREFIX| + 1 + |Digits(j)| < |LayerKey(j, suffix)|
    ensures LayerKey(j, suffix)[|PREFIX| + 1 + |Digits(j)|..] == "." + suffix
    ensures forall p :: |PREFIX| < p <= |PREFIX| + |Digits(j)| ==> LayerKey(j, suffix)[p] != '.'
  {
    var key, d, q := LayerKey(j, suffix), |Digits(j)|, |PREFIX| + 1;
    assert key == PREFIX + "." + Digits(j) + "." + suffix;
    forall p | |PREFIX| < p <= |PREFIX| + d ensures key[p] != '.' {
      assert key[p] == Digits(j)[p - q];
    }
  }

  lemma MatchInTail(s: string, p: nat, start: nat, pattern: string)
    requires start <= p && start <= |s|
    ensures MatchesAt(s, p, pattern) <==> MatchesAt(s[start..], p - start, pattern)
  {
    if p + |pattern| <= |s| {
      assert s[start..][p - start..p - start + |pattern|] == s[p..p + |pattern|];
    }
  }

  lemma OtherNumber(j: nat, suffix: string, i: nat)
    requires i != j
    ensures !MatchesAt(LayerKey(j, suffix), |PREFIX|, Dotted(i))
  {
    var key, n := LayerKey(j, suffix), |PREFIX| + |Dotted(i)|;
    if MatchesAt(key, |PREFIX|, Dotted(i)) {
      assert key[|PREFIX|..] == key[|PREFIX|..n] + key[n..] && key[|PREFIX|..] == Dotted(j) + suffix;
      TailsAgree(i, key[n..], j, suffix);
    }
  }

  lemma MatchInKey(j: nat, suffix: string, i: nat, p: nat)
    requires MatchesAt(LayerKey(j, suffix), p, Dotted(i))
    ensures i == j || Contains("." + suffix, Dotted(i))
  {
    var key, start := LayerKey(j, suffix), |PREFIX| + 1 + |Digits(j)|;
    TailOfKey(j, suffix);
    MatchStartsWithDotDigit(key, p, i);
    if p < |PREFIX| {
      PrefixHasNoMatch(j, suffix, i, p);
    } else if p == |PREFIX| {
      if i != j {
        OtherNumber(j, suffix, i);
      }
    } else {
      MatchInTail(key, p, start, Dotted(i));
    }
  }

  lemma OwnNumberInKey(i: nat, suffix: string)
    ensures Contains(LayerKey(i, suffix), Dotted(i))
  {
    var key := LayerKey(i, suffix);
    assert key[|PREFIX|..|PREFIX| + |Dotted(i)|] == Dotted(i);
    assert MatchesAt(key, |PREFIX|, Dotted(i));
  }

  lemma NumberInSuffix(j: nat, suffix: string, pattern: string)
    requires Contains("." + suffix, pattern)
    ensures Contains(LayerKey(j, suffix), pattern)
  {
    var key, start := LayerKey(j, suffix), |PREFIX| + 1 + |Digits(j)|;
    var p: nat :| p <= |"." + suffix| && MatchesAt("." + suffix, p, pattern);
    TailOfKey(j, suffix);
    MatchInTail(key, start + p, start, pattern);
    assert MatchesAt(key, start + p, pattern);
  }

  /** A key of layer j is taken for layer i exactly when it is one, or when its suffix has the
      number i between dots. */
  lemma InLayer(j: nat, suffix: string, i: nat)
    ensures Contains(LayerKey(j, suffix), Dotted(i)) <==> i == j || Contains("." + suffix, Dotted(i))
  {
    if i == j {
      OwnNumberInKey(i, suffix);
    } else if Contains("." + suffix, Dotted(i)) {
      NumberInSuffix(j, suffix, Dotted(i));
    } else if Contains(LayerKey(j, suffix), Dotted(i)) {
      var p: nat :| p <= |LayerKey(j, suffix)| && MatchesAt(LayerKey(j, suffix), p, Dotted(i));
      MatchInKey(j, suffix, i, p);
    }
  }

  lemma {:induction false} ReplaceChanges(s: string, i: nat, j: nat)
    requires Contains(s, Dotted(i)) && i != j
    ensures Replace(s, Dotted(i), Dotted(j)) != s
    decreases |s|
  {
    var pattern, repl := Dotted(i), Dotted(j);
    var p: nat :| p <= |s| && MatchesAt(s, p, pattern);
    if s[..|pattern|] == pattern {
      if Replace(s, pattern, repl) == s {
        var rest := s[|pattern|..];
        assert s == pattern + rest;
        TailsAgree(j, Replace(rest, pattern, repl), i, rest);
      }
    } else {
      assert p > 0;
      MatchInTail(s, p, 1, pattern);
      ReplaceChanges(s[1..], i, j);
      assert s[1..] != Replace(s[1..], pattern, repl);
    }
  }

  /** Replacing one dotted number by another leaves exactly those texts alone that do not have it. */
  lemma ReplaceKeeps(s: string, i: nat, j: nat)
    ensures Replace(s, Dotted(i), Dotted(j)) == s <==> i == j || !Contains(s, Dotted(i))
  {
    if i == j {
      ReplaceBySame(s, Dotted(i));
    } else if Contains(s, Dotted(i)) {
      ReplaceChanges(s, i, j);
    } else {
      forall p: nat | p < |s| ensures !MatchesAt(s, p, Dotted(i)) {
        assert p <= |s|;
      }
      ReplaceNone(s, Dotted(i), Dotted(j));
    }
  }

  lemma ChangedKey(i: nat, suffix: string, j: nat)
    ensures ChangeName(LayerKey(i, suffix), i, j) == LayerKey(j, Replace(suffix, Dotted(i), Dotted(j)))
  {
    forall p: nat | p < |PREFIX| ensures !MatchesAt(PREFIX + Dotted(i) + suffix, p, Dotted(i)) {
      PrefixHasNoMatch(i, suffix, i, p);
    }
    ReplaceFirst(PREFIX, Dotted(i), suffix, Dotted(j));
  }

  /** Renaming moves a key of layer i to the key of layer j with the same suffix exactly when the
      suffix does not have the number i between dots. */
  lemma ChangeNameMoves(i: nat, suffix: string, j: nat)
    ensures ChangeName(LayerKey(i, suffix), i, j) == LayerKey(j, suffix) <==> i == j || !Contains(suffix, Dotted(i))
  {
    ChangedKey(i, suffix, j);
    ReplaceKeeps(suffix, i, j);
    LayerKeysAreDistinct(j, Replace(suffix, Dotted(i), Dotted(j)), j, suffix);
  }

  // --------------------------------------------------------------- the model

  datatype Tensor = Tensor(shape: seq<nat>, values: seq<real>)

  /** `torch.zeros_like` */
  function ZerosLike(t: Tensor): Tensor {
    Tensor(t.shape, seq(|t.values|, i => 0.0))
  }

  predicate IsZero(t: Tensor) {
    forall i :: 0 <= i < |t.values| ==> t.values[i] == 0.0
  }

  /** The state dictionary of a model of n layers that all have the same parameters, and of
      parameters outside the layers. */
  ghost predicate IsModel(sd: map<string, Tensor>, n: nat, suffixes: set<string>, others: set<string>) {
    && (forall name, i: nat, s :: name in others && s in suffixes ==> name != LayerKey(i, s))
    && (forall i: nat, s :: i < n && s in suffixes ==> LayerKey(i, s) in sd)
    && (forall name :: name in others ==> name in sd)
    && (forall key :: key in sd ==> key in others || IsLayerKey(key, n, suffixes))
  }

  ghost predicate IsLayerKey(key: string, n: nat, suffixes: set<string>) {
    exists i: nat, s :: i < n && s in suffixes && key == LayerKey(i, s)
  }

  ghost predicate IsKeyOf(key: string, i: nat, suffixes: set<string>) {
    exists s :: s in suffixes && key == LayerKey(i, s)
  }

  // ---------------------------------------------------- when the passes are right

  /** The pass over layer i takes exactly the keys of layer i, and renames them to the keys of any
      other layer. */
  ghost predicate PassIsRight(sd: map<string, Tensor>, i: nat, suffixes: set<string>) {
    && (forall key :: key in sd ==> (Contains(key, Dotted(i)) <==> IsKeyOf(key, i, suffixes)))
    && (forall s, j: nat :: s in suffixes ==> ChangeName(LayerKey(i, s), i, j) == LayerKey(j, s))
  }

  /** The suffix does not have the number i between dots; for a single layer the dot that ends
      the layer number cannot start it. */
  predicate HasNot(suffix: string, i: nat, n: nat) {
    !Contains(if n == 1 then suffix else "." + suffix, Dotted(i))
  }

  /** No name has the number of a layer between dots but for its own layer number. */
  ghost predicate Unambiguous(n: nat, suffixes: set<string>, others: set<string>) {
    && (forall i: nat, s :: i < n && s in suffixes ==> HasNot(s, i, n))
    && (forall i: nat, name :: i < n && name in others ==> !Contains(name, Dotted(i)))
  }

  lemma DotAdded(s: string, pattern: string)
    requires Contains(s, pattern)
    ensures Contains("." + s, pattern)
  {
    var p: nat :| p <= |s| && MatchesAt(s, p, pattern);
    assert ("." + s)[1..] == s;
    MatchInTail("." + s, p + 1, 1, pattern);
    assert MatchesAt("." + s, p + 1, pattern);
  }

  lemma TakesItsLayer(sd: map<string, Tensor>, n: nat, suffixes: set<string>, others: set<string>, i: nat, key: string)
    requires IsModel(sd, n, suffixes, others) && Unambiguous(n, suffixes, others) && i < n && key in sd
    ensures Contains(key, Dotted(i)) <==> IsKeyOf(key, i, suffixes)
  {
    if key in others {
      assert !Contains(key, Dotted(i)) && !IsKeyOf(key, i, suffixes);
    } else {
      var j: nat, s :| j < n && s in suffixes && key == LayerKey(j, s);
      assert HasNot(s, i, n);
      TakesOwnKey(suffixes, j, s, i, n);
    }
  }

  lemma TakesOwnKey(suffixes: set<string>, j: nat, s: string, i: nat, n: nat)
    requires s in suffixes && i < n && j < n && HasNot(s, i, n)
    ensures Contains(LayerKey(j, s), Dotted(i)) <==> IsKeyOf(LayerKey(j, s), i, suffixes)
  {
    InLayer(j, s, i);
    if t :| t in suffixes && LayerKey(j, s) == LayerKey(i, t) {
      LayerKeysAreDistinct(i, t, j, s);
    }
  }

  lemma RenamesRight(suffix: string, i: nat, n: nat, j: nat)
    requires HasNot(suffix, i, n)
    ensures ChangeName(LayerKey(i, suffix), i, j) == LayerKey(j, suffix)
  {
    if n != 1 && Contains(suffix, Dotted(i)) {
      DotAdded(suffix, Dotted(i));
    }
    ChangeNameMoves(i, suffix, j);
  }

  lemma PassIsRightIf(sd: map<string, Tensor>, n: nat, suffixes: set<string>, others: set<string>, i: nat)
    requires IsModel(sd, n, suffixes, others) && Unambiguous(n, suffixes, others) && i < n
    ensures PassIsRight(sd, i, suffixes)
  {
    forall key | key in sd {
      TakesItsLayer(sd, n, suffixes, others, i, key);
    }
    forall s, j: nat | s in suffixes {
      RenamesRight(s, i, n, j);
    }
  }

  lemma SuffixOfRightPass(sd: map<string, Tensor>, n: nat, suffixes: set<string>, others: set<string>, i: nat,
                          s: string)
    requires IsModel(sd, n, suffixes, others) && i < n && s in suffixes && PassIsRight(sd, i, suffixes)
    ensures HasNot(s, i, n)
  {
    if n == 1 {
      ChangeNameMoves(i, s, i + 1);
    } else {
      var j := if i == 0 then 1 else 0;
      InLayer(j, s, i);
      assert LayerKey(j, s) in sd;
      if Contains(LayerKey(j, s), Dotted(i)) {
        var t :| t in suffixes && LayerKey(j, s) == LayerKey(i, t);
        LayerKeysAreDistinct(j, s, i, t);
      }
    }
  }

  /** All passes are right exactly when no name but by its layer number has the number of a layer
      between dots. */
  lemma PassesAreRight(sd: map<string, Tensor>, n: nat, suffixes: set<string>, others: set<string>)
    requires IsModel(sd, n, suffixes, others)
    ensures (forall i: nat :: i < n ==> PassIsRight(sd, i, suffixes)) <==> Unambiguous(n, suffixes, others)
  {
    if Unambiguous(n, suffixes, others) {
      forall i: nat | i < n ensures PassIsRight(sd, i, suffixes) {
        PassIsRightIf(sd, n, suffixes, others, i);
      }
    }
    if forall i: nat :: i < n ==> PassIsRight(sd, i, suffixes) {
      forall i: nat, s | i < n && s in suffixes ensures HasNot(s, i, n) {
        assert PassIsRight(sd, i, suffixes);
        SuffixOfRightPass(sd, n, suffixes, others, i, s);
      }
      forall i: nat, name | i < n && name in others ensures !Contains(name, Dotted(i)) {
        assert PassIsRight(sd, i, suffixes);
        assert name in sd;
      }
    }
  }

  // ------------------------------------------------------------- copying a layer

  /** The parameters of layer i, by suffix. */
  function Layer(sd: map<string, Tensor>, i: nat, suffixes: set<string>): map<string, Tensor> {
    map s | s in suffixes && LayerKey(i, s) in sd :: sd[LayerKey(i, s)]
  }

  /** `"down_proj" in key or "o_proj" in key` */
  predicate IsProjection(key: string) {
    Contains(key, "down_proj") || Contains(key, "o_proj")
  }

  /** What an inserted layer stores for the tensor t under `key`: zeros for an output projection, and
      otherwise the tensor itself. */
  predicate IsInserted(key: string, t: Tensor, u: Tensor) {
    && u.shape == t.shape && |u.values| == |t.values|
    && if Contains(key, "down_proj") || Contains(key, "o_proj") then
         forall v :: 0 <= v < |u.values| ==> u.values[v] == 0.0
       else u.values == t.values
  }

  /** What is stored for one key of a copied layer. */
  function Copied(key: string, t: Tensor, expanded: bool): (r: Tensor)
    ensures if expanded then IsInserted(key, t, r) else r == t
  {
    if expanded && IsProjection(key) then ZerosLike(t) else t
  }

  /** Layer i of `sd` written at position `at`: nothing else changes. */
  ghost predicate Written(before: map<string, Tensor>, after: map<string, Tensor>, sd: map<string, Tensor>,
                          i: nat, at: nat, expanded: bool, suffixes: set<string>) {
    && (forall s :: s in suffixes ==> LayerKey(i, s) in sd && LayerKey(at, s) in after
                                      && after[LayerKey(at, s)] == Copied(LayerKey(i, s), sd[LayerKey(i, s)], expanded))
    && (forall key :: key in before ==> key in after)
    && (forall key :: key in after ==>
          (key in before && after[key] == before[key]) || exists s :: s in suffixes && key == LayerKey(at, s))
  }

  /** Every key taken for layer i is written under its changed name. */
  predicate TakenKeysWritten(sd: map<string, Tensor>, out: map<string, Tensor>, i: nat, at: nat) {
    forall key :: key in sd && Contains(key, Dotted(i)) ==> ChangeName(key, i, at) in out
  }

  /** So it is for the first m layers, at the positions they have among the expanded ones. */
  predicate PassesWritten(sd: map<string, Tensor>, out: map<string, Tensor>, m: nat, split: nat)
    requires 0 < split
  {
    forall i: nat :: i < m ==> TakenKeysWritten(sd, out, i, i + i / split)
  }

  predicate KeysKept(before: map<string, Tensor>, after: map<string, Tensor>) {
    forall key :: key in before ==> key in after
  }

  lemma PassesStayWritten(sd: map<string, Tensor>, before: map<string, Tensor>, after: map<string, Tensor>, m: nat,
                          split: nat)
    requires 0 < split && PassesWritten(sd, before, m, split) && KeysKept(before, after)
    ensures PassesWritten(sd, after, m, split)
  {
    forall i: nat | i < m ensures TakenKeysWritten(sd, after, i, i + i / split) {
      assert TakenKeysWritten(sd, before, i, i + i / split);
    }
  }

  /** One of the two inner loops: what is taken for layer i is copied to position `at`. */
  method CopyLayer(before: map<string, Tensor>, sd: map<string, Tensor>, i: nat, at: nat, expanded: bool,
                   ghost suffixes: set<string>)
    returns (out: map<string, Tensor>)
    ensures KeysKept(before, out) && TakenKeysWritten(sd, out, i, at)
    ensures PassIsRight(sd, i, suffixes) && (forall s :: s in suffixes ==> LayerKey(i, s) in sd) ==>
              Written(before, out, sd, i, at, expanded, suffixes)
  {
    ghost var right := PassIsRight(sd, i, suffixes) && forall s :: s in suffixes ==> LayerKey(i, s) in sd;
    out := before;
    var todo := sd.Keys;
    while todo != {}
      invariant todo <= sd.Keys
      invariant forall key :: key in before ==> key in out
      invariant forall key :: key in sd && key !in todo && Contains(key, Dotted(i)) ==> ChangeName(key, i, at) in out
      invariant right ==> WrittenSoFar(before, out, sd, i, at, expanded, suffixes, todo)
      decreases |todo|
    {
      var key :| key in todo;
      if Contains(key, Dotted(i)) {
        var value := sd[key];
        ghost var was := out;
        out := out[ChangeName(key, i, at) := if expanded && IsProjection(key) then ZerosLike(value) else value];
        if right {
          ghost var s :| s in suffixes && key == LayerKey(i, s);
          OneMoreWritten(before, was, sd, i, at, expanded, suffixes, todo, s);
        }
      }
      todo := todo - {key};
    }
  }

  /** Written, but for the keys still to do. */
  ghost predicate WrittenSoFar(before: map<string, Tensor>, out: map<string, Tensor>, sd: map<string, Tensor>,
                               i: nat, at: nat, expanded: bool, suffixes: set<string>, todo: set<string>) {
    && (forall s :: s in suffixes ==> LayerKey(i, s) in sd)
    && (forall s :: s in suffixes && LayerKey(i, s) !in todo ==>
          LayerKey(at, s) in out && out[LayerKey(at, s)] == Copied(LayerKey(i, s), sd[LayerKey(i, s)], expanded))
    && (forall key :: key in before ==> key in out)
    && (forall key :: key in out ==>
          (key in before && out[key] == before[key]) || exists s :: s in suffixes && key == LayerKey(at, s))
  }

  lemma OneMoreWritten(before: map<string, Tensor>, out: map<string, Tensor>, sd: map<string, Tensor>,
                       i: nat, at: nat, expanded: bool, suffixes: set<string>, todo: set<string>, s: string)
    requires WrittenSoFar(before, out, sd, i, at, expanded, suffixes, todo) && s in suffixes
    ensures var key := LayerKey(i, s);
            WrittenSoFar(before, out[LayerKey(at, s) := Copied(key, sd[key], expanded)], sd, i, at, expanded, suffixes,
                         todo - {key})
  {
    forall t | t in suffixes && t != s ensures LayerKey(at, t) != LayerKey(at, s) && LayerKey(i, t) != LayerKey(i, s) {
      LayerKeysAreDistinct(at, t, at, s);
      LayerKeysAreDistinct(i, t, i, s);
    }
  }

  // --------------------------------------------------------------- expansion

  type Params = map<string, Tensor>

  /** A layer whose output projections have been zeroed. */
  function Zeroed(params: Params, i: nat): Params {
    map s | s in params :: Copied(LayerKey(i, s), params[s], true)
  }

  /** The specification: the first n layers, with a zeroed copy after every `split` of them. */
  function Expand(layers: seq<Params>, n: nat, split: nat): seq<Params>
    requires n <= |layers| && 0 < split
  {
    if n == 0 then []
    else
      var last := layers[n - 1];
      Expand(layers, n - 1, split) + [last] + (if n % split == 0 then [Zeroed(last, n - 1)] else [])
  }

  /** The layers of a state dictionary. */
  function LayersOf(sd: map<string, Tensor>, n: nat, suffixes: set<string>): (r: seq<Params>)
    ensures |r| == n && forall i :: 0 <= i < n ==> r[i] == Layer(sd, i, suffixes)
  {
    seq(n, i requires 0 <= i => Layer(sd, i, suffixes))
  }

  ghost predicate OnlyLayers(out: map<string, Tensor>, n: nat, suffixes: set<string>) {
    forall key :: key in out ==> IsLayerKey(key, n, suffixes)
  }

  /** The dictionary holds exactly these layers. */
  ghost predicate Represents(out: map<string, Tensor>, layers: seq<Params>, suffixes: set<string>) {
    && OnlyLayers(out, |layers|, suffixes)
    && forall p: nat :: p < |layers| ==> LayerAt(out, p, layers[p], suffixes)
  }

  ghost predicate LayerAt(out: map<string, Tensor>, p: nat, params: Params, suffixes: set<string>) {
    params.Keys == suffixes && forall s :: s in suffixes ==> LayerKey(p, s) in out && out[LayerKey(p, s)] == params[s]
  }

  /** Writing at a position leaves other positions alone. */
  lemma OthersStay(before: map<string, Tensor>, after: map<string, Tensor>, sd: map<string, Tensor>,
                   i: nat, at: nat, expanded: bool, suffixes: set<string>, p: nat, params: Params)
    requires Written(before, after, sd, i, at, expanded, suffixes) && p != at && LayerAt(before, p, params, suffixes)
    ensures LayerAt(after, p, params, suffixes)
  {
    forall s | s in suffixes ensures LayerKey(p, s) in after && after[LayerKey(p, s)] == before[LayerKey(p, s)] {
      if t :| t in suffixes && LayerKey(p, s) == LayerKey(at, t) {
        LayerKeysAreDistinct(p, s, at, t);
      }
    }
  }

  lemma WrittenLayers(before: map<string, Tensor>, after: map<string, Tensor>, sd: map<string, Tensor>,
                      i: nat, at: nat, expanded: bool, suffixes: set<string>)
    requires Written(before, after, sd, i, at, expanded, suffixes) && OnlyLayers(before, at, suffixes)
    ensures OnlyLayers(after, at + 1, suffixes)
  {
    forall key | key in after ensures IsLayerKey(key, at + 1, suffixes) {
      if key in before && after[key] == before[key] {
        var j: nat, s :| j < at && s in suffixes && key == LayerKey(j, s);
      } else {
        var s :| s in suffixes && key == LayerKey(at, s);
      }
    }
  }

  /** What CopyLayer appends. */
  function Appended(sd: map<string, Tensor>, i: nat, expanded: bool, suffixes: set<string>): Params {
    if expanded then Zeroed(Layer(sd, i, suffixes), i) else Layer(sd, i, suffixes)
  }

  lemma WrittenStands(before: map<string, Tensor>, after: map<string, Tensor>, sd: map<string, Tensor>,
                      i: nat, at: nat, expanded: bool, suffixes: set<string>)
    requires Written(before, after, sd, i, at, expanded, suffixes)
    ensures LayerAt(after, at, Appended(sd, i, expanded, suffixes), suffixes)
  {
  }

  lemma WriteAppends(before: map<string, Tensor>, after: map<string, Tensor>, sd: map<string, Tensor>,
                     i: nat, expanded: bool, layers: seq<Params>, suffixes: set<string>)
    requires Represents(before, layers, suffixes) && Written(before, after, sd, i, |layers|, expanded, suffixes)
    ensures Represents(after, layers + [Appended(sd, i, expanded, suffixes)], suffixes)
  {
    var at, layers' := |layers|, layers + [Appended(sd, i, expanded, suffixes)];
    WrittenLayers(before, after, sd, i, at, expanded, suffixes);
    forall p: nat | p < |layers'| ensures LayerAt(after, p, layers'[p], suffixes) {
      if p < at {
        assert LayerAt(before, p, layers[p], suffixes);
        OthersStay(before, after, sd, i, at, expanded, suffixes, p, layers[p]);
      } else {
        WrittenStands(before, after, sd, i, at, expanded, suffixes);
      }
    }
  }

  datatype ExpansionError = DivisionByZero | NotDivisible

  /** The expansion loops of `block_expansion`. */
  method ExpandLayers(sd: map<string, Tensor>, n: nat, split: nat, ghost suffixes: set<string>,
                      ghost others: set<string>)
    returns (out: map<string, Tensor>)
    requires 0 < split && IsModel(sd, n, suffixes, others)
    ensures Unambiguous(n, suffixes, others) ==> Represents(out, Expand(LayersOf(sd, n, suffixes), n, split), suffixes)
    ensures PassesWritten(sd, out, n, split)
  {
    out := map[];
    var layerCnt := 0;
    ghost var layers := LayersOf(sd, n, suffixes);
    for i := 0 to n
      invariant layerCnt == |Expand(layers, i, split)|
      invariant Unambiguous(n, suffixes, others) ==> Represents(out, Expand(layers, i, split), suffixes)
      invariant PassesWritten(sd, out, i, split)
    {
      ghost var was := out;
      out, layerCnt := ExpandLayer(out, sd, i, layerCnt, split, n, suffixes, others, layers);
      PassesStayWritten(sd, was, out, i, split);
    }
  }

  /** The body of the outer loop. */
  method ExpandLayer(before: map<string, Tensor>, sd: map<string, Tensor>, i: nat, cnt: nat, split: nat,
                     ghost n: nat, ghost suffixes: set<string>, ghost others: set<string>, ghost layers: seq<Params>)
    returns (out: map<string, Tensor>, layerCnt: nat)
    requires 0 < split && IsModel(sd, n, suffixes, others) && i < n && layers == LayersOf(sd, n, suffixes)
    requires cnt == |Expand(layers, i, split)|
    ensures layerCnt == |Expand(layers, i + 1, split)|
    ensures KeysKept(before, out) && TakenKeysWritten(sd, out, i, i + i / split)
    ensures Unambiguous(n, suffixes, others) && Represents(before, Expand(layers, i, split), suffixes) ==>
              Represents(out, Expand(layers, i + 1, split), suffixes)
  {
    ghost var expanded := Expand(layers, i, split);
    ExpandLength(layers, i, split);
    out := AppendLayer(before, sd, i, cnt, false, n, suffixes, others, expanded);
    layerCnt := cnt + 1;
    if (i + 1) % split == 0 {
      out := AppendLayer(out, sd, i, layerCnt, true, n, suffixes, others, expanded + [layers[i]]);
      layerCnt := layerCnt + 1;
    } else {
      assert Expand(layers, i + 1, split) == expanded + [layers[i]];
    }
  }

  /** One copy of layer i at the end. */
  method AppendLayer(before: map<string, Tensor>, sd: map<string, Tensor>, i: nat, layerCnt: nat, expanded: bool,
                     ghost n: nat, ghost suffixes: set<string>, ghost others: set<string>, ghost layers: seq<Params>)
    returns (out: map<string, Tensor>)
    requires IsModel(sd, n, suffixes, others) && i < n && layerCnt == |layers|
    ensures KeysKept(before, out) && TakenKeysWritten(sd, out, i, layerCnt)
    ensures Unambiguous(n, suffixes, others) && Represents(before, layers, suffixes) ==>
              Represents(out, layers + [Appended(sd, i, expanded, suffixes)], suffixes)
  {
    out := CopyLayer(before, sd, i, layerCnt, expanded, suffixes);
    if Unambiguous(n, suffixes, others) && Represents(before, layers, suffixes) {
      PassIsRightIf(sd, n, suffixes, others, i);
      WriteAppends(before, out, sd, i, expanded, layers, suffixes);
    }
  }

  /** The last loop: keys that are not there yet are copied as they are. */
  method CopyRest(before: map<string, Tensor>, sd: map<string, Tensor>) returns (out: map<string, Tensor>)
    ensures forall key :: key in out <==> key in before || key in sd
    ensures forall key :: key in before ==> out[key] == before[key]
    ensures forall key :: key in sd && key !in before ==> out[key] == sd[key]
  {
    out := before;
    var todo := sd.Keys;
    while todo != {}
      invariant todo <= sd.Keys
      invariant forall key :: key in out <==> key in before || (key in sd && key !in todo)
      invariant forall key :: key in before ==> out[key] == before[key]
      invariant forall key :: key in out && key !in before ==> out[key] == sd[key]
      decreases |todo|
    {
      var key :| key in todo;
      if key !in out {
        out := out[key := sd[key]];
      }
      todo := todo - {key};
    }
  }

  // --------------------------------------------------------------- positions

  lemma DivStep(i: nat, d: nat)
    requires 0 < d
    ensures (i + 1) / d == i / d + (if (i + 1) % d == 0 then 1 else 0)
  {
    var q, r := i / d, i % d;
    assert i + 1 == d * q + (r + 1);
    if r + 1 < d {
      DivUnique(i + 1, d, q, r + 1);
    } else {
      assert i + 1 == d * (q + 1) + 0;
      DivUnique(i + 1, d, q + 1, 0);
    }
  }

  lemma {:induction false} ExpandLength(layers: seq<Params>, n: nat, split: nat)
    requires n <= |layers| && 0 < split
    ensures |Expand(layers, n, split)| == n + n / split
  {
    if n > 0 {
      ExpandLength(layers, n - 1, split);
      DivStep(n - 1, split);
    }
  }

  /** Original layer i stands at i + i / split; a zeroed copy follows it exactly when i + 1 is a
      multiple of split. */
  lemma {:induction false} PositionOfLayer(layers: seq<Params>, n: nat, split: nat, i: nat)
    requires i < n <= |layers| && 0 < split
    ensures i + i / split < |Expand(layers, n, split)| && Expand(layers, n, split)[i + i / split] == layers[i]
    ensures (i + 1) % split == 0 ==>
              i + i / split + 1 < |Expand(layers, n, split)| &&
              Expand(layers, n, split)[i + i / split + 1] == Zeroed(layers[i], i)
  {
    if i < n - 1 {
      PositionOfLayer(layers, n - 1, split, i);
    } else {
      ExpandLength(layers, i, split);
    }
  }

  /** With `expand` dividing the number of layers, there are `expand` inserted ones. */
  lemma ExpandedLength(layers: seq<Params>, expand: nat)
    requires 0 < expand && 0 < |layers| && |layers| % expand == 0
    ensures 0 < |layers| / expand && |Expand(layers, |layers|, |layers| / expand)| == |layers| + expand
  {
    var n, split := |layers|, |layers| / expand;
    assert n == expand * split + 0;
    MulMono(0, split, expand);
    DivUnique(n, split, expand, 0);
    ExpandLength(layers, n, split);
  }

  // -------------------------------------------------------------- the result

  /** What `block_expansion` makes of the state dictionary: a model of `expand` layers more, whose
      layers are the expansion of the original ones, and the same other parameters. */
  ghost predicate Expanded(sd: map<string, Tensor>, out: map<string, Tensor>, n: nat, expand: nat, split: nat,
                           suffixes: set<string>, others: set<string>)
    requires 0 < split
  {
    && IsModel(out, n + expand, suffixes, others)
    && LayersOf(out, n + expand, suffixes) == Expand(LayersOf(sd, n, suffixes), n, split)
    && forall name :: name in others ==> name in sd && name in out && out[name] == sd[name]
  }

  /** Every original layer key is among the written ones, so only other parameters remain. */
  lemma RestIsOthers(sd: map<string, Tensor>, n: nat, layers: seq<Params>, suffixes: set<string>, others: set<string>,
                     expanded: map<string, Tensor>, key: string)
    requires IsModel(sd, n, suffixes, others) && n <= |layers| && Represents(expanded, layers, suffixes) && key in sd
    ensures key in others <==> key !in expanded
  {
    if key in others {
      assert !IsLayerKey(key, |layers|, suffixes);
    } else {
      var i: nat, s :| i < n && s in suffixes && key == LayerKey(i, s);
      assert LayerAt(expanded, i, layers[i], suffixes);
    }
  }

  lemma LayersAreRepresented(out: map<string, Tensor>, layers: seq<Params>, suffixes: set<string>)
    requires forall p: nat :: p < |layers| ==> LayerAt(out, p, layers[p], suffixes)
    ensures LayersOf(out, |layers|, suffixes) == layers
  {
    forall p: nat | p < |layers| ensures Layer(out, p, suffixes) == layers[p] {
      assert LayerAt(out, p, layers[p], suffixes);
    }
  }

  lemma LaterKeepsLayers(expanded: map<string, Tensor>, out: map<string, Tensor>, layers: seq<Params>,
                         suffixes: set<string>)
    requires Represents(expanded, layers, suffixes)
    requires forall key :: key in expanded ==> key in out && out[key] == expanded[key]
    ensures forall p: nat :: p < |layers| ==> LayerAt(out, p, layers[p], suffixes)
  {
    forall p: nat | p < |layers| ensures LayerAt(out, p, layers[p], suffixes) {
      assert LayerAt(expanded, p, layers[p], suffixes);
    }
  }

  lemma ResultIsModel(sd: map<string, Tensor>, n: nat, layers: seq<Params>, suffixes: set<string>, others: set<string>,
                      expanded: map<string, Tensor>, out: map<string, Tensor>)
    requires IsModel(sd, n, suffixes, others) && n <= |layers| && Represents(expanded, layers, suffixes)
    requires forall key :: key in out <==> key in expanded || key in sd
    requires forall p: nat :: p < |layers| ==> LayerAt(out, p, layers[p], suffixes)
    ensures IsModel(out, |layers|, suffixes, others)
  {
    forall i: nat, s | i < |layers| && s in suffixes ensures LayerKey(i, s) in out {
      assert LayerAt(out, i, layers[i], suffixes);
    }
    forall key | key in out ensures key in others || IsLayerKey(key, |layers|, suffixes) {
      if key !in expanded {
        RestIsOthers(sd, n, layers, suffixes, others, expanded, key);
      }
    }
  }

  lemma ResultIsExpanded(sd: map<string, Tensor>, n: nat, expand: nat, split: nat, suffixes: set<string>,
                         others: set<string>,
                         out: map<string, Tensor>, layers: seq<Params>)
    requires 0 < split && |layers| == n + expand && layers == Expand(LayersOf(sd, n, suffixes), n, split)
    requires IsModel(out, |layers|, suffixes, others) && LayersOf(out, |layers|, suffixes) == layers
    requires forall name :: name in others ==> name in sd && name in out && out[name] == sd[name]
    ensures Expanded(sd, out, n, expand, split, suffixes, others)
  {
  }

  lemma ResultHasLayers(sd: map<string, Tensor>, n: nat, layers: seq<Params>, suffixes: set<string>,
                        others: set<string>,
                        expanded: map<string, Tensor>, out: map<string, Tensor>)
    requires IsModel(sd, n, suffixes, others) && n <= |layers| && Represents(expanded, layers, suffixes)
    requires forall key :: key in out <==> key in expanded || key in sd
    requires forall key :: key in expanded ==> out[key] == expanded[key]
    ensures IsModel(out, |layers|, suffixes, others) && LayersOf(out, |layers|, suffixes) == layers
  {
    LaterKeepsLayers(expanded, out, layers, suffixes);
    LayersAreRepresented(out, layers, suffixes);
    ResultIsModel(sd, n, layers, suffixes, others, expanded, out);
  }

  lemma OthersAreKept(sd: map<string, Tensor>, n: nat, layers: seq<Params>, suffixes: set<string>, others: set<string>,
                      expanded: map<string, Tensor>, out: map<string, Tensor>)
    requires IsModel(sd, n, suffixes, others) && n <= |layers| && Represents(expanded, layers, suffixes)
    requires forall key :: key in out <==> key in expanded || key in sd
    requires forall key :: key in sd && key !in expanded ==> out[key] == sd[key]
    ensures forall name :: name in others ==> name in sd && name in out && out[name] == sd[name]
  {
    forall name | name in others ensures name in sd && name !in expanded {
      RestIsOthers(sd, n, layers, suffixes, others, expanded, name);
    }
  }

  lemma RestCompletes(sd: map<string, Tensor>, n: nat, expand: nat, split: nat, suffixes: set<string>,
                      others: set<string>,
                      expanded: map<string, Tensor>, out: map<string, Tensor>, layers: seq<Params>)
    requires 0 < split && |layers| == n + expand && layers == Expand(LayersOf(sd, n, suffixes), n, split)
    requires IsModel(sd, n, suffixes, others) && Represents(expanded, layers, suffixes)
    requires forall key :: key in out <==> key in expanded || key in sd
    requires forall key :: key in expanded ==> out[key] == expanded[key]
    requires forall key :: key in sd && key !in expanded ==> out[key] == sd[key]
    ensures Expanded(sd, out, n, expand, split, suffixes, others)
  {
    ResultHasLayers(sd, n, layers, suffixes, others, expanded, out);
    OthersAreKept(sd, n, layers, suffixes, others, expanded, out);
    ResultIsExpanded(sd, n, expand, split, suffixes, others, out, layers);
  }

  /** Parameter s of layer i stands at position p, and if another layer is inserted after it, its
      parameter stands one further. */
  predicate StandsAt(sd: map<string, Tensor>, out: map<string, Tensor>, i: nat, s: string, p: nat, inserted: bool) {
    var key := LayerKey(i, s);
    && key in sd && LayerKey(p, s) in out && out[LayerKey(p, s)] == sd[key]
    && (inserted ==> LayerKey(p + 1, s) in out && IsInserted(key, sd[key], out[LayerKey(p + 1, s)]))
  }

  /** Where layer i stands among the expanded ones. */
  function PlaceOf(i: nat, split: nat): nat
    requires 0 < split
  {
    i + i / split
  }

  /** After layer i another one is inserted. */
  predicate InsertsAfter(i: nat, split: nat)
    requires 0 < split
  {
    (i + 1) % split == 0
  }

  predicate Stands(sd: map<string, Tensor>, out: map<string, Tensor>, i: nat, s: string, split: nat)
    requires 0 < split
  {
    StandsAt(sd, out, i, s, PlaceOf(i, split), InsertsAfter(i, split))
  }

  ghost predicate AllStand(sd: map<string, Tensor>, out: map<string, Tensor>, n: nat, split: nat, suffixes: set<string>)
    requires 0 < split
  {
    forall i: nat, s :: i < n && s in suffixes ==> Stands(sd, out, i, s, split)
  }

  lemma ZeroedInserts(sd: map<string, Tensor>, i: nat, s: string, suffixes: set<string>)
    requires s in suffixes && LayerKey(i, s) in sd
    ensures var zeroed := Zeroed(Layer(sd, i, suffixes), i);
            s in zeroed && IsInserted(LayerKey(i, s), sd[LayerKey(i, s)], zeroed[s])
  {
  }

  lemma StandsIf(sd: map<string, Tensor>, out: map<string, Tensor>, i: nat, s: string, p: nat, inserted: bool,
                 suffixes: set<string>)
    requires s in suffixes && LayerKey(i, s) in sd && LayerKey(p, s) in out
    requires Layer(out, p, suffixes) == Layer(sd, i, suffixes)
    requires inserted ==> LayerKey(p + 1, s) in out
                          && Layer(out, p + 1, suffixes) == Zeroed(Layer(sd, i, suffixes), i)
    ensures StandsAt(sd, out, i, s, p, inserted)
  {
    assert Layer(out, p, suffixes)[s] == out[LayerKey(p, s)];
    if inserted {
      ZeroedInserts(sd, i, s, suffixes);
      assert Layer(out, p + 1, suffixes)[s] == out[LayerKey(p + 1, s)];
    }
  }

  /** If the layers of `out` are these, the layer at position p is the one there. */
  lemma LayerOfResult(out: map<string, Tensor>, m: nat, layers: seq<Params>, suffixes: set<string>,
                      others: set<string>, p: nat, s: string)
    requires IsModel(out, m, suffixes, others) && LayersOf(out, m, suffixes) == layers
    requires p < |layers| && s in suffixes
    ensures LayerKey(p, s) in out && Layer(out, p, suffixes) == layers[p]
  {
  }

  lemma StandsInLayers(sd: map<string, Tensor>, out: map<string, Tensor>, m: nat, layers: seq<Params>,
                       suffixes: set<string>, others: set<string>, i: nat, s: string, p: nat, inserted: bool)
    requires IsModel(out, m, suffixes, others) && LayersOf(out, m, suffixes) == layers
    requires s in suffixes && LayerKey(i, s) in sd && p < |layers| && layers[p] == Layer(sd, i, suffixes)
    requires inserted ==> p + 1 < |layers| && layers[p + 1] == Zeroed(Layer(sd, i, suffixes), i)
    ensures StandsAt(sd, out, i, s, p, inserted)
  {
    LayerOfResult(out, m, layers, suffixes, others, p, s);
    if inserted {
      LayerOfResult(out, m, layers, suffixes, others, p + 1, s);
    }
    StandsIf(sd, out, i, s, p, inserted, suffixes);
  }

  lemma PlaceInExpansion(layers: seq<Params>, n: nat, split: nat, i: nat, expanded: seq<Params>, p: nat)
    requires i < n <= |layers| && 0 < split && expanded == Expand(layers, n, split) && p == PlaceOf(i, split)
    ensures p < |expanded| && expanded[p] == layers[i]
    ensures InsertsAfter(i, split) ==> p + 1 < |expanded| && expanded[p + 1] == Zeroed(layers[i], i)
  {
    PositionOfLayer(layers, n, split, i);
  }

  lemma ParameterStands(sd: map<string, Tensor>, out: map<string, Tensor>, n: nat, m: nat, split: nat,
                        suffixes: set<string>, others: set<string>, i: nat, s: string)
    requires 0 < split && IsModel(sd, n, suffixes, others) && IsModel(out, m, suffixes, others)
    requires LayersOf(out, m, suffixes) == Expand(LayersOf(sd, n, suffixes), n, split) && i < n && s in suffixes
    ensures Stands(sd, out, i, s, split)
  {
    var layers, p := LayersOf(sd, n, suffixes), PlaceOf(i, split);
    var expanded := Expand(layers, n, split);
    PlaceInExpansion(layers, n, split, i, expanded, p);
    StandsInLayers(sd, out, m, expanded, suffixes, others, i, s, p, InsertsAfter(i, split));
  }

  /** The copies and the inserted layers, tensor by tensor. */
  lemma ExpandedStands(sd: map<string, Tensor>, out: map<string, Tensor>, n: nat, expand: nat, split: nat,
                       suffixes: set<string>, others: set<string>)
    requires 0 < split && IsModel(sd, n, suffixes, others) && Expanded(sd, out, n, expand, split, suffixes, others)
    ensures AllStand(sd, out, n, split, suffixes)
  {
    forall i: nat, s | i < n && s in suffixes ensures Stands(sd, out, i, s, split) {
      ParameterStands(sd, out, n, n + expand, split, suffixes, others, i, s);
    }
  }

  /** `block_expansion` on the state dictionary. */
  method BlockExpansion(sd: map<string, Tensor>, n: nat, expand: nat, ghost suffixes: set<string>,
                        ghost others: set<string>)
    returns (r: Result<map<string, Tensor>, ExpansionError>)
    requires 0 < n && IsModel(sd, n, suffixes, others)
    ensures r.Ok? <==> 0 < expand && n % expand == 0
    ensures r.Ok? ==> 0 < n / expand
    ensures r.Ok? && Unambiguous(n, suffixes, others) ==> Expanded(sd, r.value, n, expand, n / expand, suffixes, others)
    ensures r.Ok? && Unambiguous(n, suffixes, others) ==> AllStand(sd, r.value, n, n / expand, suffixes)
    ensures r.Ok? ==> PassesWritten(sd, r.value, n, n / expand)
  {
    if expand == 0 {
      return Err(DivisionByZero);
    }
    if n % expand != 0 {
      return Err(NotDivisible);
    }
    ghost var layers := LayersOf(sd, n, suffixes);
    ExpandedLength(layers, expand);
    var split := n / expand;
    var expanded := ExpandLayers(sd, n, split, suffixes, others);
    var out := CopyRest(expanded, sd);
    PassesStayWritten(sd, expanded, out, n, split);
    if Unambiguous(n, suffixes, others) {
      RestCompletes(sd, n, expand, split, suffixes, others, expanded, out, Expand(layers, n, split));
      ExpandedStands(sd, out, n, expand, split, suffixes, others);
    }
    r := Ok(out);
  }

  /** A word without dots that does not start like a number, the number d between dots, and more:
      the parameter of expert d of a layer. */
  function ExpertSuffix(word: string, d: nat, rest: string): string {
    word + Dotted(d) + rest
  }

  predicate IsWord(s: string) {
    s != "" && '.' !in s && !IsDigit(s[0])
  }

  lemma ExpertHasNumber(word: string, d: nat, rest: string)
    ensures Contains(ExpertSuffix(word, d, rest), Dotted(d)) && Contains("." + ExpertSuffix(word, d, rest), Dotted(d))
  {
    var s := ExpertSuffix(word, d, rest);
    assert s[|word|..|word| + |Dotted(d)|] == Dotted(d);
    assert MatchesAt(s, |word|, Dotted(d));
    DotAdded(s, Dotted(d));
  }

  lemma Regroup(a: string, b: string, c: string, d: string, e: string)
    ensures a + b + (c + d + e) == a + b + c + d + e
  {
  }

  /** After the layer number, no dot of the key before the expert's number is followed by a digit. */
  lemma NoDotDigitInWord(j: nat, word: string, d: nat, rest: string, p: nat)
    requires IsWord(word) && |PREFIX| < p < |PREFIX + Dotted(j) + word|
    ensures var key := LayerKey(j, ExpertSuffix(word, d, rest));
            p + 1 < |key| && !(key[p] == '.' && IsDigit(key[p + 1]))
  {
    var s := ExpertSuffix(word, d, rest);
    var start := |PREFIX| + 1 + |Digits(j)|;
    TailOfKey(j, s);
    if p >= start {
      TailIndex(LayerKey(j, s), start, p, "." + s);
      var q := p - start;
      if q == 0 {
        assert ("." + s)[1] == word[0];
      } else {
        assert ("." + s)[q] == word[q - 1];
      }
    }
  }

  lemma TailIndex(s: string, start: nat, p: nat, tail: string)
    requires start <= p && p + 1 < |s| && s[start..] == tail
    ensures s[p] == tail[p - start] && s[p + 1] == tail[p + 1 - start]
  {
  }

  lemma WordHasNoMatch(j: nat, word: string, d: nat, rest: string, i: nat, p: nat)
    requires IsWord(word) && i != j && p < |PREFIX + Dotted(j) + word|
    ensures !MatchesAt(LayerKey(j, ExpertSuffix(word, d, rest)), p, Dotted(i))
  {
    var s := ExpertSuffix(word, d, rest);
    if p < |PREFIX| {
      PrefixHasNoMatch(j, s, i, p);
    } else if p == |PREFIX| {
      OtherNumber(j, s, i);
    } else {
      NoDotDigitInWord(j, word, d, rest, p);
      MatchStartsWithDotDigit(LayerKey(j, s), p, i);
    }
  }

  /** The pass over layer d takes the parameter of expert d of another layer j, and renumbers the
      expert instead of the layer. */
  lemma ExpertIsTaken(j: nat, word: string, d: nat, rest: string, at: nat)
    requires IsWord(word) && d != j
    ensures Contains(LayerKey(j, ExpertSuffix(word, d, rest)), Dotted(d))
    ensures ChangeName(LayerKey(j, ExpertSuffix(word, d, rest)), d, at)
         == LayerKey(j, ExpertSuffix(word, at, Replace(rest, Dotted(d), Dotted(at))))
  {
    var a := PREFIX + Dotted(j) + word;
    ExpertHasNumber(word, d, rest);
    NumberInSuffix(j, ExpertSuffix(word, d, rest), Dotted(d));
    Regroup(PREFIX, Dotted(j), word, Dotted(d), rest);
    Regroup(PREFIX, Dotted(j), word, Dotted(at), Replace(rest, Dotted(d), Dotted(at)));
    forall p: nat | p < |a| ensures !MatchesAt(a + Dotted(d) + rest, p, Dotted(d)) {
      WordHasNoMatch(j, word, d, rest, d, p);
    }
    ReplaceFirst(a, Dotted(d), rest, Dotted(at));
  }

  lemma ExpertNumbersDiffer(word: string, d: nat, rest: string, at: nat, rest': string)
    requires d != at
    ensures ExpertSuffix(word, d, rest) != ExpertSuffix(word, at, rest')
  {
    if ExpertSuffix(word, d, rest) == ExpertSuffix(word, at, rest') {
      assert ExpertSuffix(word, d, rest)[|word|..] == Dotted(d) + rest;
      assert ExpertSuffix(word, at, rest')[|word|..] == Dotted(at) + rest';
      TailsAgree(d, rest, at, rest');
    }
  }

  /** Experts go astray: once layers have been inserted before layer d, the parameter of expert d of
      a layer is stored as that of another expert, which the model does not have. */
  lemma ExpertsGoAstray(sd: map<string, Tensor>, out: map<string, Tensor>, n: nat, expand: nat,
                        word: string, d: nat, rest: string)
    requires IsWord(word) && 0 < expand && 0 < n / expand <= d < n
    requires IsModel(sd, n, {ExpertSuffix(word, d, rest)}, {}) && PassesWritten(sd, out, n, n / expand)
    ensures !Unambiguous(n, {ExpertSuffix(word, d, rest)}, {})
    ensures !Expanded(sd, out, n, expand, n / expand, {ExpertSuffix(word, d, rest)}, {})
  {
    var s, at := ExpertSuffix(word, d, rest), d + d / (n / expand);
    QuotientIsPositive(d, n / expand);
    assert TakenKeysWritten(sd, out, d, at);
    StrayKey(sd, out, n, n + expand, word, d, rest, at);
    assert s in {s};
    ExpertHasNumber(word, d, rest);
    assert !HasNot(s, d, n);
  }

  lemma QuotientIsPositive(d: nat, split: nat)
    requires 0 < split <= d
    ensures d / split > 0
  {
  }

  lemma StrayKey(sd: map<string, Tensor>, out: map<string, Tensor>, n: nat, m: nat,
                 word: string, d: nat, rest: string, at: nat)
    requires IsWord(word) && 0 < d < n && at != d
    requires IsModel(sd, n, {ExpertSuffix(word, d, rest)}, {}) && TakenKeysWritten(sd, out, d, at)
    ensures !IsModel(out, m, {ExpertSuffix(word, d, rest)}, {})
  {
    var s, rest' := ExpertSuffix(word, d, rest), Replace(rest, Dotted(d), Dotted(at));
    var stray := LayerKey(0, ExpertSuffix(word, at, rest'));
    ExpertIsTaken(0, word, d, rest, at);
    assert s in {s} && LayerKey(0, s) in sd;
    assert stray in out;
    ExpertNumbersDiffer(word, d, rest, at, rest');
    forall i: nat, t | i < m && t in {s} ensures stray != LayerKey(i, t) {
      LayerKeysAreDistinct(0, ExpertSuffix(word, at, rest'), i, t);
    }
    assert !IsLayerKey(stray, m, {s});
  }

  // ------------------------------------------------------------ what it computes

  /** A pre-norm residual layer: everything but the two output projections is opaque. */
  datatype Semantics<!V> = Semantics(attention: (Params, V) -> V, outProj: (Params, V) -> V,
                                     mlp: (Params, V) -> V, downProj: (Params, V) -> V,
                                     add: (V, V) -> V, zero: V)

  predicate ZeroAt(params: Params, pattern: string) {
    forall s :: s in params && Contains(s, pattern) ==> IsZero(params[s])
  }

  /** Zero is neutral, and a projection with zero parameters gives zero. */
  ghost predicate IsResidual<V(!new)>(sem: Semantics<V>) {
    && (forall x :: sem.add(x, sem.zero) == x)
    && (forall params, y :: ZeroAt(params, "o_proj") ==> sem.outProj(params, y) == sem.zero)
    && (forall params, y :: ZeroAt(params, "down_proj") ==> sem.downProj(params, y) == sem.zero)
  }

  function ApplyLayer<V>(sem: Semantics<V>, params: Params, x: V): V {
    var h := sem.add(x, sem.outProj(params, sem.attention(params, x)));
    sem.add(h, sem.downProj(params, sem.mlp(params, h)))
  }

  /** The layers one after the other. */
  function Forward<V>(sem: Semantics<V>, layers: seq<Params>, x: V): V {
    if layers == [] then x else ApplyLayer(sem, layers[|layers| - 1], Forward(sem, layers[..|layers| - 1], x))
  }

  lemma ForwardSnoc<V>(sem: Semantics<V>, layers: seq<Params>, params: Params, x: V)
    ensures Forward(sem, layers + [params], x) == ApplyLayer(sem, params, Forward(sem, layers, x))
  {
    assert (layers + [params])[..|layers|] == layers;
  }

  lemma SuffixInKey(i: nat, s: string, pattern: string)
    requires Contains(s, pattern)
    ensures Contains(LayerKey(i, s), pattern)
  {
    var p: nat :| p <= |s| && MatchesAt(s, p, pattern);
    var key, q := LayerKey(i, s), |PREFIX + Dotted(i)| + p;
    assert key[q..q + |pattern|] == s[p..p + |pattern|];
    assert MatchesAt(key, q, pattern);
  }

  lemma ZeroedIsZero(params: Params, i: nat, pattern: string)
    requires pattern == "o_proj" || pattern == "down_proj"
    ensures ZeroAt(Zeroed(params, i), pattern)
  {
    forall s | s in params && Contains(s, pattern) ensures IsProjection(LayerKey(i, s)) {
      SuffixInKey(i, s, pattern);
    }
  }

  /** An inserted layer is the identity. */
  lemma InsertedIsIdentity<V(!new)>(sem: Semantics<V>, params: Params, i: nat, x: V)
    requires IsResidual(sem)
    ensures ApplyLayer(sem, Zeroed(params, i), x) == x
  {
    ZeroedIsZero(params, i, "o_proj");
    ZeroedIsZero(params, i, "down_proj");
  }

  lemma {:induction false} ExpandKeepsFunction<V(!new)>(sem: Semantics<V>, layers: seq<Params>, n: nat, split: nat,
                                                 x: V)
    requires n <= |layers| && 0 < split && IsResidual(sem)
    ensures Forward(sem, Expand(layers, n, split), x) == Forward(sem, layers[..n], x)
  {
    if n > 0 {
      ExpandKeepsFunction(sem, layers, n - 1, split, x);
      var before := Expand(layers, n - 1, split);
      ForwardSnoc(sem, before, layers[n - 1], x);
      TakeOneMore(layers, n);
      ForwardSnoc(sem, layers[..n - 1], layers[n - 1], x);
      if n % split == 0 {
        ForwardSnoc(sem, before + [layers[n - 1]], Zeroed(layers[n - 1], n - 1), x);
        InsertedIsIdentity(sem, layers[n - 1], n - 1, Forward(sem, layers[..n], x));
      } else {
        assert Expand(layers, n, split) == before + [layers[n - 1]];
      }
    }
  }

  /** Block expansion keeps the model's function, for every interpretation of the layers. */
  lemma ExpansionKeepsFunction<V(!new)>(sem: Semantics<V>, sd: map<string, Tensor>, out: map<string, Tensor>,
                                        n: nat, expand: nat, suffixes: set<string>, others: set<string>, x: V)
    requires 0 < expand && 0 < n / expand && IsResidual(sem)
      && Expanded(sd, out, n, expand, n / expand, suffixes, others)
    ensures Forward(sem, LayersOf(out, n + expand, suffixes), x) == Forward(sem, LayersOf(sd, n, suffixes), x)
  {
    var layers := LayersOf(sd, n, suffixes);
    ExpandKeepsFunction(sem, layers, n, n / expand, x);
    assert layers[..n] == layers;
  }
}
