/** What every sentence of the hierarchical solution says, for any values of its variables, and over
    which tree its lines are laid out (src/generator.py). */
module BalancedReading {
  import opened Decimal
  import opened Prelude
  import opened ExprText
  import opened ChainArithmetic
  import opened LinearText
  import opened BackwardSolution
  import opened BalancedSolution

  // ---------------------------------------------------------------- the tree

  /** A line of the tree over pairs of operations: `Combine` puts the run of pairs mid .. hi-1 after the
      run lo .. mid-1, `Resolve` applies the run mid .. hi-1 to a known value. */
  datatype Node = Combine(lo: nat, mid: nat, hi: nat) | Resolve(mid: nat, hi: nat)

  function ChainNodes(lo: nat, hi: nat): seq<Node>
    requires lo < hi
    decreases hi - lo
  {
    if hi - lo == 1 then []
    else
      var mid := lo + (hi - lo) / 2;
      ChainNodes(lo, mid) + ChainNodes(mid, hi) + [Combine(lo, mid, hi)]
  }

  function ResolveNodes(lo: nat, hi: nat): seq<Node>
    requires lo <= hi
    decreases hi - lo
  {
    if lo == hi then []
    else if hi - lo == 1 then [Resolve(lo, hi)]
    else
      var mid := lo + (hi - lo) / 2;
      ResolveNodes(lo, mid) + ChainNodes(mid, hi) + [Resolve(mid, hi)]
  }

  /** The operations of pairs lo .. hi-1. */
  function Pairs(data: Chain, lo: nat, hi: nat): seq<Link>
    requires lo <= hi && 2 * hi <= |data.links|
  {
    data.links[2 * lo..2 * hi]
  }

  /** A chain with at least n pairs of operations, and a name for every value. */
  ghost predicate Named(data: Chain, vars: seq<string>, n: nat, mod: nat)
    requires 0 < mod
  {
    IsChain(data, mod) && 2 * n <= |data.links| && |vars| == |data.values| && AreNames(vars)
  }

  ghost predicate SaysCombine(line: Equation, data: Chain, vars: seq<string>, mod: nat, lo: nat, mid: nat, hi: nat)
    requires 0 < mod && lo <= mid <= hi && 2 * hi <= |data.links| && |vars| == |data.links| + 1
  {
    && line.lhs == vars[2 * hi] && |line.exprs| == 2
    && SaysRun(line.exprs[0], vars[2 * mid], Pairs(data, mid, hi), mod)
    && SaysRun(line.exprs[1], vars[2 * lo], Pairs(data, lo, hi), mod)
  }

  ghost predicate SaysResolve(line: Equation, data: Chain, vars: seq<string>, mod: nat, mid: nat, hi: nat)
    requires 0 < mod && mid <= hi && 2 * hi <= |data.links| && |vars| == |data.values| == |data.links| + 1
  {
    && line.lhs == vars[2 * hi] && |line.exprs| == 3
    && SaysRun(line.exprs[0], vars[2 * mid], Pairs(data, mid, hi), mod)
    && SaysRunAt(line.exprs[1], data.values[2 * mid], Pairs(data, mid, hi), mod)
    && data.values[2 * hi] >= 0 && line.exprs[2] == Digits(data.values[2 * hi])
  }

  ghost predicate SaysNode(line: Equation, data: Chain, vars: seq<string>, mod: nat, node: Node)
    requires 0 < mod && |vars| == |data.values| == |data.links| + 1
  {
    match node
    case Combine(lo, mid, hi) =>
      lo < mid < hi && 2 * hi <= |data.links| && SaysCombine(line, data, vars, mod, lo, mid, hi)
    case Resolve(mid, hi) => mid < hi && 2 * hi <= |data.links| && SaysResolve(line, data, vars, mod, mid, hi)
  }

  ghost predicate SaysLines(lines: seq<Equation>, data: Chain, vars: seq<string>, mod: nat, nodes: seq<Node>)
    requires 0 < mod && |vars| == |data.values| == |data.links| + 1
  {
    |lines| == |nodes| && forall i :: 0 <= i < |lines| ==> SaysNode(lines[i], data, vars, mod, nodes[i])
  }

  lemma LinesJoin(a: seq<Equation>, b: seq<Equation>, line: Equation, data: Chain, vars: seq<string>, mod: nat,
                  m: seq<Node>, n: seq<Node>, node: Node)
    requires 0 < mod && |vars| == |data.values| == |data.links| + 1
    requires SaysLines(a, data, vars, mod, m) && SaysLines(b, data, vars, mod, n)
    requires SaysNode(line, data, vars, mod, node)
    ensures SaysLines(a + b + [line], data, vars, mod, m + n + [node])
  {
    var lines, nodes := a + b + [line], m + n + [node];
    forall i | 0 <= i < |lines| ensures SaysNode(lines[i], data, vars, mod, nodes[i]) {
      JoinAt(a, b, line, i);
      JoinAt(m, n, node, i);
    }
  }

  lemma JoinAt<T>(a: seq<T>, b: seq<T>, c: T, i: nat)
    requires i < |a| + |b| + 1
    ensures (a + b + [c])[i] == if i < |a| then a[i] else if i < |a| + |b| then b[i - |a|] else c
  {
  }

  // ---------------------------------------------------------------- segments

  /** The segments of pairs lo .. hi-1. */
  function Segs(data: Chain, vars: seq<string>, lo: nat, hi: nat, mod: nat): (r: seq<Segment>)
    requires 0 < mod && lo <= hi && 2 * hi <= |data.links| && |vars| == |data.links| + 1
    ensures |r| == hi - lo && forall i :: 0 <= i < hi - lo ==> r[i] == SegmentOf(data, vars, lo + i, mod)
  {
    seq(hi - lo, i requires 0 <= i < hi - lo => SegmentOf(data, vars, lo + i, mod))
  }

  lemma PairFormIsFormOf(data: Chain, s: nat, mod: nat)
    requires 0 < mod && 2 * s + 2 <= |data.links|
    ensures IsFormOf(FormOf(data, 2 * s + 1, mod), data.links[2 * s..2 * s + 1], mod)
    ensures IsFormOf(PairForm(data, s, mod), Pairs(data, s, s + 1), mod)
  {
    var a, b := data.links[2 * s], data.links[2 * s + 1];
    FormOfOne(a, mod);
    FormOfOne(b, mod);
    assert data.links[2 * s..2 * s + 1] == [a];
    assert Pairs(data, s, s + 1) == [a] + [b];
    FormOfBoth(FormOf(data, 2 * s + 1, mod), OfLink(b), [a], [b], mod);
  }

  lemma SegsCanonical(data: Chain, vars: seq<string>, lo: nat, hi: nat, mod: nat)
    requires 0 < mod && lo <= hi && 2 * hi <= |data.links| && |vars| == |data.links| + 1
    ensures AllCanonical(Segs(data, vars, lo, hi, mod), mod)
  {
    var segs := Segs(data, vars, lo, hi, mod);
    forall i | 0 <= i < |segs| ensures Canonical(segs[i].form, mod) {
      PairFormIsFormOf(data, lo + i, mod);
    }
  }

  lemma PairsSplit(data: Chain, lo: nat, mid: nat, hi: nat)
    requires lo <= mid <= hi && 2 * hi <= |data.links|
    ensures Pairs(data, lo, hi) == Pairs(data, lo, mid) + Pairs(data, mid, hi)
  {
  }

  lemma SegsHalves(data: Chain, vars: seq<string>, lo: nat, mid: nat, hi: nat, mod: nat, segs: seq<Segment>, half: nat)
    requires 0 < mod && lo < mid < hi && half == mid - lo && 2 * hi <= |data.links| && |vars| == |data.links| + 1
    requires segs == Segs(data, vars, lo, hi, mod)
    ensures segs[..half] == Segs(data, vars, lo, mid, mod) && segs[half..] == Segs(data, vars, mid, hi, mod)
    ensures segs[half - 1].endpoint == vars[2 * mid] && segs[|segs| - 1].endpoint == vars[2 * hi]
  {
    assert segs[half - 1] == SegmentOf(data, vars, mid - 1, mod);
    assert segs[|segs| - 1] == SegmentOf(data, vars, hi - 1, mod);
  }

  // -------------------------------------------------------------- the two folds

  /** The form of a run of pairs, and what the lines that compute it say. */
  ghost predicate ChainSays(r: (Linear, seq<Equation>), data: Chain, vars: seq<string>, lo: nat, hi: nat, mod: nat)
    requires 0 < mod && lo < hi && 2 * hi <= |data.links| && |vars| == |data.values| == |data.links| + 1
  {
    IsFormOf(r.0, Pairs(data, lo, hi), mod) && SaysLines(r.1, data, vars, mod, ChainNodes(lo, hi))
  }

  lemma RunText(f: Linear, name: string, links: seq<Link>, mod: nat)
    requires 0 < mod && IsFormOf(f, links, mod) && IsName(name)
    ensures SaysRun(FormatLinear(f, name), name, links, mod)
  {
    FormatSaysForm(f, name);
  }

  lemma CombineSays(left: Linear, right: Linear, data: Chain, vars: seq<string>, lo: nat, mid: nat, hi: nat, mod: nat)
    requires 0 < mod && Named(data, vars, hi, mod) && lo < mid < hi
    requires IsFormOf(left, Pairs(data, lo, mid), mod) && IsFormOf(right, Pairs(data, mid, hi), mod)
    ensures var both := Canonicalize(After(right, left), mod);
            && IsFormOf(both, Pairs(data, lo, hi), mod)
            && SaysNode(Equation(vars[2 * hi], [FormatLinear(right, vars[2 * mid]), FormatLinear(both, vars[2 * lo])]),
                        data, vars, mod, Combine(lo, mid, hi))
  {
    PairsSplit(data, lo, mid, hi);
    FormOfBoth(left, right, Pairs(data, lo, mid), Pairs(data, mid, hi), mod);
    RunText(right, vars[2 * mid], Pairs(data, mid, hi), mod);
    RunText(Canonicalize(After(right, left), mod), vars[2 * lo], Pairs(data, lo, hi), mod);
  }

  lemma ChainOfOne(data: Chain, vars: seq<string>, lo: nat, mod: nat)
    requires 0 < mod && Named(data, vars, lo + 1, mod)
    ensures AllCanonical(Segs(data, vars, lo, lo + 1, mod), mod)
    ensures ChainSays(BalanceChainRight(Segs(data, vars, lo, lo + 1, mod), vars[2 * lo], mod), data, vars, lo, lo + 1,
                      mod)
  {
    SegsCanonical(data, vars, lo, lo + 1, mod);
    PairFormIsFormOf(data, lo, mod);
  }

  lemma {:induction false} ChainRightSays(data: Chain, vars: seq<string>, lo: nat, hi: nat, mod: nat)
    requires 0 < mod && lo < hi && Named(data, vars, hi, mod)
    ensures AllCanonical(Segs(data, vars, lo, hi, mod), mod)
    ensures ChainSays(BalanceChainRight(Segs(data, vars, lo, hi, mod), vars[2 * lo], mod), data, vars, lo, hi, mod)
    decreases hi - lo
  {
    SegsCanonical(data, vars, lo, hi, mod);
    if hi - lo == 1 {
      ChainOfOne(data, vars, lo, mod);
    } else {
      var half := (hi - lo) / 2;
      var mid, segs := lo + half, Segs(data, vars, lo, hi, mod);
      ChainRightSays(data, vars, lo, mid, mod);
      ChainRightSays(data, vars, mid, hi, mod);
      SegsHalves(data, vars, lo, mid, hi, mod, segs, half);
      ChainJoins(data, vars, lo, mid, hi, mod, segs, half);
    }
  }

  lemma ChainJoins(data: Chain, vars: seq<string>, lo: nat, mid: nat, hi: nat, mod: nat, segs: seq<Segment>, half: nat)
    requires 0 < mod && Named(data, vars, hi, mod) && lo < mid < hi && mid == lo + (hi - lo) / 2
    requires |segs| > 1 && AllCanonical(segs, mod) && half == |segs| / 2
    requires segs[half - 1].endpoint == vars[2 * mid] && segs[|segs| - 1].endpoint == vars[2 * hi]
    requires ChainSays(BalanceChainRight(segs[..half], vars[2 * lo], mod), data, vars, lo, mid, mod)
    requires ChainSays(BalanceChainRight(segs[half..], vars[2 * mid], mod), data, vars, mid, hi, mod)
    ensures ChainSays(BalanceChainRight(segs, vars[2 * lo], mod), data, vars, lo, hi, mod)
  {
    var left := BalanceChainRight(segs[..half], vars[2 * lo], mod);
    var right := BalanceChainRight(segs[half..], vars[2 * mid], mod);
    ChainRightIs(segs, half, vars[2 * lo], vars[2 * mid], vars[2 * hi], mod, left, right);
    CombinedSays(data, vars, lo, mid, hi, mod, left, right);
  }

  /** The line that combines two halves. */
  function CombineText(right: Linear, both: Linear, midVar: string, pivot: string, last: string): Equation
    requires right.a >= 0 && both.a >= 0
  {
    Equation(last, [FormatLinear(right, midVar), FormatLinear(both, pivot)])
  }

  lemma ChainRightIs(segs: seq<Segment>, half: nat, pivot: string, midVar: string, last: string, mod: nat,
                     left: (Linear, seq<Equation>), right: (Linear, seq<Equation>))
    requires 0 < mod && |segs| > 1 && AllCanonical(segs, mod) && half == |segs| / 2
    requires segs[half - 1].endpoint == midVar && segs[|segs| - 1].endpoint == last
    requires left == BalanceChainRight(segs[..half], pivot, mod)
    requires right == BalanceChainRight(segs[half..], midVar, mod)
    ensures var both := Canonicalize(After(right.0, left.0), mod);
            && right.0.a >= 0 && both.a >= 0
            && BalanceChainRight(segs, pivot, mod) ==
               (both, left.1 + right.1 + [CombineText(right.0, both, midVar, pivot, last)])
  {
    CanonicalAgrees(After(right.0, left.0), 0, mod);
  }

  lemma CombinedSays(data: Chain, vars: seq<string>, lo: nat, mid: nat, hi: nat, mod: nat,
                     left: (Linear, seq<Equation>), right: (Linear, seq<Equation>))
    requires 0 < mod && Named(data, vars, hi, mod) && lo < mid < hi && mid == lo + (hi - lo) / 2
    requires ChainSays(left, data, vars, lo, mid, mod) && ChainSays(right, data, vars, mid, hi, mod)
    ensures var both := Canonicalize(After(right.0, left.0), mod);
            && right.0.a >= 0 && both.a >= 0
            && ChainSays((both,
                          left.1 + right.1 + [CombineText(right.0, both, vars[2 * mid], vars[2 * lo], vars[2 * hi])]),
                         data, vars, lo, hi, mod)
  {
    var both := Canonicalize(After(right.0, left.0), mod);
    CombineSays(left.0, right.0, data, vars, lo, mid, hi, mod);
    LinesJoin(left.1, right.1, CombineText(right.0, both, vars[2 * mid], vars[2 * lo], vars[2 * hi]), data, vars, mod,
              ChainNodes(lo, mid), ChainNodes(mid, hi), Combine(lo, mid, hi));
  }

  /** The value after a run of pairs, and what the lines that compute it say. */
  ghost predicate ResolveSays(r: (nat, seq<Equation>), data: Chain, vars: seq<string>, lo: nat, hi: nat, mod: nat)
    requires 0 < mod && lo <= hi && 2 * hi <= |data.links| && |vars| == |data.values| == |data.links| + 1
  {
    r.0 == data.values[2 * hi] && SaysLines(r.1, data, vars, mod, ResolveNodes(lo, hi))
  }

  /** A form applied to a value and reduced. */
  function Result(f: Linear, v: nat, mod: nat): nat
    requires 0 < mod
  {
    At(f, v) % mod
  }

  lemma RunGivesValue(data: Chain, f: Linear, mid: nat, hi: nat, v: nat, mod: nat)
    requires 0 < mod && IsChain(data, mod) && mid < hi && 2 * hi <= |data.links| && v == data.values[2 * mid]
    requires IsFormOf(f, Pairs(data, mid, hi), mod)
    ensures Result(f, v, mod) == data.values[2 * hi]
  {
    ValuesAreFolds(data, mod, 2 * mid, 2 * hi);
    assert Cong(At(f, v), Fold(v, Pairs(data, mid, hi)), mod);
  }

  /** The line that applies a run of pairs to the value before it. */
  lemma ResolveLineSays(data: Chain, vars: seq<string>, f: Linear, mid: nat, hi: nat, v: nat, mod: nat)
    requires 0 < mod && Named(data, vars, hi, mod) && mid < hi && v == data.values[2 * mid]
    requires IsFormOf(f, Pairs(data, mid, hi), mod)
    ensures Result(f, v, mod) == data.values[2 * hi]
    ensures SaysNode(ResolveLine(f, vars[2 * mid], v, vars[2 * hi], mod), data, vars, mod, Resolve(mid, hi))
  {
    RunGivesValue(data, f, mid, hi, v, mod);
    RunText(f, vars[2 * mid], Pairs(data, mid, hi), mod);
    FormatSaysNumber(f, v);
  }

  lemma ResolveOneIs(segs: seq<Segment>, baseVal: nat, mod: nat)
    requires 0 < mod && |segs| == 1 && AllCanonical(segs, mod)
    ensures segs[0].form.a >= 0
    ensures BalanceResolve(segs, baseVal, mod) ==
            (Result(segs[0].form, baseVal, mod),
             [ResolveLine(segs[0].form, segs[0].base, baseVal, segs[0].endpoint, mod)])
  {
    assert Canonical(segs[0].form, mod);
  }

  lemma ResolveOfOne(data: Chain, vars: seq<string>, lo: nat, v: nat, mod: nat)
    requires 0 < mod && Named(data, vars, lo + 1, mod) && v == data.values[2 * lo]
    ensures AllCanonical(Segs(data, vars, lo, lo + 1, mod), mod)
    ensures ResolveSays(BalanceResolve(Segs(data, vars, lo, lo + 1, mod), v, mod), data, vars, lo, lo + 1, mod)
  {
    var segs := Segs(data, vars, lo, lo + 1, mod);
    SegsCanonical(data, vars, lo, lo + 1, mod);
    PairFormIsFormOf(data, lo, mod);
    ResolveLineSays(data, vars, PairForm(data, lo, mod), lo, lo + 1, v, mod);
    assert segs[0] == SegmentOf(data, vars, lo, mod);
    ResolveOneIs(segs, v, mod);
  }

  lemma {:induction false} ResolveLinesSay(data: Chain, vars: seq<string>, lo: nat, hi: nat, v: nat, mod: nat)
    requires 0 < mod && lo <= hi && Named(data, vars, hi, mod) && v == data.values[2 * lo]
    ensures AllCanonical(Segs(data, vars, lo, hi, mod), mod)
    ensures ResolveSays(BalanceResolve(Segs(data, vars, lo, hi, mod), v, mod), data, vars, lo, hi, mod)
    decreases hi - lo
  {
    SegsCanonical(data, vars, lo, hi, mod);
    if hi - lo == 1 {
      ResolveOfOne(data, vars, lo, v, mod);
    } else if hi - lo > 1 {
      var half := (hi - lo) / 2;
      var mid, segs := lo + half, Segs(data, vars, lo, hi, mod);
      ResolveLinesSay(data, vars, lo, mid, v, mod);
      ChainRightSays(data, vars, mid, hi, mod);
      SegsHalves(data, vars, lo, mid, hi, mod, segs, half);
      ResolveJoins(data, vars, lo, mid, hi, mod, segs, half, v);
    }
  }

  lemma ResolveIs(segs: seq<Segment>, half: nat, baseVal: nat, pivot: string, last: string, mod: nat,
                  left: (nat, seq<Equation>), right: (Linear, seq<Equation>))
    requires 0 < mod && |segs| > 1 && AllCanonical(segs, mod) && half == |segs| / 2
    requires segs[half - 1].endpoint == pivot && segs[|segs| - 1].endpoint == last
    requires left == BalanceResolve(segs[..half], baseVal, mod)
    requires right == BalanceChainRight(segs[half..], pivot, mod)
    ensures right.0.a >= 0
    ensures BalanceResolve(segs, baseVal, mod) ==
            (Result(right.0, left.0, mod), left.1 + right.1 + [ResolveLine(right.0, pivot, left.0, last, mod)])
  {
  }

  lemma ResolveUnfoldsAt(lo: nat, mid: nat, hi: nat)
    requires lo < mid < hi && mid == lo + (hi - lo) / 2
    ensures ResolveNodes(lo, hi) == ResolveNodes(lo, mid) + ChainNodes(mid, hi) + [Resolve(mid, hi)]
  {
  }

  lemma ResolveJoins(data: Chain, vars: seq<string>, lo: nat, mid: nat, hi: nat, mod: nat, segs: seq<Segment>,
                     half: nat, v: nat)
    requires 0 < mod && Named(data, vars, hi, mod) && lo < mid < hi && mid == lo + (hi - lo) / 2
    requires |segs| > 1 && AllCanonical(segs, mod) && half == |segs| / 2
    requires segs[half - 1].endpoint == vars[2 * mid] && segs[|segs| - 1].endpoint == vars[2 * hi]
    requires ResolveSays(BalanceResolve(segs[..half], v, mod), data, vars, lo, mid, mod)
    requires ChainSays(BalanceChainRight(segs[half..], vars[2 * mid], mod), data, vars, mid, hi, mod)
    ensures ResolveSays(BalanceResolve(segs, v, mod), data, vars, lo, hi, mod)
  {
    ResolveUnfoldsAt(lo, mid, hi);
    ResolveJoinsAt(data, vars, lo, mid, hi, mod, segs, half, v);
  }

  lemma ResolveJoinsAt(data: Chain, vars: seq<string>, lo: nat, mid: nat, hi: nat, mod: nat, segs: seq<Segment>,
                       half: nat, v: nat)
    requires 0 < mod && Named(data, vars, hi, mod) && lo < mid < hi
    requires ResolveNodes(lo, hi) == ResolveNodes(lo, mid) + ChainNodes(mid, hi) + [Resolve(mid, hi)]
    requires |segs| > 1 && AllCanonical(segs, mod) && half == |segs| / 2
    requires segs[half - 1].endpoint == vars[2 * mid] && segs[|segs| - 1].endpoint == vars[2 * hi]
    requires ResolveSays(BalanceResolve(segs[..half], v, mod), data, vars, lo, mid, mod)
    requires ChainSays(BalanceChainRight(segs[half..], vars[2 * mid], mod), data, vars, mid, hi, mod)
    ensures ResolveSays(BalanceResolve(segs, v, mod), data, vars, lo, hi, mod)
  {
    var left := BalanceResolve(segs[..half], v, mod);
    var right := BalanceChainRight(segs[half..], vars[2 * mid], mod);
    ResolveIs(segs, half, v, vars[2 * mid], vars[2 * hi], mod, left, right);
    ResolvedHalves(data, vars, lo, mid, hi, mod, left, right);
  }

  lemma ResolvedHalves(data: Chain, vars: seq<string>, lo: nat, mid: nat, hi: nat, mod: nat,
                       left: (nat, seq<Equation>), right: (Linear, seq<Equation>))
    requires 0 < mod && Named(data, vars, hi, mod) && lo < mid < hi
    requires ResolveNodes(lo, hi) == ResolveNodes(lo, mid) + ChainNodes(mid, hi) + [Resolve(mid, hi)]
    requires ResolveSays(left, data, vars, lo, mid, mod) && ChainSays(right, data, vars, mid, hi, mod)
    ensures right.0.a >= 0
    ensures ResolveSays((Result(right.0, left.0, mod),
                         left.1 + right.1 + [ResolveLine(right.0, vars[2 * mid], left.0, vars[2 * hi], mod)]),
                        data, vars, lo, hi, mod)
  {
    var line := ResolveLine(right.0, vars[2 * mid], left.0, vars[2 * hi], mod);
    ResolveLineSays(data, vars, right.0, mid, hi, left.0, mod);
    ResolvedSays(data, vars, lo, mid, hi, mod, left.1, right.1, Result(right.0, left.0, mod), line);
  }

  lemma ResolvedSays(data: Chain, vars: seq<string>, lo: nat, mid: nat, hi: nat, mod: nat, left: seq<Equation>,
                     right: seq<Equation>, v: nat, line: Equation)
    requires 0 < mod && lo < mid < hi
    requires ResolveNodes(lo, hi) == ResolveNodes(lo, mid) + ChainNodes(mid, hi) + [Resolve(mid, hi)]
    requires 2 * hi <= |data.links| && |vars| == |data.values| == |data.links| + 1
    requires SaysLines(left, data, vars, mod, ResolveNodes(lo, mid))
    requires SaysLines(right, data, vars, mod, ChainNodes(mid, hi))
    requires v == data.values[2 * hi] && SaysNode(line, data, vars, mod, Resolve(mid, hi))
    ensures ResolveSays((v, left + right + [line]), data, vars, lo, hi, mod)
  {
    LinesJoin(left, right, line, data, vars, mod, ResolveNodes(lo, mid), ChainNodes(mid, hi), Resolve(mid, hi));
  }

  // ---------------------------------------------------------- the pair sentences

  /** The text applies one more operation to the form of a run, with parentheses around a sum. */
  ghost predicate SaysOperationOn(text: string, name: string, run: seq<Link>, l: Link, mod: nat)
    requires 0 < mod
  {
    exists f: Linear :: IsFormOf(f, run, mod) && AppliesTo(text, name, f, l)
  }

  ghost predicate AppliesTo(text: string, name: string, f: Linear, l: Link) {
    && (forall env: Env :: Value(env, text) == Some(Apply(At(f, env(name)), l)))
    && Lex(text).Some? && (Open in Lex(text).value <==> f.b != 0)
  }

  /** Operation 2s+1: on the variable before it, and for a product also its canonical form. */
  ghost predicate SaysFirstOfPair(eq: Equation, data: Chain, vars: seq<string>, s: nat, mod: nat)
    requires 0 < mod && 2 * s + 2 <= |data.links| && |vars| == |data.links| + 1
  {
    var l := data.links[2 * s];
    && eq.lhs == vars[2 * s + 1] && |eq.exprs| == (if l.op == Mul then 2 else 1)
    && IsOperation(eq.exprs[0], Var(vars[2 * s]), l)
    && (l.op == Mul ==> SaysRun(eq.exprs[1], vars[2 * s], data.links[2 * s..2 * s + 1], mod))
  }

  /** Operation 2s+2: on the variable before it, with operation 2s+1 substituted, and the form of
      both if that is another text. */
  ghost predicate SaysSecondOfPair(eq: Equation, data: Chain, vars: seq<string>, s: nat, mod: nat)
    requires 0 < mod && 2 * s + 2 <= |data.links| && |vars| == |data.links| + 1
  {
    var l := data.links[2 * s + 1];
    && eq.lhs == vars[2 * s + 2] && 2 <= |eq.exprs| <= 3
    && IsOperation(eq.exprs[0], Var(vars[2 * s + 1]), l)
    && SaysOperationOn(eq.exprs[1], vars[2 * s], data.links[2 * s..2 * s + 1], l, mod)
    && SaysRun(eq.exprs[|eq.exprs| - 1], vars[2 * s], Pairs(data, s, s + 1), mod)
    && (|eq.exprs| == 3 ==> eq.exprs[1] != eq.exprs[2])
  }

  lemma FormatHasNoParens(f: Linear, name: string)
    requires f.a >= 0 && IsName(name)
    ensures Lex(FormatLinear(f, name)).Some? && Open !in Lex(FormatLinear(f, name)).value
  {
    LexName(name);
    FormatLinearTokens(f, name);
  }

  lemma ParensLex(s: string)
    requires Lex(s).Some?
    ensures Lex(Parens(s)) == Some([Open] + Lex(s).value + [Close])
  {
    LexSymbolChar('(', Open);
    LexSymbolChar(')', Close);
    LexConcat("(", s);
    LexConcat("(" + s, ")");
  }

  lemma SubstitutedValue(env: Env, f: Linear, name: string, l: Link)
    requires f.a >= 0 && IsName(name)
    ensures var text := FormatLinear(f, name);
            Value(env, Joined(if f.b != 0 then Parens(text) else text, l)) == Some(Apply(At(f, env(name)), l))
  {
    var x, text := env(name), FormatLinear(f, name);
    NameIsSymbol(env, name);
    if f.b != 0 {
      FormatLinearIsSum(env, f, name, x);
      ParensMakeFactor(env, text, At(f, x));
      FactorIsTerm(env, Parens(text), At(f, x));
    } else {
      FormatMultipleReads(env, f, name, x);
    }
    var inner := if f.b != 0 then Parens(text) else text;
    JoinedTerm(env, inner, At(f, x), l);
    SumHasValue(env, Joined(inner, l), Apply(At(f, x), l));
  }

  lemma SubstitutedSays(f: Linear, name: string, l: Link)
    requires f.a >= 0 && IsName(name)
    ensures var text := FormatLinear(f, name);
            AppliesTo(Joined(if f.b != 0 then Parens(text) else text, l), name, f, l)
  {
    var text := FormatLinear(f, name);
    var inner := if f.b != 0 then Parens(text) else text;
    FormatHasNoParens(f, name);
    ParensLex(text);
    JoinedTokens(inner, l);
    forall env: Env ensures Value(env, Joined(inner, l)) == Some(Apply(At(f, env(name)), l)) {
      SubstitutedValue(env, f, name, l);
    }
  }

  lemma FirstOfPairSays(data: Chain, vars: seq<string>, s: nat, mod: nat)
    requires 0 < mod && 2 * s + 2 <= |data.links| && |vars| == |data.links| + 1 && AreNames(vars)
    ensures SaysFirstOfPair(FirstOfPair(data, vars, s, mod), data, vars, s, mod)
  {
    PairFormIsFormOf(data, s, mod);
    JoinedIsOperation(vars[2 * s], 0, data.links[2 * s]);
    RunText(FormOf(data, 2 * s + 1, mod), vars[2 * s], data.links[2 * s..2 * s + 1], mod);
  }

  lemma SecondOfPairSays(data: Chain, vars: seq<string>, s: nat, mod: nat)
    requires 0 < mod && 2 * s + 2 <= |data.links| && |vars| == |data.links| + 1 && AreNames(vars)
    ensures SaysSecondOfPair(SecondOfPair(data, vars, s, mod), data, vars, s, mod)
  {
    PairFormIsFormOf(data, s, mod);
    JoinedIsOperation(vars[2 * s + 1], 0, data.links[2 * s + 1]);
    SubstitutedSays(FormOf(data, 2 * s + 1, mod), vars[2 * s], data.links[2 * s + 1]);
    RunText(PairForm(data, s, mod), vars[2 * s], Pairs(data, s, s + 1), mod);
  }

  ghost predicate SaysPair(partA: Equation, partB: Equation, data: Chain, vars: seq<string>, s: nat, mod: nat)
    requires 0 < mod && 2 * s + 2 <= |data.links| && |vars| == |data.links| + 1
  {
    SaysFirstOfPair(partA, data, vars, s, mod) && SaysSecondOfPair(partB, data, vars, s, mod)
  }

  /** The sentences of pairs 1 .. n-1, two for each. */
  ghost predicate SaysPairs(parts: seq<Equation>, data: Chain, vars: seq<string>, n: nat, mod: nat)
    requires 0 < mod && 0 < n && 2 * n <= |data.links| && |vars| == |data.links| + 1
  {
    |parts| == 2 * (n - 1) &&
    forall s :: 0 < s < n ==> SaysPair(parts[2 * s - 2], parts[2 * s - 1], data, vars, s, mod)
  }

  lemma PairsGrow(parts: seq<Equation>, partA: Equation, partB: Equation, data: Chain, vars: seq<string>, n: nat,
                  mod: nat)
    requires 0 < mod && 0 < n && 2 * n + 2 <= |data.links| && |vars| == |data.links| + 1
    requires SaysPairs(parts, data, vars, n, mod) && SaysPair(partA, partB, data, vars, n, mod)
    ensures SaysPairs(parts + [partA, partB], data, vars, n + 1, mod)
  {
    var all := parts + [partA, partB];
    forall s | 0 < s < n + 1 ensures SaysPair(all[2 * s - 2], all[2 * s - 1], data, vars, s, mod) {
      if s < n {
        assert all[2 * s - 2] == parts[2 * s - 2] && all[2 * s - 1] == parts[2 * s - 1];
      } else {
        assert all[2 * s - 2] == partA && all[2 * s - 1] == partB;
      }
    }
  }

  lemma {:induction false} PairPartsSay(data: Chain, vars: seq<string>, n: nat, mod: nat)
    requires 0 < mod && 0 < n && 2 * n <= |data.links| && |vars| == |data.links| + 1 && AreNames(vars)
    ensures SaysPairs(PairParts(data, vars, n, mod), data, vars, n, mod)
  {
    if n > 1 {
      var s := n - 1;
      PairPartsSay(data, vars, s, mod);
      FirstOfPairSays(data, vars, s, mod);
      SecondOfPairSays(data, vars, s, mod);
      PairsGrow(PairParts(data, vars, s, mod), FirstOfPair(data, vars, s, mod), SecondOfPair(data, vars, s, mod), data,
                vars, s, mod);
    }
  }

  // ---------------------------------------------------------------- the solution

  /** The first value, and the first two operations on the values. */
  ghost predicate SaysFirst(parts: seq<Equation>, data: Chain, vars: seq<string>)
    requires 2 <= |data.links| && |vars| == |data.values| == |data.links| + 1
    requires forall i :: 0 <= i < |data.values| ==> data.values[i] >= 0
  {
    var v, l := data.values, data.links;
    && |parts| == 3 && parts[0] == Equation(vars[0], [Digits(v[0])])
    && parts[1].lhs == vars[1] && |parts[1].exprs| == 2
    && IsOperation(parts[1].exprs[0], Num(v[0]), l[0]) && parts[1].exprs[1] == Digits(v[1])
    && parts[2].lhs == vars[2] && |parts[2].exprs| == 3
    && IsOperation(parts[2].exprs[0], Var(vars[1]), l[1]) && IsOperation(parts[2].exprs[1], Num(v[1]), l[1])
    && parts[2].exprs[2] == Digits(v[2])
  }

  lemma FirstPartsSay(data: Chain, vars: seq<string>, mod: nat)
    requires 0 < mod && IsChain(data, mod) && 2 <= |data.links| && |vars| == |data.values| && AreNames(vars)
    requires forall i :: 0 <= i < |data.values| ==> data.values[i] >= 0
    ensures SaysFirst(FirstParts(data, vars, mod), data, vars)
  {
    JoinedIsOperation(vars[1], data.values[0], data.links[0]);
    JoinedIsOperation(vars[1], data.values[1], data.links[1]);
  }

  lemma SegmentsAreSegs(data: Chain, vars: seq<string>, n: nat, mod: nat)
    requires 0 < mod && 0 < n && 2 * n <= |data.links| && |vars| == |data.links| + 1
    ensures Segments(data, vars, n, mod) == Segs(data, vars, 1, n, mod)
  {
  }

  /** The first three sentences, two for every further pair, and the lines of the tree that resolves
      the pairs. */
  ghost predicate SaysBalanced(parts: seq<Equation>, data: Chain, vars: seq<string>, n: nat, mod: nat)
    requires 0 < mod && 0 < n && 2 * n <= |data.links| && |vars| == |data.values| == |data.links| + 1
    requires forall i :: 0 <= i < |data.values| ==> data.values[i] >= 0
  {
    && 2 * n + 1 <= |parts|
    && SaysFirst(parts[..3], data, vars)
    && SaysPairs(parts[3..2 * n + 1], data, vars, n, mod)
    && SaysLines(parts[2 * n + 1..], data, vars, mod, ResolveNodes(1, n))
  }

  /** Every sentence of the hierarchical solution says this. */
  lemma BalancedPartsSay(data: Chain, vars: seq<string>, mod: nat)
    requires 0 < mod && IsChain(data, mod) && 2 <= |data.links| && |data.links| % 2 == 0
    requires |vars| == |data.values| && AreNames(vars)
    ensures forall i :: 0 <= i < |data.values| ==> data.values[i] >= 0
    ensures SaysBalanced(BalancedParts(data, vars, mod), data, vars, |data.links| / 2, mod)
  {
    ValuesAreNatural(data, mod);
    var n := |data.links| / 2;
    FirstPartsSay(data, vars, mod);
    PairPartsSay(data, vars, n, mod);
    TreeLinesSay(data, vars, n, mod);
    BalancedInParts(data, vars, mod, n);
  }

  lemma TreeLinesSay(data: Chain, vars: seq<string>, n: nat, mod: nat)
    requires 0 < mod && 0 < n && Named(data, vars, n, mod) && data.values[2] >= 0
    ensures AllCanonical(Segs(data, vars, 1, n, mod), mod)
    ensures SaysLines(BalanceResolve(Segs(data, vars, 1, n, mod), data.values[2], mod).1, data, vars, mod,
                      ResolveNodes(1, n))
  {
    ResolveLinesSay(data, vars, 1, n, data.values[2], mod);
  }

  lemma BalancedPartsAre(data: Chain, vars: seq<string>, mod: nat, n: nat)
    requires 0 < mod && IsChain(data, mod) && 2 <= |data.links| && |data.links| % 2 == 0 && |vars| == |data.values|
    requires n == |data.links| / 2 && forall i :: 0 <= i < |data.values| ==> data.values[i] >= 0
    requires AllCanonical(Segments(data, vars, n, mod), mod)
    ensures BalancedParts(data, vars, mod) ==
            FirstParts(data, vars, mod) + PairParts(data, vars, n, mod)
            + BalanceResolve(Segments(data, vars, n, mod), data.values[2], mod).1
  {
  }

  lemma BalancedInParts(data: Chain, vars: seq<string>, mod: nat, n: nat)
    requires 0 < mod && IsChain(data, mod) && 2 <= |data.links| && |data.links| % 2 == 0 && |vars| == |data.values|
    requires n == |data.links| / 2 && forall i :: 0 <= i < |data.values| ==> data.values[i] >= 0
    requires AllCanonical(Segs(data, vars, 1, n, mod), mod)
    ensures var parts := BalancedParts(data, vars, mod);
            && |parts| >= 2 * n + 1
            && parts[..3] == FirstParts(data, vars, mod) && parts[3..2 * n + 1] == PairParts(data, vars, n, mod)
            && parts[2 * n + 1..] == BalanceResolve(Segs(data, vars, 1, n, mod), data.values[2], mod).1
  {
    SegmentsAreSegs(data, vars, n, mod);
    BalancedPartsAre(data, vars, mod, n);
    var parts, a, b := BalancedParts(data, vars, mod), FirstParts(data, vars, mod), PairParts(data, vars, n, mod);
    ThreeParts(parts, a, b, BalanceResolve(Segs(data, vars, 1, n, mod), data.values[2], mod).1, 3, 2 * n + 1);
  }

  lemma ThreeParts(parts: seq<Equation>, a: seq<Equation>, b: seq<Equation>, c: seq<Equation>, i: nat, j: nat)
    requires parts == a + b + c && i == |a| && j == |a| + |b|
    ensures |parts| >= j && parts[..i] == a && parts[i..j] == b && parts[j..] == c
  {
  }
}
