/** The hierarchical solution: operations are paired into segments, and the segments are folded
    over a balanced tree of linear forms (src/generator.py). */
module BalancedSolution {
  import opened Decimal
  import opened Prelude
  import opened ExprText
  import opened ChainArithmetic
  import opened LinearText
  import opened BackwardSolution

  /** "endpoint is a * base + b" */
  datatype Segment = Segment(endpoint: string, base: string, form: Linear)

  // ----------------------------------------------------------- balanced folds

  predicate AllCanonical(segs: seq<Segment>, mod: nat)
    requires 0 < mod
  {
    forall i :: 0 <= i < |segs| ==> Canonical(segs[i].form, mod)
  }

  /** `_balance_chain_right` */
  function BalanceChainRight(segs: seq<Segment>, pivot: string, mod: nat): (r: (Linear, seq<Equation>))
    requires 0 < mod && segs != [] && AllCanonical(segs, mod)
    ensures Canonical(r.0, mod) && |r.1| == |segs| - 1
    decreases |segs|
  {
    if |segs| == 1 then (segs[0].form, [])
    else
      var mid := |segs| / 2;
      var midVar := segs[mid - 1].endpoint;
      var (left, leftLines) := BalanceChainRight(segs[..mid], pivot, mod);
      var (right, rightLines) := BalanceChainRight(segs[mid..], midVar, mod);
      var combined := Canonicalize(After(right, left), mod);
      CanonicalAgrees(After(right, left), 0, mod);
      var line := Equation(segs[|segs| - 1].endpoint, [FormatLinear(right, midVar), FormatLinear(combined, pivot)]);
      (combined, leftLines + rightLines + [line])
  }

  /** "endpoint = form = form at v = result" */
  function ResolveLine(f: Linear, name: string, v: nat, endpoint: string, mod: nat): Equation
    requires 0 < mod && f.a >= 0
  {
    Equation(endpoint, [FormatLinear(f, name), FormatLinearWithLiteral(f, v), Digits(At(f, v) % mod)])
  }

  /** `_balance_resolve`: n segments give n lines. */
  function BalanceResolve(segs: seq<Segment>, baseVal: nat, mod: nat): (r: (nat, seq<Equation>))
    requires 0 < mod && AllCanonical(segs, mod)
    ensures |r.1| == |segs| && (segs != [] ==> r.0 < mod)
    decreases |segs|
  {
    if segs == [] then (baseVal, [])
    else if |segs| == 1 then
      var s := segs[0];
      assert Canonical(s.form, mod);
      var result := At(s.form, baseVal) % mod;
      (result, [ResolveLine(s.form, s.base, baseVal, s.endpoint, mod)])
    else
      var mid := |segs| / 2;
      var pivot := segs[mid - 1].endpoint;
      var (leftVal, leftLines) := BalanceResolve(segs[..mid], baseVal, mod);
      var (right, rightLines) := BalanceChainRight(segs[mid..], pivot, mod);
      var result := At(right, leftVal) % mod;
      (result, leftLines + rightLines + [ResolveLine(right, pivot, leftVal, segs[|segs| - 1].endpoint, mod)])
  }

  /** The segments applied one after the other. */
  function FoldSegments(x: int, segs: seq<Segment>): int {
    if segs == [] then x else At(segs[|segs| - 1].form, FoldSegments(x, segs[..|segs| - 1]))
  }

  lemma {:induction false} FoldSegmentsSplit(x: int, left: seq<Segment>, right: seq<Segment>)
    ensures FoldSegments(x, left + right) == FoldSegments(FoldSegments(x, left), right)
    decreases |right|
  {
    if right == [] {
      assert left + right == left;
    } else {
      assert (left + right)[..|left + right| - 1] == left + right[..|right| - 1];
      FoldSegmentsSplit(x, left, right[..|right| - 1]);
    }
  }

  lemma CombineIsFold(left: Linear, right: Linear, x: int, y: int, z: int, mod: nat)
    requires 0 < mod && Cong(At(left, x), y, mod) && Cong(At(right, y), z, mod)
    ensures Cong(At(Canonicalize(After(right, left), mod), x), z, mod)
  {
    AtCong(right, At(left, x), y, mod);
    AfterIsComposition(right, left, x);
    CanonicalAgrees(After(right, left), x, mod);
  }

  lemma ResultIsFold(f: Linear, v: int, y: int, z: int, mod: nat)
    requires 0 < mod && Cong(v, y, mod) && Cong(At(f, y), z, mod)
    ensures Cong(At(f, v) % mod, z, mod)
  {
    AtCong(f, v, y, mod);
    CongMod(At(f, v), mod);
  }

  lemma HalvesFold(segs: seq<Segment>, x: int)
    requires |segs| > 1
    ensures FoldSegments(x, segs) == FoldSegments(FoldSegments(x, segs[..|segs| / 2]), segs[|segs| / 2..])
  {
    FoldSegmentsSplit(x, segs[..|segs| / 2], segs[|segs| / 2..]);
    assert segs[..|segs| / 2] + segs[|segs| / 2..] == segs;
  }

  lemma OneSegmentFold(segs: seq<Segment>, x: int)
    requires |segs| == 1
    ensures FoldSegments(x, segs) == At(segs[0].form, x)
  {
    assert segs[..0] == [];
  }

  /** The tree of compositions is the left-to-right fold, from any start. */
  lemma {:induction false} ChainRightIsFold(segs: seq<Segment>, pivot: string, mod: nat, x: int)
    requires 0 < mod && segs != [] && AllCanonical(segs, mod)
    ensures Cong(At(BalanceChainRight(segs, pivot, mod).0, x), FoldSegments(x, segs), mod)
    decreases |segs|
  {
    if |segs| == 1 {
      OneSegmentFold(segs, x);
    } else {
      var mid := |segs| / 2;
      var midVar := segs[mid - 1].endpoint;
      var left := BalanceChainRight(segs[..mid], pivot, mod).0;
      var right := BalanceChainRight(segs[mid..], midVar, mod).0;
      var leftFold := FoldSegments(x, segs[..mid]);
      ChainRightIsFold(segs[..mid], pivot, mod, x);
      ChainRightIsFold(segs[mid..], midVar, mod, leftFold);
      HalvesFold(segs, x);
      CombineIsFold(left, right, x, leftFold, FoldSegments(x, segs), mod);
      assert BalanceChainRight(segs, pivot, mod).0 == Canonicalize(After(right, left), mod);
    }
  }

  /** Resolving over the tree is the left-to-right fold. */
  lemma {:induction false} ResolveIsFold(segs: seq<Segment>, baseVal: nat, mod: nat)
    requires 0 < mod && AllCanonical(segs, mod)
    ensures Cong(BalanceResolve(segs, baseVal, mod).0, FoldSegments(baseVal, segs), mod)
    decreases |segs|
  {
    if |segs| == 1 {
      OneSegmentFold(segs, baseVal);
      CongMod(At(segs[0].form, baseVal), mod);
    } else if |segs| > 1 {
      var mid := |segs| / 2;
      var pivot := segs[mid - 1].endpoint;
      var leftVal := BalanceResolve(segs[..mid], baseVal, mod).0;
      var right := BalanceChainRight(segs[mid..], pivot, mod).0;
      var leftFold := FoldSegments(baseVal, segs[..mid]);
      ResolveIsFold(segs[..mid], baseVal, mod);
      ChainRightIsFold(segs[mid..], pivot, mod, leftFold);
      HalvesFold(segs, baseVal);
      ResultIsFold(right, leftVal, leftFold, FoldSegments(baseVal, segs), mod);
      assert BalanceResolve(segs, baseVal, mod).0 == At(right, leftVal) % mod;
    }
  }

  // -------------------------------------------------------- truth of the lines

  predicate AllTrue(env: Env, lines: seq<Equation>, mod: nat)
    requires 0 < mod
  {
    forall i :: 0 <= i < |lines| ==> True(env, lines[i], mod)
  }

  function BaseOf(segs: seq<Segment>, base: string, i: nat): string
    requires i < |segs|
  {
    if i == 0 then base else segs[i - 1].endpoint
  }

  /** Each segment starts where the one before ends, and env agrees with its form. */
  ghost predicate SegmentHolds(env: Env, segs: seq<Segment>, base: string, mod: nat, i: nat)
    requires 0 < mod && i < |segs|
  {
    && Canonical(segs[i].form, mod) && IsName(segs[i].endpoint)
    && segs[i].base == BaseOf(segs, base, i)
    && Cong(At(segs[i].form, env(segs[i].base)), env(segs[i].endpoint), mod)
  }

  ghost predicate SegmentsHold(env: Env, segs: seq<Segment>, base: string, mod: nat)
    requires 0 < mod
  {
    IsName(base) && forall i :: 0 <= i < |segs| ==> SegmentHolds(env, segs, base, mod, i)
  }

  lemma CanonicalSplit(segs: seq<Segment>, mod: nat, mid: nat)
    requires 0 < mod && mid <= |segs| && AllCanonical(segs, mod)
    ensures AllCanonical(segs[..mid], mod) && AllCanonical(segs[mid..], mod)
  {
  }

  lemma SegmentsSplit(env: Env, segs: seq<Segment>, base: string, mod: nat, mid: nat)
    requires 0 < mod && 0 < mid < |segs| && SegmentsHold(env, segs, base, mod)
    ensures SegmentsHold(env, segs[..mid], base, mod)
    ensures SegmentsHold(env, segs[mid..], segs[mid - 1].endpoint, mod)
  {
    forall i: nat | i < mid ensures SegmentHolds(env, segs[..mid], base, mod, i) {
      assert SegmentHolds(env, segs, base, mod, i);
      assert BaseOf(segs[..mid], base, i) == BaseOf(segs, base, i);
    }
    assert SegmentHolds(env, segs, base, mod, mid - 1);
    var right, pivot := segs[mid..], segs[mid - 1].endpoint;
    forall i: nat | i < |right| ensures SegmentHolds(env, right, pivot, mod, i) {
      assert SegmentHolds(env, segs, base, mod, mid + i);
    }
  }

  /** Applied to the base's value, the segments reach the value of the last endpoint. */
  lemma {:induction false} SegmentsReachTheEnd(env: Env, segs: seq<Segment>, base: string, mod: nat)
    requires 0 < mod && segs != [] && SegmentsHold(env, segs, base, mod)
    ensures Cong(FoldSegments(env(base), segs), env(segs[|segs| - 1].endpoint), mod)
    decreases |segs|
  {
    var n := |segs|;
    assert SegmentHolds(env, segs, base, mod, n - 1);
    if n == 1 {
      assert segs[..0] == [];
    } else {
      SegmentsSplit(env, segs, base, mod, n - 1);
      SegmentsReachTheEnd(env, segs[..n - 1], base, mod);
      AtCong(segs[n - 1].form, FoldSegments(env(base), segs[..n - 1]), env(segs[n - 2].endpoint), mod);
    }
  }

  lemma FormReads(env: Env, f: Linear, name: string, x: int, mod: nat)
    requires 0 < mod && f.a >= 0 && IsName(name) && Cong(At(f, env(name)), x, mod)
    ensures Value(env, FormatLinear(f, name)).Some? && Cong(Value(env, FormatLinear(f, name)).value, x, mod)
  {
    NameIsSymbol(env, name);
    FormatLinearReads(env, f, name, env(name));
  }

  lemma AllTrueJoin(env: Env, a: seq<Equation>, b: seq<Equation>, line: Equation, mod: nat)
    requires 0 < mod && AllTrue(env, a, mod) && AllTrue(env, b, mod) && True(env, line, mod)
    ensures AllTrue(env, a + b + [line], mod)
  {
  }

  lemma ChainRightReachesTheEnd(env: Env, segs: seq<Segment>, pivot: string, mod: nat)
    requires 0 < mod && segs != [] && SegmentsHold(env, segs, pivot, mod)
    requires AllCanonical(segs, mod)
    ensures Cong(At(BalanceChainRight(segs, pivot, mod).0, env(pivot)), env(segs[|segs| - 1].endpoint), mod)
  {
    ChainRightIsFold(segs, pivot, mod, env(pivot));
    SegmentsReachTheEnd(env, segs, pivot, mod);
  }

  lemma CombineLineIsTrue(env: Env, f: Linear, name: string, g: Linear, pivot: string, last: string, mod: nat)
    requires 0 < mod && f.a >= 0 && g.a >= 0 && IsName(name) && IsName(pivot)
    requires Cong(At(f, env(name)), env(last), mod) && Cong(At(g, env(pivot)), env(last), mod)
    ensures True(env, Equation(last, [FormatLinear(f, name), FormatLinear(g, pivot)]), mod)
  {
    FormReads(env, f, name, env(last), mod);
    FormReads(env, g, pivot, env(last), mod);
  }

  /** The last line that `_balance_chain_right` adds for more than one segment. */
  function CombineLine(segs: seq<Segment>, pivot: string, mod: nat): Equation
    requires 0 < mod && |segs| > 1 && AllCanonical(segs, mod)
  {
    var midVar := segs[|segs| / 2 - 1].endpoint;
    Equation(segs[|segs| - 1].endpoint,
             [FormatLinear(BalanceChainRight(segs[|segs| / 2..], midVar, mod).0, midVar),
              FormatLinear(BalanceChainRight(segs, pivot, mod).0, pivot)])
  }

  lemma ChainRightUnfolds(segs: seq<Segment>, pivot: string, mod: nat)
    requires 0 < mod && |segs| > 1 && AllCanonical(segs, mod)
    ensures BalanceChainRight(segs, pivot, mod).1 ==
            BalanceChainRight(segs[..|segs| / 2], pivot, mod).1
            + BalanceChainRight(segs[|segs| / 2..], segs[|segs| / 2 - 1].endpoint, mod).1
             + [CombineLine(segs, pivot, mod)]
  {
  }

  lemma CombineLineHolds(env: Env, segs: seq<Segment>, pivot: string, mod: nat)
    requires 0 < mod && |segs| > 1 && SegmentsHold(env, segs, pivot, mod) && AllCanonical(segs, mod)
    ensures True(env, CombineLine(segs, pivot, mod), mod)
  {
    var mid := |segs| / 2;
    var midVar, last := segs[mid - 1].endpoint, segs[|segs| - 1].endpoint;
    SegmentsSplit(env, segs, pivot, mod, mid);
    CanonicalSplit(segs, mod, mid);
    ChainRightReachesTheEnd(env, segs, pivot, mod);
    ChainRightReachesTheEnd(env, segs[mid..], midVar, mod);
    CombineLineIsTrue(env, BalanceChainRight(segs[mid..], midVar, mod).0, midVar,
                      BalanceChainRight(segs, pivot, mod).0, pivot, last, mod);
  }

  /** Every line of the right-hand fold is true. */
  lemma {:induction false} ChainRightLinesAreTrue(env: Env, segs: seq<Segment>, pivot: string, mod: nat)
    requires 0 < mod && segs != [] && SegmentsHold(env, segs, pivot, mod) && AllCanonical(segs, mod)
    ensures AllTrue(env, BalanceChainRight(segs, pivot, mod).1, mod)
    decreases |segs|
  {
    if |segs| > 1 {
      var mid := |segs| / 2;
      var midVar := segs[mid - 1].endpoint;
      SegmentsSplit(env, segs, pivot, mod, mid);
      CanonicalSplit(segs, mod, mid);
      ChainRightLinesAreTrue(env, segs[..mid], pivot, mod);
      ChainRightLinesAreTrue(env, segs[mid..], midVar, mod);
      CombineLineHolds(env, segs, pivot, mod);
      ChainRightUnfolds(segs, pivot, mod);
      AllTrueJoin(env, BalanceChainRight(segs[..mid], pivot, mod).1, BalanceChainRight(segs[mid..], midVar, mod).1,
                  CombineLine(segs, pivot, mod), mod);
    }
  }

  lemma ResolveLineIsTrue(env: Env, f: Linear, name: string, v: nat, last: string, mod: nat)
    requires 0 < mod && f.a >= 0 && IsName(name) && Cong(v, env(name), mod) && Cong(At(f, env(name)), env(last), mod)
    ensures True(env, ResolveLine(f, name, v, last, mod), mod)
  {
    FormReads(env, f, name, env(last), mod);
    FormatLiteralReads(env, f, v);
    AtCong(f, v, env(name), mod);
    NumberReads(env, At(f, v) % mod);
    CongMod(At(f, v), mod);
  }

  /** The resolved value is the last endpoint's. */
  lemma ResolveReachesTheEnd(env: Env, segs: seq<Segment>, base: string, baseVal: nat, mod: nat)
    requires 0 < mod && segs != [] && SegmentsHold(env, segs, base, mod) && env(base) == baseVal
    requires AllCanonical(segs, mod)
    ensures Cong(BalanceResolve(segs, baseVal, mod).0, env(segs[|segs| - 1].endpoint), mod)
  {
    ResolveIsFold(segs, baseVal, mod);
    SegmentsReachTheEnd(env, segs, base, mod);
  }

  /** The last line that `_balance_resolve` adds for more than one segment. */
  function LastResolveLine(segs: seq<Segment>, baseVal: nat, mod: nat): Equation
    requires 0 < mod && |segs| > 1 && AllCanonical(segs, mod)
  {
    var mid := |segs| / 2;
    var pivot := segs[mid - 1].endpoint;
    ResolveLine(BalanceChainRight(segs[mid..], pivot, mod).0, pivot,
                BalanceResolve(segs[..mid], baseVal, mod).0, segs[|segs| - 1].endpoint, mod)
  }

  lemma ResolveUnfolds(segs: seq<Segment>, baseVal: nat, mod: nat)
    requires 0 < mod && |segs| > 1 && AllCanonical(segs, mod)
    ensures BalanceResolve(segs, baseVal, mod).1 ==
            BalanceResolve(segs[..|segs| / 2], baseVal, mod).1
            + BalanceChainRight(segs[|segs| / 2..], segs[|segs| / 2 - 1].endpoint, mod).1
             + [LastResolveLine(segs, baseVal, mod)]
  {
  }

  lemma LeftHalfResolves(env: Env, segs: seq<Segment>, base: string, baseVal: nat, mod: nat, mid: nat)
    requires 0 < mod && 0 < mid < |segs| && SegmentsHold(env, segs, base, mod) && env(base) == baseVal
      && AllCanonical(segs, mod)
    ensures AllCanonical(segs[..mid], mod) && IsName(segs[mid - 1].endpoint)
    ensures Cong(BalanceResolve(segs[..mid], baseVal, mod).0, env(segs[mid - 1].endpoint), mod)
  {
    SegmentsSplit(env, segs, base, mod, mid);
    CanonicalSplit(segs, mod, mid);
    ResolveReachesTheEnd(env, segs[..mid], base, baseVal, mod);
  }

  lemma RightHalfCombines(env: Env, segs: seq<Segment>, base: string, mod: nat, mid: nat)
    requires 0 < mod && 0 < mid < |segs| && SegmentsHold(env, segs, base, mod) && AllCanonical(segs, mod)
    ensures AllCanonical(segs[mid..], mod)
    ensures var pivot := segs[mid - 1].endpoint;
            Cong(At(BalanceChainRight(segs[mid..], pivot, mod).0, env(pivot)), env(segs[|segs| - 1].endpoint), mod)
  {
    SegmentsSplit(env, segs, base, mod, mid);
    CanonicalSplit(segs, mod, mid);
    ChainRightReachesTheEnd(env, segs[mid..], segs[mid - 1].endpoint, mod);
  }

  lemma LastResolveLineHolds(env: Env, segs: seq<Segment>, base: string, baseVal: nat, mod: nat)
    requires 0 < mod && |segs| > 1 && SegmentsHold(env, segs, base, mod) && env(base) == baseVal
      && AllCanonical(segs, mod)
    ensures True(env, LastResolveLine(segs, baseVal, mod), mod)
  {
    LeftHalfResolves(env, segs, base, baseVal, mod, |segs| / 2);
    RightHalfCombines(env, segs, base, mod, |segs| / 2);
    var left, right, pivot := segs[..|segs| / 2], segs[|segs| / 2..], segs[|segs| / 2 - 1].endpoint;
    ResolveLineIsTrue(env, BalanceChainRight(right, pivot, mod).0, pivot, BalanceResolve(left, baseVal, mod).0,
                      segs[|segs| - 1].endpoint, mod);
  }

  lemma OneResolveLineHolds(env: Env, segs: seq<Segment>, base: string, baseVal: nat, mod: nat)
    requires 0 < mod && |segs| == 1 && SegmentsHold(env, segs, base, mod) && env(base) == baseVal
      && AllCanonical(segs, mod)
    ensures AllTrue(env, BalanceResolve(segs, baseVal, mod).1, mod)
  {
    assert SegmentHolds(env, segs, base, mod, 0);
    ResolveLineIsTrue(env, segs[0].form, base, baseVal, segs[0].endpoint, mod);
  }

  /** Every line of the resolution is true. */
  lemma {:induction false} ResolveLinesAreTrue(env: Env, segs: seq<Segment>, base: string, baseVal: nat, mod: nat)
    requires 0 < mod && SegmentsHold(env, segs, base, mod) && env(base) == baseVal && AllCanonical(segs, mod)
    ensures AllTrue(env, BalanceResolve(segs, baseVal, mod).1, mod)
    decreases |segs|
  {
    if |segs| == 1 {
      OneResolveLineHolds(env, segs, base, baseVal, mod);
    } else if |segs| > 1 {
      var mid := |segs| / 2;
      var pivot := segs[mid - 1].endpoint;
      SegmentsSplit(env, segs, base, mod, mid);
      CanonicalSplit(segs, mod, mid);
      ResolveLinesAreTrue(env, segs[..mid], base, baseVal, mod);
      ChainRightLinesAreTrue(env, segs[mid..], pivot, mod);
      LastResolveLineHolds(env, segs, base, baseVal, mod);
      ResolveUnfolds(segs, baseVal, mod);
      AllTrueJoin(env, BalanceResolve(segs[..mid], baseVal, mod).1, BalanceChainRight(segs[mid..], pivot, mod).1,
                  LastResolveLine(segs, baseVal, mod), mod);
    }
  }

  // ---------------------------------------------------------------- segments

  /** Operation j's linear form in the variable before it. */
  function FormOf(data: Chain, j: nat, mod: nat): Linear
    requires 0 < mod && 0 < j <= |data.links|
  {
    Canonicalize(OfLink(data.links[j - 1]), mod)
  }

  /** Operations 2s+1 and 2s+2 as one form. */
  function PairForm(data: Chain, s: nat, mod: nat): Linear
    requires 0 < mod && 2 * s + 2 <= |data.links|
  {
    Canonicalize(After(OfLink(data.links[2 * s + 1]), FormOf(data, 2 * s + 1, mod)), mod)
  }

  function FirstOfPair(data: Chain, vars: seq<string>, s: nat, mod: nat): Equation
    requires 0 < mod && 2 * s + 2 <= |data.links| && |vars| == |data.links| + 1
  {
    var base, l := vars[2 * s], data.links[2 * s];
    Equation(vars[2 * s + 1],
             [Joined(base, l)] + if l.op == Mul then [FormatLinear(FormOf(data, 2 * s + 1, mod), base)] else [])
  }

  /** Variable 2s+1's definition substituted, with parentheses when it has a constant. */
  function Substituted(data: Chain, vars: seq<string>, s: nat, mod: nat): string
    requires 0 < mod && 2 * s + 2 <= |data.links| && |vars| == |data.links| + 1
  {
    var f := FormOf(data, 2 * s + 1, mod);
    var text := FormatLinear(f, vars[2 * s]);
    Joined(if f.b != 0 then Parens(text) else text, data.links[2 * s + 1])
  }

  function SecondOfPair(data: Chain, vars: seq<string>, s: nat, mod: nat): Equation
    requires 0 < mod && 2 * s + 2 <= |data.links| && |vars| == |data.links| + 1
  {
    var subst := Substituted(data, vars, s, mod);
    var result := FormatLinear(PairForm(data, s, mod), vars[2 * s]);
    Equation(vars[2 * s + 2],
             [Joined(vars[2 * s + 1], data.links[2 * s + 1]), subst] + if subst == result then [] else [result])
  }

  function SegmentOf(data: Chain, vars: seq<string>, s: nat, mod: nat): Segment
    requires 0 < mod && 2 * s + 2 <= |data.links| && |vars| == |data.links| + 1
  {
    Segment(vars[2 * s + 2], vars[2 * s], PairForm(data, s, mod))
  }

  /** The segments of pairs 1 .. n-1; pair 0 is computed directly. */
  function Segments(data: Chain, vars: seq<string>, n: nat, mod: nat): (r: seq<Segment>)
    requires 0 < mod && 0 < n && 2 * n <= |data.links| && |vars| == |data.links| + 1
    ensures |r| == n - 1 && forall i :: 0 <= i < n - 1 ==> r[i] == SegmentOf(data, vars, i + 1, mod)
  {
    seq(n - 1, i requires 0 <= i < n - 1 => SegmentOf(data, vars, i + 1, mod))
  }

  function PairParts(data: Chain, vars: seq<string>, n: nat, mod: nat): (r: seq<Equation>)
    requires 0 < mod && 0 < n && 2 * n <= |data.links| && |vars| == |data.links| + 1
    ensures |r| == 2 * (n - 1)
  {
    if n == 1 then []
    else PairParts(data, vars, n - 1, mod) + [FirstOfPair(data, vars, n - 1, mod), SecondOfPair(data, vars, n - 1, mod)]
  }

  /** The three sentences for variables 0, 1 and 2. */
  function FirstParts(data: Chain, vars: seq<string>, mod: nat): seq<Equation>
    requires 0 < mod && IsChain(data, mod) && 2 <= |data.links| && |vars| == |data.values|
    requires forall i :: 0 <= i < |data.values| ==> data.values[i] >= 0
  {
    var v, l := data.values, data.links;
    [Equation(vars[0], [Digits(v[0])]),
     Equation(vars[1], [Joined(Digits(v[0]), l[0]), Digits(v[1])]),
     Equation(vars[2], [Joined(vars[1], l[1]), Joined(Digits(v[1]), l[1]), Digits(v[2])])]
  }

  lemma PairFormHolds(data: Chain, s: nat, mod: nat)
    requires 0 < mod && IsChain(data, mod) && 2 * s + 2 <= |data.links|
    ensures Canonical(FormOf(data, 2 * s + 1, mod), mod) && Canonical(PairForm(data, s, mod), mod)
    ensures Cong(At(FormOf(data, 2 * s + 1, mod), data.values[2 * s]), data.values[2 * s + 1], mod)
    ensures Cong(At(PairForm(data, s, mod), data.values[2 * s]), data.values[2 * s + 2], mod)
  {
    var x, a, b := data.values[2 * s], data.links[2 * s], data.links[2 * s + 1];
    var f := FormOf(data, 2 * s + 1, mod);
    CanonicalAgrees(OfLink(a), x, mod);
    OfLinkIsApply(a, x);
    CongMod(Apply(x, a), mod);
    assert data.values[2 * s + 1] == Apply(x, a) % mod;
    CanonicalAgrees(After(OfLink(b), f), x, mod);
    AfterIsComposition(OfLink(b), f, x);
    OfLinkIsApply(b, At(f, x));
    ApplyCong(At(f, x), data.values[2 * s + 1], b, mod);
    CongMod(Apply(data.values[2 * s + 1], b), mod);
    assert data.values[2 * s + 1 + 1] == Apply(data.values[2 * s + 1], b) % mod;
  }

  lemma SegmentsAreSound(env: Env, data: Chain, vars: seq<string>, n: nat, mod: nat)
    requires 0 < mod && IsChain(data, mod) && 0 < n && 2 * n <= |data.links| && StandsFor(env, data, vars)
    ensures SegmentsHold(env, Segments(data, vars, n, mod), vars[2], mod)
  {
    var segs := Segments(data, vars, n, mod);
    forall i: nat | i < |segs| ensures SegmentHolds(env, segs, vars[2], mod, i) {
      PairFormHolds(data, i + 1, mod);
    }
  }

  lemma JoinedReads(env: Env, s: string, v: int, l: Link, next: int, mod: nat)
    requires 0 < mod && TermText(env, s, v) && Cong(Apply(v, l), next, mod)
    ensures Value(env, Joined(s, l)).Some? && Cong(Value(env, Joined(s, l)).value, next, mod)
  {
    JoinedTerm(env, s, v, l);
    SumHasValue(env, Joined(s, l), Apply(v, l));
  }

  lemma NextValue(data: Chain, mod: nat, i: nat)
    requires 0 < mod && IsChain(data, mod) && i < |data.links|
    ensures Cong(Apply(data.values[i], data.links[i]), data.values[i + 1], mod)
  {
    CongMod(Apply(data.values[i], data.links[i]), mod);
    assert data.values[i + 1] == Apply(data.values[i], data.links[i]) % mod;
  }

  lemma NameIsTerm(env: Env, name: string)
    requires IsName(name)
    ensures TermText(env, name, env(name))
  {
    NameIsFactor(env, name);
    FactorIsTerm(env, name, env(name));
  }

  lemma FirstOfPairIsTrue(env: Env, data: Chain, vars: seq<string>, s: nat, mod: nat)
    requires 0 < mod && IsChain(data, mod) && 2 * s + 2 <= |data.links| && StandsFor(env, data, vars)
    ensures True(env, FirstOfPair(data, vars, s, mod), mod)
  {
    NameIsTerm(env, vars[2 * s]);
    NextValue(data, mod, 2 * s);
    JoinedReads(env, vars[2 * s], env(vars[2 * s]), data.links[2 * s], data.values[2 * s + 1], mod);
    PairFormHolds(data, s, mod);
    FormReads(env, FormOf(data, 2 * s + 1, mod), vars[2 * s], data.values[2 * s + 1], mod);
  }

  lemma SubstitutedReads(env: Env, data: Chain, vars: seq<string>, s: nat, mod: nat)
    requires 0 < mod && IsChain(data, mod) && 2 * s + 2 <= |data.links| && StandsFor(env, data, vars)
    ensures var text := Substituted(data, vars, s, mod);
            Value(env, text).Some? && Cong(Value(env, text).value, data.values[2 * s + 2], mod)
  {
    var f, l := FormOf(data, 2 * s + 1, mod), data.links[2 * s + 1];
    var x := env(vars[2 * s]);
    var text := FormatLinear(f, vars[2 * s]);
    PairFormHolds(data, s, mod);
    NameIsSymbol(env, vars[2 * s]);
    if f.b != 0 {
      FormatLinearIsSum(env, f, vars[2 * s], x);
      ParensMakeFactor(env, text, At(f, x));
      FactorIsTerm(env, Parens(text), At(f, x));
    } else {
      FormatMultipleReads(env, f, vars[2 * s], x);
    }
    ApplyCong(At(f, x), data.values[2 * s + 1], l, mod);
    NextValue(data, mod, 2 * s + 1);
    JoinedReads(env, if f.b != 0 then Parens(text) else text, At(f, x), l, data.values[2 * s + 2], mod);
  }

  lemma SecondOfPairIsTrue(env: Env, data: Chain, vars: seq<string>, s: nat, mod: nat)
    requires 0 < mod && IsChain(data, mod) && 2 * s + 2 <= |data.links| && StandsFor(env, data, vars)
    ensures True(env, SecondOfPair(data, vars, s, mod), mod)
  {
    NameIsTerm(env, vars[2 * s + 1]);
    NextValue(data, mod, 2 * s + 1);
    JoinedReads(env, vars[2 * s + 1], env(vars[2 * s + 1]), data.links[2 * s + 1], data.values[2 * s + 2], mod);
    SubstitutedReads(env, data, vars, s, mod);
    PairFormHolds(data, s, mod);
    FormReads(env, PairForm(data, s, mod), vars[2 * s], data.values[2 * s + 2], mod);
  }

  lemma {:induction false} PairPartsAreTrue(env: Env, data: Chain, vars: seq<string>, n: nat, mod: nat)
    requires 0 < mod && IsChain(data, mod) && 0 < n && 2 * n <= |data.links| && StandsFor(env, data, vars)
    ensures AllTrue(env, PairParts(data, vars, n, mod), mod)
  {
    if n > 1 {
      PairPartsAreTrue(env, data, vars, n - 1, mod);
      FirstOfPairIsTrue(env, data, vars, n - 1, mod);
      SecondOfPairIsTrue(env, data, vars, n - 1, mod);
    }
  }

  lemma FirstPartsAreTrue(env: Env, data: Chain, vars: seq<string>, mod: nat)
    requires 0 < mod && IsChain(data, mod) && 2 <= |data.links| && StandsFor(env, data, vars)
    requires forall i :: 0 <= i < |data.values| ==> data.values[i] >= 0
    ensures AllTrue(env, FirstParts(data, vars, mod), mod)
  {
    var v, l := data.values, data.links;
    NumberReads(env, v[0]);
    NumberReads(env, v[1]);
    NumberReads(env, v[2]);
    NumberIsTerm(env, v[0]);
    NumberIsTerm(env, v[1]);
    NameIsTerm(env, vars[1]);
    NextValue(data, mod, 0);
    NextValue(data, mod, 1);
    JoinedReads(env, Digits(v[0]), v[0], l[0], v[1], mod);
    JoinedReads(env, Digits(v[1]), v[1], l[1], v[2], mod);
    JoinedReads(env, vars[1], v[1], l[1], v[2], mod);
  }

  // ---------------------------------------------------------------- solution

  /** `x & y` */
  function BitAnd(x: nat, y: nat): nat {
    if x == 0 || y == 0 then 0
    else 2 * BitAnd(x / 2, y / 2) + (if x % 2 == 1 && y % 2 == 1 then 1 else 0)
  }

  predicate IsPowerOfTwo(n: nat) {
    n == 1 || (n > 1 && n % 2 == 0 && IsPowerOfTwo(n / 2))
  }

  lemma {:induction false} AndWithItself(x: nat)
    ensures BitAnd(x, x) == x
  {
    if x > 0 {
      AndWithItself(x / 2);
    }
  }

  /** The test `op & (op - 1)` finds exactly the powers of two. */
  lemma {:induction false} BitTestIsPowerOfTwo(n: nat)
    requires 0 < n
    ensures BitAnd(n, n - 1) == 0 <==> IsPowerOfTwo(n)
  {
    if n > 1 {
      if n % 2 == 1 {
        assert (n - 1) / 2 == n / 2;
        AndWithItself(n / 2);
      } else {
        assert (n - 1) / 2 == n / 2 - 1;
        BitTestIsPowerOfTwo(n / 2);
      }
    }
  }

  datatype ValueError = NotAPowerOfTwo(op: nat)

  lemma SegmentsCanonical(data: Chain, vars: seq<string>, n: nat, mod: nat)
    requires 0 < mod && IsChain(data, mod) && 0 < n && 2 * n <= |data.links| && |vars| == |data.values|
    ensures forall i :: 0 <= i < n - 1 ==> Canonical(Segments(data, vars, n, mod)[i].form, mod)
  {
    forall i: nat | i < n - 1 ensures Canonical(Segments(data, vars, n, mod)[i].form, mod) {
      PairFormHolds(data, i + 1, mod);
    }
  }

  /** All sentences of the solution. */
  function BalancedParts(data: Chain, vars: seq<string>, mod: nat): (parts: seq<Equation>)
    requires 0 < mod && IsChain(data, mod) && 2 <= |data.links| && |data.links| % 2 == 0 && |vars| == |data.values|
    ensures |parts| == |data.links| + |data.links| / 2
  {
    var n := |data.links| / 2;
    SegmentsCanonical(data, vars, n, mod);
    ValuesAreNatural(data, mod);
    FirstParts(data, vars, mod) + PairParts(data, vars, n, mod)
    + BalanceResolve(Segments(data, vars, n, mod), data.values[2], mod).1
  }

  /** The method of one segment's forms: `a_new, b_new` from `a_prev, b_prev`. */
  method Extend(f: Linear, l: Link, mod: nat) returns (g: Linear)
    requires 0 < mod
    ensures g == Canonicalize(After(OfLink(l), f), mod)
  {
    var a, b := f.a, f.b;
    match l.op {
      case Add => b := b + l.c;
      case Sub => b := b - l.c;
      case Mul => a, b := a * l.c, b * l.c;
    }
    assert After(OfLink(l), f) == Linear(a, b);
    g := Canonicalize(Linear(a, b), mod);
  }

  /** The loop body: the two sentences and the segment of a pair. */
  method WritePair(data: Chain, vars: seq<string>, s: nat, mod: nat)
    returns (partA: Equation, partB: Equation, segment: Segment)
    requires 0 < mod && 2 * s + 2 <= |data.links| && |vars| == |data.links| + 1
    ensures partA == FirstOfPair(data, vars, s, mod) && partB == SecondOfPair(data, vars, s, mod)
    ensures segment == SegmentOf(data, vars, s, mod)
  {
    var base, lA, lB := vars[2 * s], data.links[2 * s], data.links[2 * s + 1];
    var fA := Canonicalize(OfLink(lA), mod);
    var exprs := [Joined(base, lA)];
    if lA.op == Mul {
      exprs := exprs + [FormatLinear(fA, base)];
    }
    partA := Equation(vars[2 * s + 1], exprs);
    var fB := Extend(fA, lB, mod);
    var stepA := FormatLinear(fA, base);
    var subst := Joined(if fA.b != 0 then Parens(stepA) else stepA, lB);
    var stepB := FormatLinear(fB, base);
    exprs := [Joined(vars[2 * s + 1], lB), subst];
    if subst != stepB {
      exprs := exprs + [stepB];
    }
    partB := Equation(vars[2 * s + 2], exprs);
    segment := Segment(vars[2 * s + 2], base, fB);
  }

  lemma SegmentsGrow(data: Chain, vars: seq<string>, n: nat, mod: nat)
    requires 0 < mod && 0 < n && 2 * n + 2 <= |data.links| && |vars| == |data.links| + 1
    ensures Segments(data, vars, n + 1, mod) == Segments(data, vars, n, mod) + [SegmentOf(data, vars, n, mod)]
  {
  }

  /** The loop over the pairs after the first. */
  method WritePairs(data: Chain, vars: seq<string>, n: nat, mod: nat)
    returns (parts: seq<Equation>, segments: seq<Segment>)
    requires 0 < mod && 0 < n && 2 * n <= |data.links| && |vars| == |data.links| + 1
    ensures parts == PairParts(data, vars, n, mod) && segments == Segments(data, vars, n, mod)
  {
    parts, segments := [], [];
    for s := 1 to n
      invariant segments == Segments(data, vars, s, mod) && parts == PairParts(data, vars, s, mod)
    {
      var partA, partB, segment := WritePair(data, vars, s, mod);
      SegmentsGrow(data, vars, s, mod);
      parts := parts + [partA, partB];
      segments := segments + [segment];
    }
  }

  /** `balanceforward_solution` */
  method BalanceForward(data: Chain, vars: seq<string>, mod: nat) returns (r: Result<seq<Equation>, ValueError>)
    requires 0 < mod && IsChain(data, mod) && |vars| == |data.values|
    ensures r.Err? <==> |data.links| < 2 || !IsPowerOfTwo(|data.links|)
    ensures r.Ok? ==> |data.links| % 2 == 0 && r.value == BalancedParts(data, vars, mod)
  {
    var op := |data.links|;
    if op < 2 || BitAnd(op, op - 1) != 0 {
      if op > 0 {
        BitTestIsPowerOfTwo(op);
      }
      return Err(NotAPowerOfTwo(op));
    }
    BitTestIsPowerOfTwo(op);
    ValuesAreNatural(data, mod);
    var parts, segments := WritePairs(data, vars, op / 2, mod);
    SegmentsCanonical(data, vars, op / 2, mod);
    r := Ok(FirstParts(data, vars, mod) + parts + BalanceResolve(segments, data.values[2], mod).1);
  }

  /** Every sentence of the hierarchical solution is true modulo mod. */
  lemma BalancedTextIsTrue(env: Env, data: Chain, vars: seq<string>, mod: nat)
    requires 0 < mod && IsChain(data, mod) && 2 <= |data.links| && |data.links| % 2 == 0 && StandsFor(env, data, vars)
    ensures AllTrue(env, BalancedParts(data, vars, mod), mod)
  {
    var n := |data.links| / 2;
    var segs := Segments(data, vars, n, mod);
    SegmentsCanonical(data, vars, n, mod);
    ValuesAreNatural(data, mod);
    SegmentsAreSound(env, data, vars, n, mod);
    FirstPartsAreTrue(env, data, vars, mod);
    PairPartsAreTrue(env, data, vars, n, mod);
    ResolveLinesAreTrue(env, segs, vars[2], data.values[2], mod);
    AllTrueConcat(env, FirstParts(data, vars, mod), PairParts(data, vars, n, mod),
                  BalanceResolve(segs, data.values[2], mod).1, mod);
  }

  lemma AllTrueConcat(env: Env, a: seq<Equation>, b: seq<Equation>, c: seq<Equation>, mod: nat)
    requires 0 < mod && AllTrue(env, a, mod) && AllTrue(env, b, mod) && AllTrue(env, c, mod)
    ensures AllTrue(env, a + b + c, mod)
  {
  }

  /** The value the tree resolves to is the chain's last value. */
  lemma BalancedValueIsLast(data: Chain, vars: seq<string>, mod: nat, env: Env)
    requires 0 < mod && IsChain(data, mod) && 2 <= |data.links| && |data.links| % 2 == 0 && StandsFor(env, data, vars)
    ensures var segs := Segments(data, vars, |data.links| / 2, mod);
            && data.values[2] >= 0 && AllCanonical(segs, mod)
            && BalanceResolve(segs, data.values[2], mod).0 == data.values[|data.links|]
  {
    var n, op := |data.links| / 2, |data.links|;
    var segs := Segments(data, vars, n, mod);
    SegmentsCanonical(data, vars, n, mod);
    ValuesInRange(data, mod, 2);
    if n > 1 {
      SegmentsAreSound(env, data, vars, n, mod);
      ResolveReachesTheEnd(env, segs, vars[2], data.values[2], mod);
      ValuesInRange(data, mod, op);
      CongInRange(BalanceResolve(segs, data.values[2], mod).0, data.values[op], 0, mod);
    }
  }
}
