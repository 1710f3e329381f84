/** The backward solution: the target as a linear form in ever earlier variables
    (src/generator.py). */
module BackwardSolution {
  import opened Decimal
  import opened Prelude
  import opened ExprText
  import opened ChainArithmetic
  import opened LinearText

  /** The target as a canonical linear form in variable k. */
  function Form(data: Chain, k: nat, mod: nat): Linear
    requires 0 < mod && k <= |data.links|
  {
    Canonicalize(OfLinks(data.links[k..]), mod)
  }

  /** The form is the chain from k on: it maps any value of variable k to the fold's value. */
  lemma FormIsFold(data: Chain, k: nat, mod: nat, x: int)
    requires 0 < mod && k <= |data.links|
    ensures Canonical(Form(data, k, mod), mod)
    ensures Cong(At(Form(data, k, mod), x), Fold(x, data.links[k..]), mod)
  {
    CanonicalAgrees(OfLinks(data.links[k..]), x, mod);
    OfLinksIsFold(data.links[k..], x);
  }

  lemma FormReachesTarget(data: Chain, k: nat, mod: nat)
    requires 0 < mod && IsChain(data, mod) && k <= |data.links|
    ensures Cong(At(Form(data, k, mod), data.values[k]), data.values[|data.links|], mod)
  {
    FormIsFold(data, k, mod, data.values[k]);
    ValuesAreFolds(data, mod, k, |data.links|);
    assert data.links[k..|data.links|] == data.links[k..];
  }

  /** Substituting one more operation into a canonical form and reducing again is the canonical
      form of the longer run. */
  lemma SubstituteAndReduce(data: Chain, k: nat, mod: nat)
    requires 0 < mod && 0 < k <= |data.links|
    ensures Canonicalize(After(Form(data, k, mod), OfLink(data.links[k - 1])), mod) == Form(data, k - 1, mod)
  {
    var f, l := Form(data, k, mod), data.links[k - 1];
    var suffix := data.links[k - 1..];
    assert suffix[0] == l && suffix[1..] == data.links[k..];
    forall x ensures Cong(At(After(f, OfLink(l)), x), At(OfLinks(suffix), x), mod) {
      AfterIsComposition(f, OfLink(l), x);
      AfterIsComposition(OfLinks(data.links[k..]), OfLink(l), x);
      CanonicalAgrees(OfLinks(data.links[k..]), At(OfLink(l), x), mod);
    }
    CanonicalizeDecidesAgreement(After(f, OfLink(l)), OfLinks(suffix), mod);
  }

  // ---------------------------------------------------------------- sentences

  /** The sentence of step k: the form in variable k, the same with variable k's definition
      substituted, and the simplified form in variable k - 1. */
  function StepPart(data: Chain, vars: seq<string>, k: nat, mod: nat): Equation
    requires 0 < mod && 0 < k <= |data.links| && |vars| == |data.links| + 1
  {
    var f := Form(data, k, mod);
    Equation(vars[|data.links|],
             [FormatLinear(f, vars[k]), FormatLinear(f, Parens(Joined(vars[k - 1], data.links[k - 1]))),
              FormatLinear(Form(data, k - 1, mod), vars[k - 1])])
  }

  /** Sentence i, before the closing expressions are appended. */
  function Part(data: Chain, vars: seq<string>, mod: nat, i: nat): Equation
    requires 0 < mod && IsChain(data, mod) && 0 < |data.links| && i <= |data.links| && |vars| == |data.links| + 1
  {
    if i == 0 then Equation(vars[0], [Digits(data.values[0])])
    else if i == 1 then
      Equation(vars[|data.links|], [FormatLinear(Form(data, |data.links| - 1, mod), vars[|data.links| - 1])])
    else StepPart(data, vars, |data.links| + 1 - i, mod)
  }

  /** " = form at the first value = answer" */
  function Closing(data: Chain, mod: nat): seq<string>
    requires 0 < mod && IsChain(data, mod)
  {
    [FormatLinear(Form(data, 0, mod), Parens(Digits(data.values[0]))),
     Digits(At(Form(data, 0, mod), data.values[0]) % mod)]
  }

  lemma FirstForm(data: Chain, mod: nat)
    requires 0 < mod && 0 < |data.links|
    ensures Form(data, |data.links| - 1, mod) == Canonicalize(OfLink(data.links[|data.links| - 1]), mod)
  {
    var n := |data.links|;
    var suffix := data.links[n - 1..];
    assert suffix == [data.links[n - 1]] && suffix[1..] == [];
    assert After(OfLinks([]), OfLink(suffix[0])) == OfLink(suffix[0]);
  }

  /** The sentences so far are the first ones of the solution. */
  ghost predicate Written(parts: seq<Equation>, data: Chain, vars: seq<string>, mod: nat)
    requires 0 < mod && IsChain(data, mod) && 0 < |data.links| && |vars| == |data.values|
  {
    |parts| <= |data.links| + 1 && forall i :: 0 <= i < |parts| ==> parts[i] == Part(data, vars, mod, i)
  }

  lemma StepIsPart(data: Chain, vars: seq<string>, mod: nat, i: nat)
    requires 0 < mod && IsChain(data, mod) && |vars| == |data.links| + 1 && 2 <= i <= |data.links|
    ensures StepPart(data, vars, |data.links| + 1 - i, mod) == Part(data, vars, mod, i)
  {
  }

  lemma WriteNext(parts: seq<Equation>, eq: Equation, data: Chain, vars: seq<string>, mod: nat)
    requires 0 < mod && IsChain(data, mod) && 0 < |data.links| && |vars| == |data.values|
    requires Written(parts, data, vars, mod) && |parts| <= |data.links|
    requires eq == Part(data, vars, mod, |parts|)
    ensures Written(parts + [eq], data, vars, mod)
  {
  }

  lemma AnswerIsLastValue(data: Chain, f: Linear, mod: nat)
    requires 0 < mod && IsChain(data, mod) && 0 < |data.links| && f == Form(data, 0, mod)
    ensures var answer := (f.a * data.values[0] + f.b) % mod;
            && answer == At(f, data.values[0]) % mod == data.values[|data.links|]
            && Closing(data, mod) == [FormatLinear(f, Parens(Digits(data.values[0]))), Digits(answer)]
  {
    var answer := At(f, data.values[0]);
    FormReachesTarget(data, 0, mod);
    ValuesInRange(data, mod, |data.links|);
    CongMod(answer, mod);
    CongInRange(answer % mod, data.values[|data.links|], 0, mod);
  }

  /** One substitution of the loop. */
  method Substitute(f: Linear, sub: Link, mod: nat) returns (g: Linear)
    requires 0 < mod
    ensures g == Canonicalize(After(f, OfLink(sub)), mod)
  {
    var a, b := f.a, f.b;
    match sub.op {
      case Add => a, b := a, a * sub.c + b;
      case Sub =>
        assert -a * sub.c == a * (0 - sub.c);
        a, b := a, -a * sub.c + b;
      case Mul => a, b := a * sub.c, b;
    }
    g := Canonicalize(Linear(a, b), mod);
  }

  /** The form of the last operation. */
  method FormOfLink(l: Link) returns (f: Linear)
    ensures f == OfLink(l)
  {
    match l.op {
      case Add => f := Linear(1, l.c);
      case Sub => f := Linear(1, -(l.c as int));
      case Mul => f := Linear(l.c, 0);
    }
  }

  /** The first two sentences, and the loop that writes one for every substitution. */
  method WriteForms(data: Chain, vars: seq<string>, mod: nat) returns (parts: seq<Equation>, f: Linear)
    requires 0 < mod && IsChain(data, mod) && 0 < |data.links| && |vars| == |data.values|
    ensures |parts| == |data.links| + 1 && Written(parts, data, vars, mod) && f == Form(data, 0, mod)
  {
    var op := |data.links|;
    var target := vars[op];
    f := FormOfLink(data.links[op - 1]);
    f := Canonicalize(f, mod);
    FirstForm(data, mod);
    parts := [Equation(vars[0], [Digits(data.values[0])]), Equation(target, [FormatLinear(f, vars[op - 1])])];
    var k := op - 1;
    while k > 0
      invariant 0 <= k <= op - 1 && f == Form(data, k, mod) && |parts| == op + 1 - k
      invariant Written(parts, data, vars, mod)
      decreases k
    {
      var prevForm := FormatLinear(f, vars[k]);
      var sub := data.links[k - 1];
      var expanded := FormatLinear(f, "(" + Joined(vars[k - 1], sub) + ")");
      SubstituteAndReduce(data, k, mod);
      StepIsPart(data, vars, mod, |parts|);
      WriteNext(parts, StepPart(data, vars, k, mod), data, vars, mod);
      f := Substitute(f, sub, mod);
      parts := parts + [Equation(target, [prevForm, expanded, FormatLinear(f, vars[k - 1])])];
      k := k - 1;
    }
  }

  // ----------------------------------------------------- what the sentences say

  ghost predicate AreNames(vars: seq<string>) {
    forall i :: 0 <= i < |vars| ==> IsName(vars[i])
  }

  /** The step from variable k to variable k - 1: the form of the operations from k on, the same with
      operation k substituted, and the form of the operations from k - 1 on. */
  ghost predicate SaysStep(exprs: seq<string>, data: Chain, vars: seq<string>, mod: nat, k: nat)
    requires 0 < mod && 0 < k <= |data.links| && |vars| == |data.links| + 1
  {
    && |exprs| == 3
    && SaysRun(exprs[0], vars[k], data.links[k..], mod)
    && SaysRunOf(exprs[1], vars[k - 1], data.links[k - 1], data.links[k..], mod)
    && SaysRun(exprs[2], vars[k - 1], data.links[k - 1..], mod)
  }

  /** The first sentence of the target is its last operation, on the variable before it. */
  ghost predicate SaysPart(exprs: seq<string>, data: Chain, vars: seq<string>, mod: nat, i: nat)
    requires 0 < mod && 0 < i <= |data.links| && |vars| == |data.links| + 1
  {
    var n := |data.links|;
    if i == 1 then |exprs| == 1 && SaysRun(exprs[0], vars[n - 1], data.links[n - 1..], mod)
    else SaysStep(exprs, data, vars, mod, n + 1 - i)
  }

  /** The end of the last sentence: the form of all operations at the first value, and the target. */
  ghost predicate SaysClosing(exprs: seq<string>, data: Chain, mod: nat)
    requires 0 < mod && |data.values| == |data.links| + 1
  {
    && |exprs| == 2 && SaysRunAt(exprs[0], data.values[0], data.links, mod)
    && data.values[|data.links|] >= 0 && exprs[1] == Digits(data.values[|data.links|])
  }

  ghost predicate SaysLast(exprs: seq<string>, data: Chain, vars: seq<string>, mod: nat)
    requires 0 < mod && 0 < |data.links| && |vars| == |data.values| == |data.links| + 1
  {
    exists m: nat :: m <= |exprs| && SaysPart(exprs[..m], data, vars, mod, |data.links|)
                     && SaysClosing(exprs[m..], data, mod)
  }

  /** One sentence for the first variable and op for the target, the last of them closed. */
  ghost predicate SaysSolution(parts: seq<Equation>, data: Chain, vars: seq<string>, mod: nat)
    requires 0 < mod && IsChain(data, mod) && 0 < |data.links| && |vars| == |data.values|
  {
    var n := |data.links|;
    && |parts| == n + 1 && parts[0] == Equation(vars[0], [Digits(data.values[0])])
    && (forall i :: 0 < i < n ==> parts[i].lhs == vars[n] && SaysPart(parts[i].exprs, data, vars, mod, i))
    && parts[n].lhs == vars[n] && SaysLast(parts[n].exprs, data, vars, mod)
  }

  lemma FormIsFormOf(data: Chain, k: nat, mod: nat)
    requires 0 < mod && k <= |data.links|
    ensures IsFormOf(Form(data, k, mod), data.links[k..], mod)
  {
    FormOfLinks(data.links[k..], mod);
  }

  lemma StepSays(data: Chain, vars: seq<string>, k: nat, mod: nat)
    requires 0 < mod && 0 < k <= |data.links| && |vars| == |data.links| + 1 && AreNames(vars)
    ensures SaysStep(StepPart(data, vars, k, mod).exprs, data, vars, mod, k)
  {
    var f, g := Form(data, k, mod), Form(data, k - 1, mod);
    FormIsFormOf(data, k, mod);
    FormIsFormOf(data, k - 1, mod);
    FormatSaysForm(f, vars[k]);
    FormatSaysFormOf(f, vars[k - 1], data.links[k - 1]);
    FormatSaysForm(g, vars[k - 1]);
  }

  lemma PartSays(data: Chain, vars: seq<string>, mod: nat, i: nat)
    requires 0 < mod && IsChain(data, mod) && 0 < i <= |data.links| && |vars| == |data.values| && AreNames(vars)
    ensures Part(data, vars, mod, i).lhs == vars[|data.links|]
    ensures SaysPart(Part(data, vars, mod, i).exprs, data, vars, mod, i)
  {
    var n := |data.links|;
    if i == 1 {
      FormIsFormOf(data, n - 1, mod);
      FormatSaysForm(Form(data, n - 1, mod), vars[n - 1]);
    } else {
      StepSays(data, vars, n + 1 - i, mod);
    }
  }

  lemma ClosingSays(data: Chain, mod: nat)
    requires 0 < mod && IsChain(data, mod) && 0 < |data.links|
    ensures SaysClosing(Closing(data, mod), data, mod)
  {
    FormIsFormOf(data, 0, mod);
    assert data.links[0..] == data.links;
    FormatSaysNumber(Form(data, 0, mod), data.values[0]);
    AnswerIsLastValue(data, Form(data, 0, mod), mod);
    ValuesInRange(data, mod, |data.links|);
  }

  lemma PartsSay(data: Chain, vars: seq<string>, mod: nat, parts: seq<Equation>)
    requires 0 < mod && IsChain(data, mod) && 0 < |data.links| && |vars| == |data.values| && AreNames(vars)
    requires |parts| == |data.links| + 1
    requires forall j :: 0 <= j < |data.links| ==> parts[j] == Part(data, vars, mod, j)
    requires var last := Part(data, vars, mod, |data.links|);
             parts[|data.links|] == last.(exprs := last.exprs + Closing(data, mod))
    ensures SaysSolution(parts, data, vars, mod)
  {
    var n := |data.links|;
    forall i | 0 < i < n ensures parts[i].lhs == vars[n] && SaysPart(parts[i].exprs, data, vars, mod, i) {
      PartSays(data, vars, mod, i);
    }
    PartSays(data, vars, mod, n);
    ClosingSays(data, mod);
    var last := Part(data, vars, mod, n).exprs;
    assert parts[n].exprs[..|last|] == last && parts[n].exprs[|last|..] == Closing(data, mod);
  }

  /** `rightforward_solution` for at least one operation. */
  method RightForward(data: Chain, vars: seq<string>, mod: nat) returns (parts: seq<Equation>, answer: int)
    requires 0 < mod && IsChain(data, mod) && 0 < |data.links| && |vars| == |data.values|
    ensures answer == At(Form(data, 0, mod), data.values[0]) % mod == data.values[|data.links|]
    ensures |parts| == |data.links| + 1
    ensures forall i :: 0 <= i < |data.links| ==> parts[i] == Part(data, vars, mod, i)
    ensures var last := Part(data, vars, mod, |data.links|);
            parts[|data.links|] == last.(exprs := last.exprs + Closing(data, mod))
    ensures AreNames(vars) ==> SaysSolution(parts, data, vars, mod)
  {
    var f;
    parts, f := WriteForms(data, vars, mod);
    var v0 := data.values[0];
    answer := (f.a * v0 + f.b) % mod;
    AnswerIsLastValue(data, f, mod);
    var last := parts[|parts| - 1];
    parts := parts[|parts| - 1 := last.(exprs := last.exprs + [FormatLinear(f, Parens(Digits(v0))), Digits(answer)])];
    if AreNames(vars) {
      PartsSay(data, vars, mod, parts);
    }
  }

  // -------------------------------------------------------- truth of the text

  ghost predicate StandsFor(env: Env, data: Chain, vars: seq<string>) {
    |vars| == |data.values| && forall i :: 0 <= i < |vars| ==> IsName(vars[i]) && env(vars[i]) == data.values[i]
  }

  /** The form of the operations from k on, at anything congruent to the k-th value, is the target. */
  lemma RunReachesTarget(data: Chain, k: nat, mod: nat, f: Linear, v: int)
    requires 0 < mod && IsChain(data, mod) && k <= |data.links|
    requires IsFormOf(f, data.links[k..], mod) && Cong(v, data.values[k], mod)
    ensures Cong(At(f, v), data.values[|data.links|], mod)
  {
    AtCong(f, v, data.values[k], mod);
    assert Cong(At(f, data.values[k]), Fold(data.values[k], data.links[k..]), mod);
    ValuesAreFolds(data, mod, k, |data.links|);
    assert data.links[k..|data.links|] == data.links[k..];
  }

  ghost predicate HasValue(env: Env, text: string, v: int, mod: nat)
    requires 0 < mod
  {
    Value(env, text).Some? && Cong(Value(env, text).value, v, mod)
  }

  ghost predicate AllHave(env: Env, exprs: seq<string>, v: int, mod: nat)
    requires 0 < mod
  {
    forall j :: 0 <= j < |exprs| ==> HasValue(env, exprs[j], v, mod)
  }

  /** A chain whose values the variables stand for. */
  ghost predicate Holds(env: Env, data: Chain, vars: seq<string>, mod: nat)
    requires 0 < mod
  {
    IsChain(data, mod) && StandsFor(env, data, vars)
  }

  lemma RunIsTrue(env: Env, data: Chain, vars: seq<string>, mod: nat, k: nat, text: string)
    requires 0 < mod && Holds(env, data, vars, mod) && k <= |data.links|
    requires SaysRun(text, vars[k], data.links[k..], mod)
    ensures HasValue(env, text, data.values[|data.links|], mod)
  {
    var f: Linear :| IsFormOf(f, data.links[k..], mod) && SaysForm(text, vars[k], f);
    RunReachesTarget(data, k, mod, f, env(vars[k]));
  }

  lemma RunOfIsTrue(env: Env, data: Chain, vars: seq<string>, mod: nat, k: nat, text: string)
    requires 0 < mod && Holds(env, data, vars, mod) && 0 < k <= |data.links|
    requires SaysRunOf(text, vars[k - 1], data.links[k - 1], data.links[k..], mod)
    ensures HasValue(env, text, data.values[|data.links|], mod)
  {
    var l := data.links[k - 1];
    var f: Linear :| IsFormOf(f, data.links[k..], mod) && SaysFormOf(text, vars[k - 1], l, f);
    CongMod(Apply(data.values[k - 1], l), mod);
    assert data.values[k - 1 + 1] == Apply(data.values[k - 1], l) % mod;
    RunReachesTarget(data, k, mod, f, Apply(env(vars[k - 1]), l));
  }

  lemma ClosingIsTrue(env: Env, data: Chain, mod: nat, exprs: seq<string>)
    requires 0 < mod && IsChain(data, mod) && 0 < |data.links| && SaysClosing(exprs, data, mod)
    ensures AllHave(env, exprs, data.values[|data.links|], mod)
  {
    var f: Linear :| IsFormOf(f, data.links, mod) && SaysNumber(exprs[0], At(f, data.values[0]));
    assert data.links[0..] == data.links;
    RunReachesTarget(data, 0, mod, f, data.values[0]);
    NumberReads(env, data.values[|data.links|]);
    FewHave(env, exprs, data.values[|data.links|], mod);
  }

  lemma StepIsTrue(env: Env, data: Chain, vars: seq<string>, mod: nat, k: nat, exprs: seq<string>)
    requires 0 < mod && Holds(env, data, vars, mod) && 0 < k <= |data.links|
    requires SaysStep(exprs, data, vars, mod, k)
    ensures AllHave(env, exprs, data.values[|data.links|], mod)
  {
    RunIsTrue(env, data, vars, mod, k, exprs[0]);
    RunOfIsTrue(env, data, vars, mod, k, exprs[1]);
    RunIsTrue(env, data, vars, mod, k - 1, exprs[2]);
    FewHave(env, exprs, data.values[|data.links|], mod);
  }

  lemma FewHave(env: Env, exprs: seq<string>, v: int, mod: nat)
    requires 0 < mod && 0 < |exprs| <= 3 && HasValue(env, exprs[0], v, mod)
    requires |exprs| > 1 ==> HasValue(env, exprs[1], v, mod)
    requires |exprs| > 2 ==> HasValue(env, exprs[2], v, mod)
    ensures AllHave(env, exprs, v, mod)
  {
    forall j | 0 <= j < |exprs| ensures HasValue(env, exprs[j], v, mod) {
      assert j == 0 || j == 1 || j == 2;
    }
  }

  lemma PartIsTrue(env: Env, data: Chain, vars: seq<string>, mod: nat, i: nat, exprs: seq<string>)
    requires 0 < mod && Holds(env, data, vars, mod) && 0 < i <= |data.links|
    requires SaysPart(exprs, data, vars, mod, i)
    ensures AllHave(env, exprs, data.values[|data.links|], mod)
  {
    if i == 1 {
      RunIsTrue(env, data, vars, mod, |data.links| - 1, exprs[0]);
      FewHave(env, exprs, data.values[|data.links|], mod);
    } else {
      StepIsTrue(env, data, vars, mod, |data.links| + 1 - i, exprs);
    }
  }

  lemma AllHaveJoin(env: Env, exprs: seq<string>, m: nat, v: int, mod: nat)
    requires 0 < mod && m <= |exprs| && AllHave(env, exprs[..m], v, mod) && AllHave(env, exprs[m..], v, mod)
    ensures AllHave(env, exprs, v, mod)
  {
    forall j | 0 <= j < |exprs| ensures HasValue(env, exprs[j], v, mod) {
      assert exprs[j] == if j < m then exprs[..m][j] else exprs[m..][j - m];
    }
  }

  lemma LastPartIsTrue(env: Env, data: Chain, vars: seq<string>, mod: nat, exprs: seq<string>)
    requires 0 < mod && Holds(env, data, vars, mod) && 0 < |data.links|
    requires SaysLast(exprs, data, vars, mod)
    ensures AllHave(env, exprs, data.values[|data.links|], mod)
  {
    var m: nat :| m <= |exprs| && SaysPart(exprs[..m], data, vars, mod, |data.links|)
                  && SaysClosing(exprs[m..], data, mod);
    var before, closing := exprs[..m], exprs[m..];
    PartIsTrue(env, data, vars, mod, |data.links|, before);
    ClosingIsTrue(env, data, mod, closing);
    AllHaveJoin(env, exprs, m, data.values[|data.links|], mod);
  }

  /** Every printed equality of the backward solution holds modulo mod, closing expressions included. */
  lemma BackwardTextIsTrue(env: Env, data: Chain, vars: seq<string>, mod: nat, parts: seq<Equation>, i: nat)
    requires 0 < mod && IsChain(data, mod) && 0 < |data.links| && i <= |data.links| && StandsFor(env, data, vars)
    requires SaysSolution(parts, data, vars, mod)
    ensures True(env, parts[i], mod)
  {
    var n := |data.links|;
    if i == 0 {
      NumberReads(env, data.values[0]);
    } else if i < n {
      PartIsTrue(env, data, vars, mod, i, parts[i].exprs);
    } else {
      LastPartIsTrue(env, data, vars, mod, parts[n].exprs);
    }
    if i > 0 {
      AllHaveIsTrue(env, parts[i], data.values[n], mod);
    }
  }

  lemma AllHaveIsTrue(env: Env, eq: Equation, v: int, mod: nat)
    requires 0 < mod && AllHave(env, eq.exprs, v, mod) && env(eq.lhs) == v
    ensures True(env, eq, mod)
  {
    forall i | 0 <= i < |eq.exprs|
      ensures Value(env, eq.exprs[i]).Some? && Cong(Value(env, eq.exprs[i]).value, env(eq.lhs), mod)
    {
      assert HasValue(env, eq.exprs[i], v, mod);
    }
  }
}
