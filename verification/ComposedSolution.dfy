/** The compressed solution: several operations inlined in one expression, with parentheses only
    where they are needed, and its breakpoints (src/generator.py). */
module ComposedSolution {
  import opened Decimal
  import opened Prelude
  import opened ExprText
  import opened ChainArithmetic
  import opened LinearText

  // ------------------------------------------------------------- breakpoints

  /** Every max_nest-th position, and the last one. */
  predicate AreBreakpoints(bps: seq<nat>, op: nat, maxNest: nat)
    requires 0 < maxNest
  {
    |bps| == CeilDiv(op, maxNest) + 1 && forall g :: 0 <= g < |bps| ==> bps[g] == Min(g * maxNest, op)
  }

  /** The breakpoint loop of `composedforward_solution` and `simplifiedforward_solution`. */
  method Breakpoints(op: nat, maxNest: nat) returns (bps: seq<nat>)
    requires 0 < maxNest
    ensures AreBreakpoints(bps, op, maxNest)
  {
    bps := [0];
    var i := maxNest;
    while i < op
      invariant |bps| >= 1 && i == |bps| * maxNest && (|bps| - 1) * maxNest <= op
      invariant |bps| > 1 ==> (|bps| - 1) * maxNest < op
      invariant forall g :: 0 <= g < |bps| ==> bps[g] == g * maxNest && g * maxNest <= op
      decreases op - i
    {
      bps := bps + [i];
      i := i + maxNest;
      assert |bps| * maxNest == (|bps| - 1) * maxNest + maxNest;
    }
    if bps[|bps| - 1] != op {
      bps := bps + [op];
    }
    CeilDivIs(op, maxNest, |bps| - 1);
  }

  /** The breakpoint code of `implicit_solution`. */
  method ImplicitBreakpoints(op: nat, maxNest: nat) returns (bps: seq<nat>)
    requires 0 < maxNest
    ensures 0 < op ==> AreBreakpoints(bps, op, maxNest)
    ensures op == 0 ==> bps == [0, 0]
  {
    bps := [0];
    if maxNest >= op {
      bps := bps + [op];
      if 0 < op {
        CeilDivIs(op, maxNest, 1);
      }
    } else {
      bps := Breakpoints(op, maxNest);
    }
  }

  /** The three compressed forms use the same breakpoints. */
  lemma BreakpointsAreUnique(a: seq<nat>, b: seq<nat>, op: nat, maxNest: nat)
    requires 0 < maxNest && AreBreakpoints(a, op, maxNest) && AreBreakpoints(b, op, maxNest)
    ensures a == b
  {
  }

  /** The groups cover the chain: ceil(op/n) of them, all of n operations except perhaps the last. */
  lemma GroupSizes(bps: seq<nat>, op: nat, maxNest: nat, g: nat)
    requires 0 < maxNest && 0 < op && AreBreakpoints(bps, op, maxNest) && g + 1 < |bps|
    ensures bps[0] == 0 && bps[|bps| - 1] == op
    ensures 0 < bps[g + 1] - bps[g] <= maxNest
    ensures g + 2 < |bps| ==> bps[g + 1] - bps[g] == maxNest
  {
    CeilDivBounds(op, maxNest);
    var q := CeilDiv(op, maxNest);
    assert (g + 1) * maxNest == g * maxNest + maxNest;
    assert g * maxNest <= (q - 1) * maxNest;
    if g + 2 < |bps| {
      assert (g + 1) * maxNest <= (q - 1) * maxNest;
    }
  }

  /** A coarser nesting keeps a subset of the breakpoints of a finer one that divides it. */
  lemma CoarserBreakpoints(fine: seq<nat>, coarse: seq<nat>, op: nat, m: nat, k: nat)
    requires 0 < m && 0 < k && AreBreakpoints(fine, op, m) && AreBreakpoints(coarse, op, k * m)
    ensures forall x :: x in coarse ==> x in fine
  {
    forall g: nat | g < |coarse| ensures coarse[g] in fine {
      assert g * (k * m) == (g * k) * m;
      MultipleIsBreakpoint(fine, op, m, g * k);
    }
  }

  lemma MultipleIsBreakpoint(bps: seq<nat>, op: nat, m: nat, i: nat)
    requires 0 < m && AreBreakpoints(bps, op, m)
    ensures Min(i * m, op) in bps
  {
    CeilDivBounds(op, m);
    var q := CeilDiv(op, m);
    MulMono(q, i, m);
    assert Min(i * m, op) == bps[if i < q then i else q];
  }

  // --------------------------------------------------------------- inlining

  /** An expression under construction; `needsParens` when its last step was a sum. */
  datatype Partial = Partial(text: string, needsParens: bool)

  function Inline(start: string, links: seq<Link>): Partial {
    if links == [] then Partial(start, false)
    else
      var p, l := Inline(start, links[..|links| - 1]), links[|links| - 1];
      if l.op == Mul && p.needsParens then Partial(Joined(Parens(p.text), l), false)
      else Partial(Joined(p.text, l), p.needsParens || l.op != Mul)
  }

  /** The loop that inlines a group's operations after a variable or a number. */
  method InlineGroup(start: string, links: seq<Link>) returns (expr: string)
    ensures expr == Inline(start, links).text
  {
    expr := start;
    var needsParens := false;
    for k := 0 to |links|
      invariant Inline(start, links[..k]) == Partial(expr, needsParens)
    {
      assert links[..k + 1][..k] == links[..k];
      if links[k].op == Mul && needsParens {
        expr := "(" + expr + ")";
        needsParens := false;
      }
      expr := Joined(expr, links[k]);
      if links[k].op != Mul {
        needsParens := true;
      }
    }
    assert links[..|links|] == links;
  }

  /** The printed group reads, under ordinary precedence, as the fold of its operations from
      whatever the start is. */
  lemma {:induction false} InlineReads(env: Env, start: string, v: int, links: seq<Link>)
    requires TermText(env, start, v)
    ensures SumText(env, Inline(start, links).text, Fold(v, links))
    ensures !Inline(start, links).needsParens ==> TermText(env, Inline(start, links).text, Fold(v, links))
  {
    if links == [] {
      TermIsSum(env, start, v);
    } else {
      var rest, l := links[..|links| - 1], links[|links| - 1];
      var p, w := Inline(start, rest), Fold(v, rest);
      InlineReads(env, start, v, rest);
      if l.op == Mul && p.needsParens {
        ParensMakeFactor(env, p.text, w);
        FactorIsTerm(env, Parens(p.text), w);
        JoinedTerm(env, Parens(p.text), w, l);
      } else if p.needsParens {
        JoinedSum(env, p.text, w, l);
      } else {
        JoinedTerm(env, p.text, w, l);
      }
    }
  }

  /** The last operation multiplies a sum. */
  predicate MultipliesSum(links: seq<Link>) {
    |links| > 1 && links[|links| - 1].op == Mul && links[|links| - 2].op != Mul
  }

  /** The text before the last operation is appended. */
  function BeforeLast(start: string, links: seq<Link>): string
    requires links != []
  {
    var text := Inline(start, links[..|links| - 1]).text;
    if MultipliesSum(links) then Parens(text) else text
  }

  /** Parentheses are written exactly around a sum that is multiplied. */
  lemma InlineStep(start: string, links: seq<Link>)
    requires links != []
    ensures Inline(start, links).text == Joined(BeforeLast(start, links), links[|links| - 1])
    ensures Inline(start, links).needsParens <==> links[|links| - 1].op != Mul
  {
  }

  /** The tokens without the parentheses. */
  function Bare(ts: seq<Token>): seq<Token> {
    if ts == [] then [] else (if ts[0] == Open || ts[0] == Close then [] else [ts[0]]) + Bare(ts[1..])
  }

  function Opens(ts: seq<Token>): nat {
    if ts == [] then 0 else (if ts[0] == Open then 1 else 0) + Opens(ts[1..])
  }

  lemma {:induction false} CountConcat(ts: seq<Token>, us: seq<Token>)
    ensures Bare(ts + us) == Bare(ts) + Bare(us) && Opens(ts + us) == Opens(ts) + Opens(us)
  {
    if ts == [] {
      assert ts + us == us;
    } else {
      assert (ts + us)[1..] == ts[1..] + us;
      CountConcat(ts[1..], us);
    }
  }

  lemma CountOne(t: Token)
    ensures Bare([t]) == (if t == Open || t == Close then [] else [t]) && Opens([t]) == if t == Open then 1 else 0
  {
    assert [t][1..] == [];
  }

  lemma CountJoined(s: string, l: Link)
    requires Lex(s).Some?
    ensures var ts := Lex(Joined(s, l));
            && ts.Some? && Bare(ts.value) == Bare(Lex(s).value) + [TokenOf(l.op), Num(l.c)]
            && Opens(ts.value) == Opens(Lex(s).value)
  {
    var op, c := [TokenOf(l.op)], [Num(l.c)];
    JoinedTokens(s, l);
    assert [TokenOf(l.op), Num(l.c)] == op + c;
    CountConcat(Lex(s).value, op + c);
    CountConcat(op, c);
    CountOne(TokenOf(l.op));
    CountOne(Num(l.c));
  }

  lemma CountParens(s: string)
    requires Lex(s).Some?
    ensures var ts := Lex(Parens(s));
            ts.Some? && Bare(ts.value) == Bare(Lex(s).value) && Opens(ts.value) == Opens(Lex(s).value) + 1
  {
    LexSymbolChar('(', Open);
    LexSymbolChar(')', Close);
    LexConcat("(", s);
    LexConcat("(" + s, ")");
    CountConcat([Open], Lex(s).value);
    CountConcat([Open] + Lex(s).value, [Close]);
    CountOne(Open);
    CountOne(Close);
  }

  /** The operations with their constants, in order. */
  function Operations(links: seq<Link>): seq<Token> {
    if links == [] then []
    else Operations(links[..|links| - 1]) + [TokenOf(links[|links| - 1].op), Num(links[|links| - 1].c)]
  }

  /** How often a product directly follows a sum. */
  function SumsMultiplied(links: seq<Link>): nat {
    if links == [] then 0 else SumsMultiplied(links[..|links| - 1]) + if MultipliesSum(links) then 1 else 0
  }

  lemma CountBeforeLast(start: string, links: seq<Link>)
    requires links != [] && Lex(Inline(start, links[..|links| - 1]).text).Some?
    ensures var ts, before := Lex(Inline(start, links[..|links| - 1]).text).value, Lex(BeforeLast(start, links));
            && before.Some? && Bare(before.value) == Bare(ts)
            && Opens(before.value) == Opens(ts) + if MultipliesSum(links) then 1 else 0
  {
    CountParens(Inline(start, links[..|links| - 1]).text);
  }

  lemma OneMoreOperation(ts: seq<Token>, links: seq<Link>)
    requires links != []
    ensures ts + Operations(links[..|links| - 1]) + [TokenOf(links[|links| - 1].op), Num(links[|links| - 1].c)]
         == ts + Operations(links)
  {
    var a, b := Operations(links[..|links| - 1]), [TokenOf(links[|links| - 1].op), Num(links[|links| - 1].c)];
    assert Operations(links) == a + b;
    ConcatTwice(ts, a, b);
  }

  lemma ConcatTwice(a: seq<Token>, b: seq<Token>, c: seq<Token>)
    ensures a + b + c == a + (b + c)
  {
  }

  /** But for the parentheses, the text is the start and then the operations in their order; and
      there are only as many parentheses as sums that are multiplied. */
  lemma {:induction false} InlineKeepsOrder(start: string, links: seq<Link>)
    requires Lex(start).Some?
    ensures var ts := Lex(Inline(start, links).text);
            && ts.Some? && Bare(ts.value) == Bare(Lex(start).value) + Operations(links)
            && Opens(ts.value) == Opens(Lex(start).value) + SumsMultiplied(links)
  {
    if links == [] {
      assert Bare(Lex(start).value) + [] == Bare(Lex(start).value);
    } else {
      var rest := links[..|links| - 1];
      InlineStep(start, links);
      InlineKeepsOrder(start, rest);
      CountBeforeLast(start, links);
      CountJoined(BeforeLast(start, links), links[|links| - 1]);
      OneMoreOperation(Bare(Lex(start).value), links);
    }
  }

  /** The text is the start with something before it and something after it. */
  ghost predicate IsFrame(links: seq<Link>, before: string, after: string) {
    forall start :: Inline(start, links).text == before + start + after
  }

  lemma FrameStep(links: seq<Link>, before: string, after: string)
    requires links != [] && IsFrame(links[..|links| - 1], before, after)
    ensures var t := Symbol(TokenOf(links[|links| - 1].op)) + Digits(links[|links| - 1].c);
            if MultipliesSum(links) then IsFrame(links, "(" + before, after + ")" + t)
            else IsFrame(links, before, after + t)
  {
    var rest, l := links[..|links| - 1], links[|links| - 1];
    var t := Symbol(TokenOf(l.op)) + Digits(l.c);
    forall start
      ensures Inline(start, links).text ==
              if MultipliesSum(links) then "(" + before + start + (after + ")" + t) else before + start + (after + t)
    {
      InlineStep(start, links);
      assert Inline(start, rest).text == before + start + after;
      Regroup(before, start, after, Symbol(TokenOf(l.op)), Digits(l.c));
    }
  }

  lemma Regroup(a: string, b: string, c: string, s: string, d: string)
    ensures a + b + c + s + d == a + b + (c + (s + d))
    ensures Parens(a + b + c) + s + d == "(" + a + b + (c + ")" + (s + d))
  {
  }

  /** Whatever the start is, it stands in the same place of the same text. */
  lemma {:induction false} InlineFrame(links: seq<Link>) returns (before: string, after: string)
    ensures IsFrame(links, before, after)
  {
    if links == [] {
      before, after := "", "";
    } else {
      before, after := InlineFrame(links[..|links| - 1]);
      FrameStep(links, before, after);
      var t := Symbol(TokenOf(links[|links| - 1].op)) + Digits(links[|links| - 1].c);
      if MultipliesSum(links) {
        before, after := "(" + before, after + ")" + t;
      } else {
        after := after + t;
      }
    }
  }

  /** The loop that computes a group's value. */
  method GroupValue(start: int, links: seq<Link>, mod: nat) returns (curr: int)
    requires 0 < mod
    ensures Cong(curr, Fold(start, links), mod)
    ensures links != [] ==> 0 <= curr < mod
  {
    curr := start;
    for k := 0 to |links|
      invariant Cong(curr, Fold(start, links[..k]), mod)
      invariant k > 0 ==> 0 <= curr < mod
    {
      assert links[..k + 1][..k] == links[..k];
      ApplyCong(curr, Fold(start, links[..k]), links[k], mod);
      CongMod(Apply(curr, links[k]), mod);
      match links[k].op {
        case Add => curr := (curr + links[k].c) % mod;
        case Sub => curr := (curr - links[k].c) % mod;
        case Mul => curr := (curr * links[k].c) % mod;
      }
    }
    assert links[..|links|] == links;
  }

  // ---------------------------------------------------------------- solution

  /** The breakpoints lie in the chain, in order, and there is a variable for each. */
  predicate Fits(data: Chain, vars: seq<string>, bps: seq<nat>) {
    && |bps| <= |vars|
    && (forall i :: 0 <= i < |bps| ==> bps[i] <= |data.links|)
    && (forall i :: 0 <= i < |bps| - 1 ==> bps[i] < bps[i + 1])
    && |data.values| == |data.links| + 1 && forall i :: 0 <= i < |data.values| ==> data.values[i] >= 0
  }

  /** The sentence of group g: the new variable is the previous one with the group's operations
      inlined, then the same from the previous value, then the result. */
  function ComposedPart(data: Chain, vars: seq<string>, bps: seq<nat>, g: nat): Equation
    requires Fits(data, vars, bps) && g < |bps|
  {
    if g == 0 then Equation(vars[0], [Digits(data.values[0])])
    else
      var links := data.links[bps[g - 1]..bps[g]];
      Equation(vars[g], [Inline(vars[g - 1], links).text, Inline(Digits(data.values[bps[g - 1]]), links).text,
                         Digits(data.values[bps[g]])])
  }

  lemma BreakpointsOrdered(bps: seq<nat>, op: nat, maxNest: nat)
    requires 0 < maxNest && 0 < op && AreBreakpoints(bps, op, maxNest)
    ensures forall i :: 0 <= i < |bps| ==> bps[i] <= op
    ensures forall i :: 0 <= i < |bps| - 1 ==> bps[i] < bps[i + 1]
    ensures bps[0] == 0 && bps[|bps| - 1] == op && |bps| >= 2
  {
    CeilDivBounds(op, maxNest);
    forall i: nat | i < |bps| - 1 ensures bps[i] < bps[i + 1] {
      GroupSizes(bps, op, maxNest, i);
    }
    GroupSizes(bps, op, maxNest, 0);
  }

  lemma GroupEndsInItsValue(data: Chain, mod: nat, i: nat, j: nat, curr: int)
    requires 0 < mod && IsChain(data, mod) && i < j < |data.values|
    requires Cong(curr, Fold(data.values[i], data.links[i..j]), mod) && 0 <= curr < mod
    ensures curr == data.values[j]
  {
    ValuesAreFolds(data, mod, i, j);
    ValuesInRange(data, mod, j);
    CongInRange(curr, data.values[j], 0, mod);
  }

  /** The loop body for one group. */
  method WriteGroup(data: Chain, prevVar: string, curVar: string, prev: nat, bp: nat, mod: nat) returns (part: Equation)
    requires 0 < mod && IsChain(data, mod) && prev < bp < |data.values|
    requires data.values[prev] >= 0 && data.values[bp] >= 0
    ensures part == Equation(curVar, [Inline(prevVar, data.links[prev..bp]).text,
                                      Inline(Digits(data.values[prev]), data.links[prev..bp]).text,
                                      Digits(data.values[bp])])
  {
    var links := data.links[prev..bp];
    var exprVar := InlineGroup(prevVar, links);
    var exprVal := InlineGroup(Digits(data.values[prev]), links);
    var curr := GroupValue(data.values[prev], links, mod);
    GroupEndsInItsValue(data, mod, prev, bp, curr);
    part := Equation(curVar, [exprVar, exprVal, Digits(curr)]);
  }

  /** `composedforward_solution` for at least two operations, with the variables it draws. */
  method ComposedForward(data: Chain, vars: seq<string>, mod: nat, maxNest: nat)
    returns (bps: seq<nat>, parts: seq<Equation>)
    requires 0 < mod && IsChain(data, mod) && |data.links| >= 2 && 0 < maxNest
    requires |vars| == |data.values|
    ensures AreBreakpoints(bps, |data.links|, maxNest)
    ensures |parts| == |bps| && bps[0] == 0 && bps[|bps| - 1] == |data.links| && Fits(data, vars, bps)
    ensures forall g :: 0 <= g < |parts| ==> parts[g] == ComposedPart(data, vars, bps, g)
  {
    bps := Breakpoints(|data.links|, maxNest);
    BreakpointsOrdered(bps, |data.links|, maxNest);
    ValuesAreNatural(data, mod);
    EnoughVariables(bps, |data.links|);
    parts := [];
    for g := 0 to |bps|
      invariant |parts| == g && forall i :: 0 <= i < g ==> parts[i] == ComposedPart(data, vars, bps, i)
    {
      var part := WritePart(data, vars, bps, g, mod);
      parts := parts + [part];
    }
  }

  /** The loop body. */
  method WritePart(data: Chain, vars: seq<string>, bps: seq<nat>, g: nat, mod: nat) returns (part: Equation)
    requires 0 < mod && IsChain(data, mod) && Fits(data, vars, bps) && g < |bps|
    ensures part == ComposedPart(data, vars, bps, g)
  {
    if g == 0 {
      part := Equation(vars[0], [Digits(data.values[0])]);
    } else {
      assert bps[g - 1] < bps[g - 1 + 1];
      part := WriteGroup(data, vars[g - 1], vars[g], bps[g - 1], bps[g], mod);
    }
  }

  lemma {:induction false} EnoughVariables(bps: seq<nat>, op: nat)
    requires |bps| >= 1 && forall i :: 0 <= i < |bps| - 1 ==> bps[i] < bps[i + 1]
    requires bps[|bps| - 1] <= op
    ensures |bps| <= op + 1
    decreases |bps|
  {
    if |bps| > 1 {
      EnoughVariables(bps[..|bps| - 1], bps[|bps| - 2]);
    }
  }

  /** Compressed text keeps its meaning: whatever the previous variable stands for, the printed
      expression has the value of the group's operations applied one after the other. */
  lemma ComposedTextKeepsMeaning(data: Chain, vars: seq<string>, bps: seq<nat>, g: nat, mod: nat, env: Env)
    requires 0 < mod && IsChain(data, mod) && Fits(data, vars, bps) && 0 < g < |bps| && IsName(vars[g - 1])
    ensures var part := ComposedPart(data, vars, bps, g);
            var links := data.links[bps[g - 1]..bps[g]];
            && Value(env, part.exprs[0]) == Some(Fold(env(vars[g - 1]), links))
            && Value(env, part.exprs[1]) == Some(Fold(data.values[bps[g - 1]], links))
            && Value(env, part.exprs[2]) == Some(data.values[bps[g]])
            && Cong(Fold(data.values[bps[g - 1]], links), data.values[bps[g]], mod)
  {
    var i, j := bps[g - 1], bps[g];
    var links, v := data.links[i..j], data.values[i];
    NameIsFactor(env, vars[g - 1]);
    FactorIsTerm(env, vars[g - 1], env(vars[g - 1]));
    InlineReads(env, vars[g - 1], env(vars[g - 1]), links);
    SumHasValue(env, Inline(vars[g - 1], links).text, Fold(env(vars[g - 1]), links));
    NumberIsTerm(env, v);
    InlineReads(env, Digits(v), v, links);
    SumHasValue(env, Inline(Digits(v), links).text, Fold(v, links));
    NumberReads(env, data.values[j]);
    assert bps[g - 1] <= bps[g - 1 + 1];
    ValuesAreFolds(data, mod, i, j);
  }

  /** A sentence's second expression is its first with the previous variable replaced by its value. */
  lemma ComposedSubstitutes(data: Chain, vars: seq<string>, bps: seq<nat>, g: nat)
    returns (before: string, after: string)
    requires Fits(data, vars, bps) && 0 < g < |bps|
    ensures var part := ComposedPart(data, vars, bps, g);
            && part.lhs == vars[g] && |part.exprs| == 3
            && part.exprs[0] == before + vars[g - 1] + after
            && part.exprs[1] == before + Digits(data.values[bps[g - 1]]) + after
            && part.exprs[2] == Digits(data.values[bps[g]])
    ensures ComposedPart(data, vars, bps, 0) == Equation(vars[0], [Digits(data.values[0])])
  {
    var links := data.links[bps[g - 1]..bps[g]];
    before, after := InlineFrame(links);
    assert IsFrame(links, before, after);
  }

  /** Every sentence of the compressed solution is true when the variables stand for the values
      at their breakpoints. */
  lemma ComposedPartsAreTrue(data: Chain, vars: seq<string>, bps: seq<nat>, g: nat, mod: nat, env: Env)
    requires 0 < mod && IsChain(data, mod) && Fits(data, vars, bps) && g < |bps| && bps[0] == 0
    requires forall i :: 0 <= i < |bps| ==> IsName(vars[i]) && env(vars[i]) == data.values[bps[i]]
    ensures True(env, ComposedPart(data, vars, bps, g), mod)
  {
    if g == 0 {
      NumberReads(env, data.values[0]);
    } else {
      ComposedTextKeepsMeaning(data, vars, bps, g, mod, env);
    }
  }
}
