/** The texts that the worked solutions print, and what they read as (src/generator.py). */
module LinearText {
  import opened Decimal
  import opened Prelude
  import opened ExprText
  import opened ChainArithmetic

  /** One sentence of a solution: "lhs = exprs[0] = exprs[1] = ...". */
  datatype Equation = Equation(lhs: string, exprs: seq<string>)

  /** Every expression of the sentence can be read, and its value is the variable's modulo mod. */
  predicate True(env: Env, eq: Equation, mod: nat)
    requires 0 < mod
  {
    forall i :: 0 <= i < |eq.exprs| ==>
                  Value(env, eq.exprs[i]).Some? && Cong(Value(env, eq.exprs[i]).value, env(eq.lhs), mod)
  }

  function TokenOf(op: Op): Token {
    match op case Add => Plus case Sub => Minus case Mul => Star
  }

  /** `"{} {} {}".format(s, op, c)` */
  function Joined(s: string, l: Link): string {
    s + Symbol(TokenOf(l.op)) + Digits(l.c)
  }

  lemma NumberIsTerm(env: Env, n: nat)
    ensures TermText(env, Digits(n), n)
  {
    NumberIsFactor(env, n);
    FactorIsTerm(env, Digits(n), n);
  }

  lemma JoinedSum(env: Env, s: string, v: int, l: Link)
    requires SumText(env, s, v) && l.op != Mul
    ensures SumText(env, Joined(s, l), Apply(v, l))
  {
    NumberIsTerm(env, l.c);
    var t := TokenOf(l.op);
    PlusTerm(env, s, v, t, Digits(l.c), l.c);
    assert (if t == Plus then v + l.c else v - l.c) == Apply(v, l);
  }

  lemma JoinedTerm(env: Env, s: string, v: int, l: Link)
    requires TermText(env, s, v)
    ensures l.op == Mul ==> TermText(env, Joined(s, l), Apply(v, l))
    ensures SumText(env, Joined(s, l), Apply(v, l))
  {
    if l.op == Mul {
      NumberIsFactor(env, l.c);
      TimesFactor(env, s, v, Digits(l.c), l.c);
      TermIsSum(env, Joined(s, l), Apply(v, l));
    } else {
      TermIsSum(env, s, v);
      JoinedSum(env, s, v, l);
    }
  }

  // ------------------------------------------------------------ linear forms

  /** `head + tail` for the constant b. */
  function WithConstant(head: string, b: int): string {
    if b == 0 then (if head != "" then head else "0")
    else if b > 0 then (if head != "" then head + Symbol(Plus) + Digits(b) else Digits(b))
    else (if head != "" then head + Symbol(Minus) + Digits(-b) else "-" + Digits(-b))
  }

  /** `head` of `_format_linear` */
  function Head(a: nat, sym: string): string {
    if a == 0 then "" else if a == 1 then sym else Digits(a) + sym
  }

  /** `_format_linear` */
  function FormatLinear(f: Linear, sym: string): string
    requires f.a >= 0
  {
    WithConstant(Head(f.a, sym), f.b)
  }

  /** `head` of `_format_linear_with_literal` */
  function LiteralHead(a: nat, literal: nat): string {
    if a == 0 then "" else if a == 1 then Digits(literal) else Digits(a) + Symbol(Star) + Digits(literal)
  }

  /** `_format_linear_with_literal` */
  function FormatLinearWithLiteral(f: Linear, literal: nat): string
    requires f.a >= 0
  {
    WithConstant(LiteralHead(f.a, literal), f.b)
  }

  lemma ConstantAlone(env: Env, b: int)
    ensures SumText(env, WithConstant("", b), b)
  {
    if b < 0 {
      NumberIsTerm(env, -b);
      LeadingMinus(env, Digits(-b), -b);
    } else {
      NumberIsTerm(env, b);
      TermIsSum(env, Digits(b), b);
      assert b == 0 ==> Digits(0) == "0";
    }
  }

  lemma ConstantAfter(env: Env, head: string, v: int, b: int)
    requires head != "" && TermText(env, head, v)
    ensures SumText(env, WithConstant(head, b), v + b)
  {
    TermIsSum(env, head, v);
    if b > 0 {
      NumberIsTerm(env, b);
      PlusTerm(env, head, v, Plus, Digits(b), b);
    } else if b < 0 {
      NumberIsTerm(env, -b);
      PlusTerm(env, head, v, Minus, Digits(-b), -b);
    }
  }

  /** Anything that may stand for the variable of a linear form. */
  ghost predicate IsSymbol(env: Env, sym: string, v: int) {
    sym != "" && !IsDigit(sym[0]) && FactorText(env, sym, v)
  }

  lemma NameIsSymbol(env: Env, name: string)
    requires IsName(name)
    ensures IsSymbol(env, name, env(name))
  {
    NameIsFactor(env, name);
  }

  lemma ParensAreSymbol(env: Env, s: string, v: int)
    requires SumText(env, s, v)
    ensures IsSymbol(env, Parens(s), v)
  {
    ParensMakeFactor(env, s, v);
  }

  lemma HeadReads(env: Env, a: nat, sym: string, v: int)
    requires 0 < a && IsSymbol(env, sym, v)
    ensures Head(a, sym) != "" && TermText(env, Head(a, sym), a * v)
  {
    if a == 1 {
      FactorIsTerm(env, sym, v);
    } else {
      NumberIsTerm(env, a);
      Juxtaposed(env, Digits(a), a, sym, v);
    }
  }

  lemma LiteralHeadReads(env: Env, a: nat, literal: nat)
    requires 0 < a
    ensures LiteralHead(a, literal) != "" && TermText(env, LiteralHead(a, literal), a * literal)
  {
    NumberIsTerm(env, literal);
    if a > 1 {
      NumberIsTerm(env, a);
      NumberIsFactor(env, literal);
      TimesFactor(env, Digits(a), a, Digits(literal), literal);
    }
  }

  lemma HeadAndConstant(env: Env, a: nat, b: int, sym: string, v: int, w: int)
    requires IsSymbol(env, sym, v) && w == a * v
    ensures SumText(env, WithConstant(Head(a, sym), b), w + b)
  {
    if a == 0 {
      ConstantAlone(env, b);
    } else {
      HeadReads(env, a, sym, v);
      ConstantAfter(env, Head(a, sym), w, b);
    }
  }

  lemma LiteralAndConstant(env: Env, a: nat, b: int, literal: nat, w: int)
    requires w == a * literal
    ensures SumText(env, WithConstant(LiteralHead(a, literal), b), w + b)
  {
    if a == 0 {
      ConstantAlone(env, b);
    } else {
      LiteralHeadReads(env, a, literal);
      ConstantAfter(env, LiteralHead(a, literal), w, b);
    }
  }

  lemma FormatLinearIsSum(env: Env, f: Linear, sym: string, v: int)
    requires f.a >= 0 && IsSymbol(env, sym, v)
    ensures SumText(env, FormatLinear(f, sym), At(f, v))
  {
    var w := f.a * v;
    HeadAndConstant(env, f.a, f.b, sym, v, w);
    assert At(f, v) == w + f.b;
  }

  /** The text of a linear form is read as its value, whatever stands for the variable. */
  lemma FormatLinearReads(env: Env, f: Linear, sym: string, v: int)
    requires f.a >= 0 && IsSymbol(env, sym, v)
    ensures Value(env, FormatLinear(f, sym)) == Some(At(f, v))
  {
    FormatLinearIsSum(env, f, sym, v);
    SumHasValue(env, FormatLinear(f, sym), At(f, v));
  }

  /** Without a constant it is a product. */
  lemma FormatMultipleReads(env: Env, f: Linear, sym: string, v: int)
    requires f.a >= 0 && f.b == 0 && IsSymbol(env, sym, v)
    ensures TermText(env, FormatLinear(f, sym), At(f, v))
  {
    if f.a == 0 {
      NumberIsTerm(env, 0);
      assert Digits(0) == "0";
    } else {
      HeadReads(env, f.a, sym, v);
    }
  }

  lemma FormatLiteralReads(env: Env, f: Linear, literal: nat)
    requires f.a >= 0
    ensures Value(env, FormatLinearWithLiteral(f, literal)) == Some(At(f, literal))
  {
    LiteralAndConstant(env, f.a, f.b, literal, f.a * literal);
    SumHasValue(env, FormatLinearWithLiteral(f, literal), f.a * literal + f.b);
  }

  lemma NumberReads(env: Env, n: nat)
    ensures SumText(env, Digits(n), n) && Value(env, Digits(n)) == Some(n as int)
  {
    NumberIsTerm(env, n);
    TermIsSum(env, Digits(n), n);
    SumHasValue(env, Digits(n), n);
  }

  function Everywhere(v: int): Env {
    s => v
  }

  /** The text alone gives the form's value at every point. */
  lemma TextGivesValue(f: Linear, name: string, v: int)
    requires f.a >= 0 && IsName(name)
    ensures Value(Everywhere(v), FormatLinear(f, name)) == Some(f.a * v + f.b)
  {
    NameIsSymbol(Everywhere(v), name);
    FormatLinearReads(Everywhere(v), f, name, v);
  }

  /** The text of a linear form determines the form. */
  lemma FormatLinearIsInjective(f: Linear, g: Linear, name: string)
    requires f.a >= 0 && g.a >= 0 && IsName(name)
    requires FormatLinear(f, name) == FormatLinear(g, name)
    ensures f == g
  {
    TextGivesValue(f, name, 0);
    TextGivesValue(g, name, 0);
    TextGivesValue(f, name, 1);
    TextGivesValue(g, name, 1);
  }

  // ------------------------------------------------------- the texts themselves

  /** ` + b` or ` - b`, or nothing. */
  function ConstantTokens(b: int): seq<Token> {
    if b == 0 then [] else if b > 0 then [Plus, Num(b)] else [Minus, Num(-b)]
  }

  /** A constant by itself. */
  function AloneTokens(b: int): seq<Token> {
    if b >= 0 then [Num(b)] else [Minus, Num(-b)]
  }

  lemma AloneLexes(b: int)
    ensures Lex(WithConstant("", b)) == Some(AloneTokens(b))
  {
    if b < 0 {
      LexNumber(-b);
      LexSymbolChar('-', Minus);
      LexConcat("-", Digits(-b));
      assert [Minus] + [Num(-b)] == [Minus, Num(-b)];
    } else {
      LexNumber(b);
      assert b == 0 ==> Digits(0) == "0";
    }
  }

  lemma ConstantLexes(head: string, b: int)
    requires head != "" && Lex(head).Some?
    ensures Lex(WithConstant(head, b)) == Some(Lex(head).value + ConstantTokens(b))
  {
    if b > 0 {
      LexNumber(b);
      LexJoined(head, Plus, Digits(b));
      assert Lex(head).value + [Plus] + [Num(b)] == Lex(head).value + [Plus, Num(b)];
    } else if b < 0 {
      LexNumber(-b);
      LexJoined(head, Minus, Digits(-b));
      assert Lex(head).value + [Minus] + [Num(-b)] == Lex(head).value + [Minus, Num(-b)];
    } else {
      assert Lex(head).value + [] == Lex(head).value;
    }
  }

  /** The text of a linear form, token by token: no coefficient 1, no zero but the whole. */
  lemma FormatLinearTokens(f: Linear, sym: string)
    requires f.a >= 0 && sym != "" && !IsDigit(sym[0]) && Lex(sym).Some?
    ensures f.a == 0 ==> Lex(FormatLinear(f, sym)) == Some(AloneTokens(f.b))
    ensures f.a == 1 ==> Lex(FormatLinear(f, sym)) == Some(Lex(sym).value + ConstantTokens(f.b))
    ensures f.a > 1 ==> Lex(FormatLinear(f, sym)) == Some([Num(f.a)] + Lex(sym).value + ConstantTokens(f.b))
  {
    if f.a == 0 {
      AloneLexes(f.b);
    } else {
      if f.a > 1 {
        LexNumber(f.a);
        LexConcat(Digits(f.a), sym);
      }
      ConstantLexes(Head(f.a, sym), f.b);
    }
  }

  lemma FormatLiteralTokens(f: Linear, literal: nat)
    requires f.a >= 0
    ensures f.a == 0 ==> Lex(FormatLinearWithLiteral(f, literal)) == Some(AloneTokens(f.b))
    ensures f.a == 1 ==> Lex(FormatLinearWithLiteral(f, literal)) == Some([Num(literal)] + ConstantTokens(f.b))
    ensures f.a > 1 ==>
              Lex(FormatLinearWithLiteral(f, literal)) == Some([Num(f.a), Star, Num(literal)] + ConstantTokens(f.b))
  {
    if f.a == 0 {
      AloneLexes(f.b);
    } else {
      LexNumber(literal);
      if f.a > 1 {
        LexNumber(f.a);
        LexJoined(Digits(f.a), Star, Digits(literal));
        assert [Num(f.a)] + [Star] + [Num(literal)] == [Num(f.a), Star, Num(literal)];
      }
      ConstantLexes(LiteralHead(f.a, literal), f.b);
    }
  }

  lemma JoinedTokens(s: string, l: Link)
    requires Lex(s).Some?
    ensures Lex(Joined(s, l)) == Some(Lex(s).value + [TokenOf(l.op), Num(l.c)])
  {
    LexNumber(l.c);
    LexJoined(s, TokenOf(l.op), Digits(l.c));
    assert Lex(s).value + [TokenOf(l.op)] + [Num(l.c)] == Lex(s).value + [TokenOf(l.op), Num(l.c)];
  }

  // --------------------------------------------------- what an expression says

  /** Whatever the variables stand for, the text has the form's value at the variable. */
  ghost predicate SaysForm(text: string, name: string, f: Linear) {
    forall env: Env :: Value(env, text) == Some(At(f, env(name)))
  }

  /** And with an operation on the variable substituted. */
  ghost predicate SaysFormOf(text: string, name: string, l: Link, f: Linear) {
    forall env: Env :: Value(env, text) == Some(At(f, Apply(env(name), l)))
  }

  ghost predicate SaysNumber(text: string, n: int) {
    forall env: Env :: Value(env, text) == Some(n)
  }

  /** The text is the canonical linear form of a run of operations, in the variable. */
  ghost predicate SaysRun(text: string, name: string, links: seq<Link>, mod: nat)
    requires 0 < mod
  {
    exists f: Linear :: IsFormOf(f, links, mod) && SaysForm(text, name, f)
  }

  /** The same with the operation before the run, on the variable, substituted. */
  ghost predicate SaysRunOf(text: string, name: string, l: Link, links: seq<Link>, mod: nat)
    requires 0 < mod
  {
    exists f: Linear :: IsFormOf(f, links, mod) && SaysFormOf(text, name, l, f)
  }

  /** The same with a number in the place of the variable. */
  ghost predicate SaysRunAt(text: string, n: int, links: seq<Link>, mod: nat)
    requires 0 < mod
  {
    exists f: Linear :: IsFormOf(f, links, mod) && SaysNumber(text, At(f, n))
  }

  /** The text is one operation, on a variable or a number. */
  predicate IsOperation(text: string, left: Token, l: Link) {
    Lex(text) == Some([left, TokenOf(l.op), Num(l.c)])
  }

  lemma FormatSaysForm(f: Linear, name: string)
    requires f.a >= 0 && IsName(name)
    ensures SaysForm(FormatLinear(f, name), name, f)
  {
    forall env: Env ensures Value(env, FormatLinear(f, name)) == Some(At(f, env(name))) {
      NameIsSymbol(env, name);
      FormatLinearReads(env, f, name, env(name));
    }
  }

  lemma FormatSaysFormOf(f: Linear, name: string, l: Link)
    requires f.a >= 0 && IsName(name)
    ensures SaysFormOf(FormatLinear(f, Parens(Joined(name, l))), name, l, f)
  {
    var text := FormatLinear(f, Parens(Joined(name, l)));
    forall env: Env ensures Value(env, text) == Some(At(f, Apply(env(name), l))) {
      NameIsFactor(env, name);
      FactorIsTerm(env, name, env(name));
      JoinedTerm(env, name, env(name), l);
      ParensAreSymbol(env, Joined(name, l), Apply(env(name), l));
      FormatLinearReads(env, f, Parens(Joined(name, l)), Apply(env(name), l));
    }
  }

  lemma FormatSaysNumber(f: Linear, n: nat)
    requires f.a >= 0
    ensures SaysNumber(FormatLinear(f, Parens(Digits(n))), At(f, n))
    ensures SaysNumber(FormatLinearWithLiteral(f, n), At(f, n))
  {
    forall env: Env
      ensures Value(env, FormatLinear(f, Parens(Digits(n)))) == Some(At(f, n))
      ensures Value(env, FormatLinearWithLiteral(f, n)) == Some(At(f, n))
    {
      NumberReads(env, n);
      ParensAreSymbol(env, Digits(n), n);
      FormatLinearReads(env, f, Parens(Digits(n)), n);
      FormatLiteralReads(env, f, n);
    }
  }

  lemma JoinedIsOperation(name: string, n: nat, l: Link)
    ensures IsOperation(Joined(Digits(n), l), Num(n), l)
    ensures IsName(name) ==> IsOperation(Joined(name, l), Var(name), l)
  {
    LexNumber(n);
    JoinedTokens(Digits(n), l);
    assert [Num(n)] + [TokenOf(l.op), Num(l.c)] == [Num(n), TokenOf(l.op), Num(l.c)];
    if IsName(name) {
      LexName(name);
      JoinedTokens(name, l);
      assert [Var(name)] + [TokenOf(l.op), Num(l.c)] == [Var(name), TokenOf(l.op), Num(l.c)];
    }
  }
}
