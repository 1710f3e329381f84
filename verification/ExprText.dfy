/** How a reader reads an arithmetic expression of a worked solution: a lexer for the characters,
    and a parser with ordinary precedence that evaluates as it goes.  Numbers, two-letter
    variables, + - *, parentheses, a leading minus, and multiplication by juxtaposition as in
    "3AB" or "3(AB + 2)".  The solution writers of src/generator.py are proved against it. */
module ExprText {
  import opened Decimal
  import opened Prelude

  datatype Token = Num(n: nat) | Var(name: string) | Plus | Minus | Star | Open | Close

  type Env = string -> int

  // ------------------------------------------------------------------- lexer

  predicate IsLetter(c: char) { 'A' <= c <= 'Z' }

  predicate IsName(s: string) {
    |s| == 2 && IsLetter(s[0]) && IsLetter(s[1])
  }

  /** How many digits s starts with. */
  function DigitRun(s: string): (n: nat)
    ensures n <= |s| && forall i :: 0 <= i < n ==> IsDigit(s[i])
    ensures n < |s| ==> !IsDigit(s[n])
  {
    if s == "" || !IsDigit(s[0]) then 0 else 1 + DigitRun(s[1..])
  }

  function Prepend(t: Token, ts: Option<seq<Token>>): Option<seq<Token>> {
    match ts case None => None case Some(rest) => Some([t] + rest)
  }

  function Lex(s: string): Option<seq<Token>>
    decreases |s|
  {
    if s == "" then Some([])
    else if s[0] == ' ' then Lex(s[1..])
    else if s[0] == '+' then Prepend(Plus, Lex(s[1..]))
    else if s[0] == '-' then Prepend(Minus, Lex(s[1..]))
    else if s[0] == '*' then Prepend(Star, Lex(s[1..]))
    else if s[0] == '(' then Prepend(Open, Lex(s[1..]))
    else if s[0] == ')' then Prepend(Close, Lex(s[1..]))
    else if IsDigit(s[0]) then Prepend(Num(ReadDigits(s[..DigitRun(s)])), Lex(s[DigitRun(s)..]))
    else if |s| >= 2 && IsName(s[..2]) then Prepend(Var(s[..2]), Lex(s[2..]))
    else None
  }

  /** Two texts may be put together when no number runs across the seam. */
  predicate Separate(s: string, t: string) {
    s == "" || t == "" || !IsDigit(s[|s| - 1]) || !IsDigit(t[0])
  }

  lemma {:induction false} RunStops(s: string, t: string)
    requires s != "" && Separate(s, t)
    ensures DigitRun(s + t) == DigitRun(s)
  {
    assert (s + t)[1..] == s[1..] + t;
    if |s| == 1 {
      assert (s + t)[1..] == t && s[1..] == "";
    } else if IsDigit(s[0]) {
      RunStops(s[1..], t);
    }
  }

  /** How many characters the first token (or blank) of s takes. */
  function FirstLength(s: string): (n: nat)
    requires s != "" && Lex(s).Some?
    ensures 0 < n <= |s|
  {
    if IsDigit(s[0]) then DigitRun(s) else if IsLetter(s[0]) then 2 else 1
  }

  lemma FirstLengthOfConcat(s: string, t: string)
    requires s != "" && Lex(s).Some? && Separate(s, t)
    ensures var n := FirstLength(s);
            && (s + t)[n..] == s[n..] + t && (s + t)[..n] == s[..n]
            && (IsDigit(s[0]) ==> DigitRun(s + t) == n)
            && Lex(s[n..]).Some? && Separate(s[n..], t)
  {
    var n := FirstLength(s);
    if IsDigit(s[0]) {
      RunStops(s, t);
    }
    assert s[n..] != "" ==> s[n..][|s[n..]| - 1] == s[|s| - 1];
  }

  lemma {:induction false} LexConcat(s: string, t: string)
    requires Lex(s).Some? && Lex(t).Some? && Separate(s, t)
    ensures Lex(s + t) == Some(Lex(s).value + Lex(t).value)
    decreases |s|
  {
    if s == "" {
      assert s + t == t && [] + Lex(t).value == Lex(t).value;
    } else {
      var n := FirstLength(s);
      FirstLengthOfConcat(s, t);
      LexConcat(s[n..], t);
      LexFirst(s, t, n);
    }
  }

  lemma LexFirst(s: string, t: string, n: nat)
    requires s != "" && Lex(s).Some? && Lex(t).Some? && n == FirstLength(s)
    requires (s + t)[n..] == s[n..] + t && (s + t)[..n] == s[..n]
    requires IsDigit(s[0]) ==> DigitRun(s + t) == n
    requires Lex(s[n..]).Some? && Lex(s[n..] + t) == Some(Lex(s[n..]).value + Lex(t).value)
    ensures Lex(s + t) == Some(Lex(s).value + Lex(t).value)
  {
    var u := s + t;
    assert u[0] == s[0];
    PrependConcat(s, t, n);
    if s[0] == ' ' {
      assert Lex(u) == Lex(u[1..]);
    } else if IsDigit(s[0]) {
      assert Lex(u) == Prepend(Num(ReadDigits(u[..n])), Lex(u[n..]));
    } else if IsLetter(s[0]) {
      assert Lex(u) == Prepend(Var(u[..2]), Lex(u[2..]));
    }
  }

  lemma PrependConcat(s: string, t: string, n: nat)
    requires n <= |s| && Lex(s[n..]).Some? && Lex(t).Some?
    ensures forall tok :: Prepend(tok, Some(Lex(s[n..]).value + Lex(t).value)) ==
                          Some(Prepend(tok, Lex(s[n..])).value + Lex(t).value)
  {
    forall tok ensures [tok] + (Lex(s[n..]).value + Lex(t).value) == [tok] + Lex(s[n..]).value + Lex(t).value {
    }
  }

  lemma LexNumber(n: nat)
    ensures Lex(Digits(n)) == Some([Num(n)])
  {
    var s := Digits(n);
    RunIsAll(s);
    assert s[..|s|] == s && s[|s|..] == "" && Lex("") == Some([]);
    assert [Num(n)] + [] == [Num(n)];
    DigitsReadBack(n);
  }

  lemma RunIsAll(s: string)
    requires forall i :: 0 <= i < |s| ==> IsDigit(s[i])
    ensures DigitRun(s) == |s|
  {
  }

  lemma LexName(v: string)
    requires IsName(v)
    ensures Lex(v) == Some([Var(v)])
  {
    assert v[..2] == v && v[2..] == "" && Lex("") == Some([]);
    assert [Var(v)] + [] == [Var(v)];
  }

  lemma LexSymbolChar(c: char, t: Token)
    requires (c, t) in {('+', Plus), ('-', Minus), ('*', Star), ('(', Open), (')', Close)}
    ensures Lex([c]) == Some([t])
  {
    assert [c][1..] == "" && Lex("") == Some([]);
    assert [t] + [] == [t];
  }

  // ------------------------------------------------------------------ parser

  /** A parsed value, and the tokens that are left. */
  type Read = Option<(int, seq<Token>)>

  predicate StartsFactor(ts: seq<Token>) {
    ts != [] && (ts[0].Num? || ts[0].Var? || ts[0].Open?)
  }

  function Factor(env: Env, ts: seq<Token>): (r: Read)
    ensures r.Some? ==> |r.value.1| < |ts|
    decreases |ts|, 0
  {
    if ts == [] then None
    else
      match ts[0]
      case Num(n) => Some((n, ts[1..]))
      case Var(v) => Some((env(v), ts[1..]))
      case Open =>
        (match Expr(env, ts[1..])
         case Some((v, rest)) => if rest != [] && rest[0] == Close then Some((v, rest[1..])) else None
         case None => None)
      case _ => None
  }

  /** The product goes on over * and over juxtaposed factors. */
  function TermTail(env: Env, acc: int, ts: seq<Token>): (r: Read)
    ensures r.Some? ==> |r.value.1| <= |ts|
    decreases |ts|, 1
  {
    if StartsFactor(ts) then
      match Factor(env, ts)
      case Some((v, rest)) => TermTail(env, acc * v, rest)
      case None => None
    else if ts != [] && ts[0] == Star then
      match Factor(env, ts[1..])
      case Some((v, rest)) => TermTail(env, acc * v, rest)
      case None => None
    else Some((acc, ts))
  }

  function Term(env: Env, ts: seq<Token>): (r: Read)
    ensures r.Some? ==> |r.value.1| < |ts|
    decreases |ts|, 2
  {
    match Factor(env, ts)
    case Some((v, rest)) => TermTail(env, v, rest)
    case None => None
  }

  function ExprTail(env: Env, acc: int, ts: seq<Token>): (r: Read)
    ensures r.Some? ==> |r.value.1| <= |ts|
    decreases |ts|, 3
  {
    if ts != [] && (ts[0] == Plus || ts[0] == Minus) then
      match Term(env, ts[1..])
      case Some((v, rest)) => ExprTail(env, if ts[0] == Plus then acc + v else acc - v, rest)
      case None => None
    else Some((acc, ts))
  }

  function Expr(env: Env, ts: seq<Token>): (r: Read)
    ensures r.Some? ==> |r.value.1| <= |ts|
    decreases |ts|, 4
  {
    if ts != [] && ts[0] == Minus then
      match Term(env, ts[1..])
      case Some((v, rest)) => ExprTail(env, -v, rest)
      case None => None
    else
      match Term(env, ts)
      case Some((v, rest)) => ExprTail(env, v, rest)
      case None => None
  }

  /** The value of a text; None when it is not an expression. */
  function Value(env: Env, s: string): Option<int> {
    match Lex(s)
    case None => None
    case Some(ts) =>
      match Expr(env, ts)
      case Some((v, rest)) => if rest == [] then Some(v) else None
      case None => None
  }

  // --------------------------------------------- what a piece of text reads as

  predicate EndsTerm(ts: seq<Token>) {
    !StartsFactor(ts) && (ts == [] || ts[0] != Star)
  }

  /** Wherever they stand, the tokens are read as one factor of value v. */
  ghost predicate FactorTokens(env: Env, ts: seq<Token>, v: int) {
    StartsFactor(ts) && forall rest :: Factor(env, ts + rest) == Some((v, rest))
  }

  /** The tokens are read as a product of value v that may go on. */
  ghost predicate TermTokens(env: Env, ts: seq<Token>, v: int) {
    StartsFactor(ts) && forall rest :: Term(env, ts + rest) == TermTail(env, v, rest)
  }

  /** The tokens are read as a sum of value v, provided no factor follows. */
  ghost predicate SumTokens(env: Env, ts: seq<Token>, v: int) {
    forall rest :: EndsTerm(rest) ==> Expr(env, ts + rest) == ExprTail(env, v, rest)
  }

  lemma FactorIsTermTokens(env: Env, ts: seq<Token>, v: int)
    requires FactorTokens(env, ts, v)
    ensures TermTokens(env, ts, v)
  {
  }

  lemma TermIsSumTokens(env: Env, ts: seq<Token>, v: int)
    requires TermTokens(env, ts, v)
    ensures SumTokens(env, ts, v)
  {
    forall rest | EndsTerm(rest) ensures Expr(env, ts + rest) == ExprTail(env, v, rest) {
      assert (ts + rest)[0] == ts[0];
      assert Term(env, ts + rest) == TermTail(env, v, rest) == Some((v, rest));
    }
  }

  lemma ParensTokens(env: Env, ts: seq<Token>, v: int)
    requires SumTokens(env, ts, v)
    ensures FactorTokens(env, [Open] + ts + [Close], v)
  {
    forall rest ensures Factor(env, [Open] + ts + [Close] + rest) == Some((v, rest)) {
      var all, after := [Open] + ts + [Close] + rest, [Close] + rest;
      assert all[1..] == ts + after;
      assert EndsTerm(after);
      assert Expr(env, ts + after) == ExprTail(env, v, after) == Some((v, after));
      assert after[1..] == rest;
    }
  }

  lemma TermTailFactor(env: Env, a: int, fs: seq<Token>, v: int, rest: seq<Token>)
    requires FactorTokens(env, fs, v)
    ensures TermTail(env, a, fs + rest) == TermTail(env, a * v, rest)
  {
    assert (fs + rest)[0] == fs[0];
    assert Factor(env, fs + rest) == Some((v, rest));
  }

  lemma TermTailStar(env: Env, a: int, fs: seq<Token>, v: int, rest: seq<Token>)
    requires FactorTokens(env, fs, v)
    ensures TermTail(env, a, [Star] + (fs + rest)) == TermTail(env, a * v, rest)
  {
    assert ([Star] + (fs + rest))[1..] == fs + rest;
    assert Factor(env, fs + rest) == Some((v, rest));
  }

  lemma Regroup(ts: seq<Token>, t: Token, fs: seq<Token>, rest: seq<Token>)
    ensures ts + [t] + fs + rest == ts + ([t] + (fs + rest))
  {
  }

  lemma JuxtaposedTokens(env: Env, ts: seq<Token>, a: int, fs: seq<Token>, v: int)
    requires TermTokens(env, ts, a) && FactorTokens(env, fs, v)
    ensures TermTokens(env, ts + fs, a * v)
  {
    forall rest ensures Term(env, ts + fs + rest) == TermTail(env, a * v, rest) {
      assert ts + fs + rest == ts + (fs + rest);
      TermTailFactor(env, a, fs, v, rest);
    }
  }

  lemma TimesTokens(env: Env, ts: seq<Token>, v: int, fs: seq<Token>, w: int)
    requires TermTokens(env, ts, v) && FactorTokens(env, fs, w)
    ensures TermTokens(env, ts + [Star] + fs, v * w)
  {
    forall rest ensures Term(env, ts + [Star] + fs + rest) == TermTail(env, v * w, rest) {
      Regroup(ts, Star, fs, rest);
      TermTailStar(env, v, fs, w, rest);
    }
  }

  lemma PlusTokens(env: Env, ts: seq<Token>, v: int, t: Token, fs: seq<Token>, w: int)
    requires t == Plus || t == Minus
    requires SumTokens(env, ts, v) && TermTokens(env, fs, w)
    ensures SumTokens(env, ts + [t] + fs, if t == Plus then v + w else v - w)
  {
    forall rest | EndsTerm(rest)
      ensures Expr(env, ts + [t] + fs + rest) == ExprTail(env, if t == Plus then v + w else v - w, rest)
    {
      var after := [t] + (fs + rest);
      Regroup(ts, t, fs, rest);
      assert EndsTerm(after) && after[1..] == fs + rest;
      assert Term(env, fs + rest) == TermTail(env, w, rest) == Some((w, rest));
    }
  }

  lemma MinusTokens(env: Env, fs: seq<Token>, w: int)
    requires TermTokens(env, fs, w)
    ensures SumTokens(env, [Minus] + fs, -w)
  {
    forall rest | EndsTerm(rest) ensures Expr(env, [Minus] + fs + rest) == ExprTail(env, -w, rest) {
      var all := [Minus] + fs + rest;
      assert all[0] == Minus && all[1..] == fs + rest;
      assert Term(env, fs + rest) == TermTail(env, w, rest) == Some((w, rest));
    }
  }

  // The same for texts.

  ghost predicate FactorText(env: Env, s: string, v: int) {
    Lex(s).Some? && FactorTokens(env, Lex(s).value, v)
  }

  ghost predicate TermText(env: Env, s: string, v: int) {
    Lex(s).Some? && TermTokens(env, Lex(s).value, v)
  }

  ghost predicate SumText(env: Env, s: string, v: int) {
    Lex(s).Some? && SumTokens(env, Lex(s).value, v)
  }

  lemma SumHasValue(env: Env, s: string, v: int)
    requires SumText(env, s, v)
    ensures Value(env, s) == Some(v)
  {
    assert EndsTerm([]);
    assert Lex(s).value + [] == Lex(s).value;
  }

  lemma NumberIsFactor(env: Env, n: nat)
    ensures FactorText(env, Digits(n), n)
  {
    LexNumber(n);
    forall rest ensures Factor(env, [Num(n)] + rest) == Some((n as int, rest)) {
      assert ([Num(n)] + rest)[1..] == rest;
    }
  }

  lemma NameIsFactor(env: Env, name: string)
    requires IsName(name)
    ensures FactorText(env, name, env(name))
  {
    LexName(name);
    forall rest ensures Factor(env, [Var(name)] + rest) == Some((env(name), rest)) {
      assert ([Var(name)] + rest)[1..] == rest;
    }
  }

  lemma FactorIsTerm(env: Env, s: string, v: int)
    requires FactorText(env, s, v)
    ensures TermText(env, s, v)
  {
    FactorIsTermTokens(env, Lex(s).value, v);
  }

  lemma TermIsSum(env: Env, s: string, v: int)
    requires TermText(env, s, v)
    ensures SumText(env, s, v)
  {
    TermIsSumTokens(env, Lex(s).value, v);
  }

  function Parens(s: string): string {
    "(" + s + ")"
  }

  /** Parentheses make a factor of a sum. */
  lemma ParensMakeFactor(env: Env, s: string, v: int)
    requires SumText(env, s, v)
    ensures FactorText(env, Parens(s), v)
  {
    LexSymbolChar('(', Open);
    LexSymbolChar(')', Close);
    LexConcat("(", s);
    LexConcat("(" + s, ")");
    ParensTokens(env, Lex(s).value, v);
  }

  /** A factor written after a term multiplies it. */
  lemma Juxtaposed(env: Env, s: string, a: int, f: string, v: int)
    requires TermText(env, s, a) && FactorText(env, f, v) && Separate(s, f)
    ensures TermText(env, s + f, a * v)
  {
    LexConcat(s, f);
    JuxtaposedTokens(env, Lex(s).value, a, Lex(f).value, v);
  }

  /** An operator with the blanks around it. */
  function Symbol(t: Token): string
    requires t == Plus || t == Minus || t == Star
  {
    if t == Plus then " + " else if t == Minus then " - " else " * "
  }

  lemma LexSymbol(t: Token)
    requires t == Plus || t == Minus || t == Star
    ensures Lex(Symbol(t)) == Some([t])
  {
    var c := Symbol(t)[1];
    LexSymbolChar(c, t);
    assert Lex("") == Some([]);
    assert " "[1..] == "" && Lex(" ") == Lex("");
    LexConcat([c], " ");
    assert Symbol(t)[1..] == [c] + " ";
  }

  lemma LexJoined(s: string, t: Token, f: string)
    requires t == Plus || t == Minus || t == Star
    requires Lex(s).Some? && Lex(f).Some?
    ensures Lex(s + Symbol(t) + f) == Some(Lex(s).value + [t] + Lex(f).value)
  {
    LexSymbol(t);
    LexConcat(s, Symbol(t));
    LexConcat(s + Symbol(t), f);
  }

  lemma TimesFactor(env: Env, s: string, v: int, f: string, w: int)
    requires TermText(env, s, v) && FactorText(env, f, w)
    ensures TermText(env, s + Symbol(Star) + f, v * w)
  {
    LexJoined(s, Star, f);
    TimesTokens(env, Lex(s).value, v, Lex(f).value, w);
  }

  lemma PlusTerm(env: Env, s: string, v: int, t: Token, f: string, w: int)
    requires t == Plus || t == Minus
    requires SumText(env, s, v) && TermText(env, f, w)
    ensures SumText(env, s + Symbol(t) + f, if t == Plus then v + w else v - w)
  {
    LexJoined(s, t, f);
    PlusTokens(env, Lex(s).value, v, t, Lex(f).value, w);
  }

  /** A leading minus negates the first term only. */
  lemma LeadingMinus(env: Env, f: string, w: int)
    requires TermText(env, f, w)
    ensures SumText(env, "-" + f, -w)
  {
    LexSymbolChar('-', Minus);
    LexConcat("-", f);
    MinusTokens(env, Lex(f).value, w);
  }
}
