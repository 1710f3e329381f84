/** Decimal numerals as Python prints and reads them. */
module Decimal {
  predicate IsDigit(c: char) { '0' <= c <= '9' }

  /** `str(n)` */
  function Digits(n: nat): (s: string)
    ensures s != "" && forall i :: 0 <= i < |s| ==> IsDigit(s[i])
  {
    var last := ['0' + (n % 10) as char];
    if n < 10 then last else Digits(n / 10) + last
  }

  function ReadDigits(s: string): nat
    requires forall i :: 0 <= i < |s| ==> IsDigit(s[i])
  {
    if s == "" then 0
    else
      assert IsDigit(s[|s| - 1]);
      10 * ReadDigits(s[..|s| - 1]) + (s[|s| - 1] as int - '0' as int)
  }

  /** Reading undoes writing. */
  lemma {:induction false} DigitsReadBack(n: nat)
    ensures ReadDigits(Digits(n)) == n
  {
    var s := Digits(n);
    if n >= 10 {
      DigitsReadBack(n / 10);
      assert s[..|s| - 1] == Digits(n / 10);
    } else {
      assert s[..|s| - 1] == "" && ReadDigits("") == 0;
    }
  }

  /** No leading zeros: among all numerals for n the one printed is the one that does not start
      with 0, unless it is "0". */
  lemma {:induction false} DigitsIsTheNumeral(s: string, n: nat)
    requires s != "" && forall i :: 0 <= i < |s| ==> IsDigit(s[i])
    ensures s == Digits(n) <==> ReadDigits(s) == n && (s[0] == '0' ==> |s| == 1)
  {
    DigitsReadBack(n);
    DigitsStart(n);
    if ReadDigits(s) == n && (s[0] == '0' ==> |s| == 1) {
      PrintedFromRead(s);
    }
  }

  lemma {:induction false} DigitsStart(n: nat)
    ensures Digits(n)[0] == '0' ==> n == 0 && |Digits(n)| == 1
  {
    if n >= 10 {
      DigitsStart(n / 10);
      assert Digits(n)[0] == Digits(n / 10)[0];
    }
  }

  lemma {:induction false} PrintedFromRead(s: string)
    requires s != "" && (forall i :: 0 <= i < |s| ==> IsDigit(s[i])) && (s[0] == '0' ==> |s| == 1)
    ensures Digits(ReadDigits(s)) == s
    decreases |s|
  {
    var rest, last := s[..|s| - 1], s[|s| - 1];
    assert IsDigit(last);
    var d := last as int - '0' as int;
    if |s| == 1 {
      assert rest == "" && ReadDigits(s) == d;
    } else {
      assert rest[0] == s[0] != '0';
      PrintedFromRead(rest);
      DigitsStart(ReadDigits(rest));
      PositiveIfNoZero(rest);
      assert ReadDigits(s) == 10 * ReadDigits(rest) + d;
    }
    assert s == rest + [last];
  }

  /** A numeral that does not start with 0 is not zero. */
  lemma {:induction false} PositiveIfNoZero(s: string)
    requires s != "" && (forall i :: 0 <= i < |s| ==> IsDigit(s[i])) && s[0] != '0'
    ensures ReadDigits(s) > 0
    decreases |s|
  {
    assert IsDigit(s[|s| - 1]) && IsDigit(s[0]);
    if |s| > 1 {
      PositiveIfNoZero(s[..|s| - 1]);
    }
  }
}
