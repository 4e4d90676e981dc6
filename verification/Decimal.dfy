/** fmt.Sprint on Go integers, used for change-log keys and for generated variable names. */
module Decimal {
  function Digit(d: nat): char
    requires d < 10
  {
    ['0', '1', '2', '3', '4', '5', '6', '7', '8', '9'][d]
  }

  function Digits(n: nat): (s: string)
    ensures |s| > 0 && forall i | 0 <= i < |s| :: '0' <= s[i] <= '9'
  {
    if n < 10 then [Digit(n)] else Digits(n / 10) + [Digit(n % 10)]
  }

  function Sprint(i: int): string {
    if i < 0 then "-" + Digits(-i) else Digits(i)
  }

  lemma DigitInjective(a: nat, b: nat)
    requires a < 10 && b < 10 && Digit(a) == Digit(b)
    ensures a == b
  {
  }

  lemma {:induction false} DigitsInjective(a: nat, b: nat)
    requires Digits(a) == Digits(b)
    ensures a == b
    decreases a
  {
    var s, t := Digits(a), Digits(b);
    assert s[|s| - 1] == Digit(a % 10) && t[|t| - 1] == Digit(b % 10);
    DigitInjective(a % 10, b % 10);
    if a >= 10 && b >= 10 {
      assert s[..|s| - 1] == Digits(a / 10) && t[..|t| - 1] == Digits(b / 10);
      DigitsInjective(a / 10, b / 10);
    } else {
      assert |s| == |t|;
      assert a < 10 <==> |s| == 1;
      assert b < 10 <==> |t| == 1;
    }
  }

  /** Distinct integers print differently, so printed keys identify their entries. */
  lemma SprintInjective(a: int, b: int)
    requires Sprint(a) == Sprint(b)
    ensures a == b
  {
    assert Sprint(a)[0] == '-' <==> a < 0;
    assert Sprint(b)[0] == '-' <==> b < 0;
    if a < 0 {
      assert Sprint(a)[1..] == Digits(-a) && Sprint(b)[1..] == Digits(-b);
      DigitsInjective(-a, -b);
    } else {
      DigitsInjective(a, b);
    }
  }

  lemma SprintDistinct()
    ensures forall a: int, b: int {:trigger Sprint(a), Sprint(b)} :: Sprint(a) == Sprint(b) ==> a == b
  {
    forall a: int, b: int | Sprint(a) == Sprint(b)
      ensures a == b
    {
      SprintInjective(a, b);
    }
  }

  // ---------- What the digits mean ----------

  function Worth(c: char): int {
    c as int - '0' as int
  }

  function Value(s: string): int {
    if s == "" then 0 else 10 * Value(s[..|s| - 1]) + Worth(s[|s| - 1])
  }

  /** The text reads as the number, and has no leading zero. */
  lemma {:induction false} DigitsRead(n: nat)
    ensures Value(Digits(n)) == n
    ensures Digits(n)[0] == '0' ==> n == 0
    decreases n
  {
    var s := Digits(n);
    if n < 10 {
      assert s[..0] == "";
    } else {
      DigitsRead(n / 10);
      assert s[..|s| - 1] == Digits(n / 10);
    }
  }

  /** So does the text of a negative number after its sign. */
  lemma SprintReads(i: int)
    ensures i >= 0 ==> Value(Sprint(i)) == i
    ensures i < 0 ==> Sprint(i)[0] == '-' && Value(Sprint(i)[1..]) == -i
  {
    DigitsRead(if i < 0 then -i else i);
  }
}
