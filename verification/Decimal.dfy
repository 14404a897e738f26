/** Whole numbers in decimal, as a template literal prints them. */
module Decimal {
  import opened Text
  import opened Wrappers

  predicate IsDigit(u: Unit) {
    0x30 <= u <= 0x39
  }

  ghost predicate AllDigits(s: seq<Unit>) {
    forall i :: 0 <= i < |s| ==> IsDigit(s[i])
  }

  function Digits(n: nat): (s: seq<Unit>)
    ensures s != [] && AllDigits(s)
  {
    if n < 10 then [0x30 + n] else Digits(n / 10) + [0x30 + n % 10]
  }

  /** The number that a run of digits writes. */
  function Value(s: seq<Unit>): nat
    requires AllDigits(s)
  {
    if s == [] then 0 else Value(s[..|s| - 1]) * 10 + (s[|s| - 1] - 0x30)
  }

  lemma {:induction false} ValueOfDigits(n: nat)
    ensures Value(Digits(n)) == n
  {
    if n >= 10 {
      ValueOfDigits(n / 10);
      assert Digits(n)[..|Digits(n)| - 1] == Digits(n / 10);
    }
  }

  lemma DigitsInjective(a: nat, b: nat)
    requires Digits(a) == Digits(b)
    ensures a == b
  {
    ValueOfDigits(a);
    ValueOfDigits(b);
  }

  /** How many digits text begins with. */
  function DigitRun(s: seq<Unit>): (n: nat)
    ensures n <= |s|
  {
    if s == [] || !IsDigit(s[0]) then 0 else 1 + DigitRun(s[1..])
  }

  /** A number of `places` places or fewer. */
  lemma {:induction false} DigitsLength(n: nat, places: nat)
    requires places > 0 && n < Power10(places)
    ensures |Digits(n)| <= places
    decreases places
  {
    if n >= 10 {
      assert places > 1;
      DigitsLength(n / 10, places - 1);
    }
  }

  function Power10(n: nat): (p: nat)
    ensures p > 0
  {
    if n == 0 then 1 else 10 * Power10(n - 1)
  }

  /** `-7` as well as `7`. */
  function Printed(n: int): seq<Unit> {
    if n < 0 then [0x2D] + Digits(-n) else Digits(n)
  }

  /** A negative number begins with a minus sign, and no other does. */
  lemma PrintedIs(n: int)
    ensures n >= 0 ==> Printed(n) == Digits(n)
    ensures n < 0 ==> Printed(n) == ['-' as int] + Digits(-n)
  {
  }

  /** Reads what was printed. */
  function Read(s: seq<Unit>): Option<int> {
    if s == [] then None
    else
      var digits := if s[0] == 0x2D then s[1..] else s;
      if DigitRun(digits) < |digits| then None
      else
        DigitRunAll(digits);
        Some(if s[0] == 0x2D then -(Value(digits) as int) else Value(digits))
  }

  lemma {:induction false} DigitRunAll(s: seq<Unit>)
    ensures DigitRun(s) == |s| <==> AllDigits(s)
  {
    if s != [] {
      DigitRunAll(s[1..]);
      assert AllDigits(s) <==> IsDigit(s[0]) && AllDigits(s[1..]) by {
        assert s == [s[0]] + s[1..];
      }
    }
  }

  lemma ReadOfPrinted(n: int)
    ensures Read(Printed(n)) == Some(n)
  {
    var m: nat := if n < 0 then -n else n;
    ValueOfDigits(m);
    DigitRunAll(Digits(m));
    assert n < 0 ==> Printed(n)[1..] == Digits(m);
  }
}
