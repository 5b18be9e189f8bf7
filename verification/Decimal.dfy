/** Decimal numerals: what `%d` and strconv write, and what reading them back gives. */
module Decimal {
  predicate IsDigit(c: char) {
    '0' <= c <= '9'
  }

  predicate AllDigits(s: string) {
    forall i :: 0 <= i < |s| ==> IsDigit(s[i])
  }

  function Digit(n: nat): (c: char)
    requires n < 10
    ensures IsDigit(c)
  {
    '0' + n as char
  }

  /** The decimal numeral of `n`, without leading zeros. */
  function Digits(n: nat): (s: string)
    ensures s != "" && AllDigits(s)
  {
    if n < 10 then [Digit(n)] else Digits(n / 10) + [Digit(n % 10)]
  }

  function Value(s: string): nat
    requires AllDigits(s)
  {
    if s == "" then 0 else Value(s[..|s| - 1]) * 10 + (s[|s| - 1] - '0') as nat
  }

  lemma {:induction false} ValueOfDigits(n: nat)
    ensures Value(Digits(n)) == n
  {
    if n >= 10 {
      ValueOfDigits(n / 10);
      assert Digits(n)[..|Digits(n)| - 1] == Digits(n / 10);
    } else {
      assert Digits(n)[..0] == "";
    }
  }

  function Zeros(k: nat): (s: string)
    ensures AllDigits(s)
  {
    if k == 0 then "" else Zeros(k - 1) + ['0']
  }

  /** A decimal numeral of `n`, leading zeros allowed. */
  ghost predicate IsNumeral(s: string, n: nat) {
    exists k: nat :: s == Zeros(k) + Digits(n)
  }

  lemma ValueAppend(s: string, c: char)
    requires AllDigits(s) && IsDigit(c)
    ensures AllDigits(s + [c]) && Value(s + [c]) == Value(s) * 10 + (c - '0') as nat
  {
    assert (s + [c])[..|s|] == s;
  }

  lemma {:induction false} ValueOfZeros(k: nat, n: nat)
    ensures Value(Zeros(k) + Digits(n)) == n
    decreases n, k
  {
    if n >= 10 {
      ValueOfZeros(k, n / 10);
      assert Zeros(k) + Digits(n) == Zeros(k) + Digits(n / 10) + [Digit(n % 10)];
      ValueAppend(Zeros(k) + Digits(n / 10), Digit(n % 10));
    } else {
      ZerosAreZero(k);
      ValueAppend(Zeros(k), Digit(n));
    }
  }

  lemma {:induction false} ZerosAreZero(k: nat)
    ensures Value(Zeros(k)) == 0
  {
    if k > 0 {
      ZerosAreZero(k - 1);
      ValueAppend(Zeros(k - 1), '0');
    }
  }

  lemma OneMoreDigit(front: string, n: nat, d: nat)
    requires IsNumeral(front, n) && d < 10
    ensures IsNumeral(front + [Digit(d)], n * 10 + d)
  {
    var k: nat :| front == Zeros(k) + Digits(n);
    if n == 0 {
      assert Digits(0) == "0" && Zeros(k + 1) == Zeros(k) + ['0'];
      assert front + [Digit(d)] == Zeros(k + 1) + Digits(d);
    } else {
      assert Digits(n * 10 + d) == Digits(n) + [Digit(d)];
      assert front + [Digit(d)] == Zeros(k) + Digits(n * 10 + d);
    }
  }

  /** A non-empty string of digits is a numeral of its value. */
  lemma {:induction false} DigitsAreNumeral(s: string)
    requires s != "" && AllDigits(s)
    ensures IsNumeral(s, Value(s))
  {
    var front, c := s[..|s| - 1], s[|s| - 1];
    assert s == front + [c];
    ValueAppend(front, c);
    var d := (c - '0') as nat;
    assert Digit(d) == c;
    if front == "" {
      assert s == Zeros(0) + Digits(d);
    } else {
      DigitsAreNumeral(front);
      OneMoreDigit(front, Value(front), d);
    }
  }

  /** A string is a numeral of n exactly when it is made of digits and has that value. */
  lemma ValueIsNumeral(s: string, n: nat)
    ensures IsNumeral(s, n) <==> s != "" && AllDigits(s) && Value(s) == n
  {
    if IsNumeral(s, n) {
      var k: nat :| s == Zeros(k) + Digits(n);
      ValueOfZeros(k, n);
    } else if s != "" && AllDigits(s) {
      DigitsAreNumeral(s);
    }
  }

  function WithoutDots(s: string): (t: string)
    ensures |t| <= |s|
  {
    if s == "" then "" else if s[0] == '.' then WithoutDots(s[1..]) else [s[0]] + WithoutDots(s[1..])
  }
}
