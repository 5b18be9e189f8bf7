/**
  Amounts with dots between groups of three digits: formatRupiah (job/notify_helpers.go),
  used in messages, and rupiah (api/handler/payments.go), used in responses.
 */
module Rupiah {
  import opened Decimal
  import opened Int64
  import opened Sequences

  /** strconv.FormatInt in base ten. */
  function SignedDigits(n: int): (s: string)
    ensures s != ""
  {
    if n < 0 then "-" + Digits(-n) else Digits(n)
  }

  /** Groups of three characters from the right, separated by dots. */
  function Grouped(s: string): (t: string)
    ensures |t| >= |s|
  {
    if |s| <= 3 then s else Grouped(s[..|s| - 3]) + "." + s[|s| - 3..]
  }

  /**
    What the loop has written after the characters of `s`, when the number of those still
    to come is `k` modulo three: a dot goes before a character that has `k` == 2 after it.
   */
  function Written(s: string, k: nat): string
    requires k < 3
    decreases |s|
  {
    if s == "" then ""
    else
      var front, c := s[..|s| - 1], s[|s| - 1];
      Written(front, Next(k)) + Piece(front, c, k)
  }

  function Next(k: nat): nat
    requires k < 3
  {
    if k == 2 then 0 else k + 1
  }

  function Piece(front: string, c: char, k: nat): string {
    if k == 2 && front != "" then ['.', c] else [c]
  }

  lemma Appended(s: string, c: char, k: nat)
    requires k < 3
    ensures Written(s + [c], k) == Written(s, Next(k)) + Piece(s, c, k)
  {
    assert (s + [c])[..|s|] == s;
  }

  lemma LastThree(s: string, a: char, b: char, c: char)
    ensures Written(s + [a] + [b] + [c], 0) == Written(s, 0) + Piece(s, a, 2) + [b] + [c]
  {
    Appended(s + [a] + [b], c, 0);
    Appended(s + [a], b, 1);
    Appended(s, a, 2);
  }

  lemma LastGroup(s: string, front: string, back: string)
    requires front != "" && |back| == 3 && s == front + back
    ensures Written(s, 0) == Written(front, 0) + "." + back
  {
    LastThree(front, back[0], back[1], back[2]);
    assert s == front + [back[0]] + [back[1]] + [back[2]];
    ThreeMore(Written(s, 0), Written(front, 0), back[0], back[1], back[2], back);
  }

  lemma GroupedUnfolds(s: string)
    requires |s| > 3
    ensures Grouped(s) == Grouped(s[..|s| - 3]) + "." + s[|s| - 3..]
  {
  }

  /** The loop from the left, which counts what is still to come, groups from the right. */
  lemma {:induction false} WrittenIsGrouped(s: string)
    ensures Written(s, 0) == Grouped(s)
  {
    if |s| <= 3 {
      WrittenShort(s);
    } else {
      LastGroup(s, s[..|s| - 3], s[|s| - 3..]);
      WrittenIsGrouped(s[..|s| - 3]);
      GroupedUnfolds(s);
    }
  }

  lemma WrittenShort(s: string)
    requires |s| <= 3
    ensures Written(s, 0) == s
  {
    if |s| == 1 {
      OneCharacter(s, 0);
    } else if |s| == 2 {
      TwoCharacters(s, 0);
    } else if |s| == 3 {
      ThreeCharacters(s);
    }
  }

  lemma OneCharacter(s: string, k: nat)
    requires |s| == 1 && k < 3
    ensures Written(s, k) == s
  {
    Appended("", s[0], k);
    assert s == "" + [s[0]];
  }

  lemma TwoCharacters(s: string, k: nat)
    requires |s| == 2 && k < 2
    ensures Written(s, k) == s
  {
    OneCharacter(s[..1], k + 1);
    Appended(s[..1], s[1], k);
    assert s == s[..1] + [s[1]];
  }

  lemma ThreeCharacters(s: string)
    requires |s| == 3
    ensures Written(s, 0) == s
  {
    TwoCharacters(s[..2], 1);
    Appended(s[..2], s[2], 0);
    assert s == s[..2] + [s[2]];
  }

  lemma ThreeMore(t: string, w: string, a: char, b: char, c: char, abc: string)
    requires abc == [a, b, c] && t == w + ['.', a] + [b] + [c]
    ensures t == w + "." + abc
  {
  }

  /** The loop both functions share. */
  method Group(s: string) returns (out: string)
    ensures out == Grouped(s)
  {
    out := "";
    for i := 0 to |s|
      invariant out == Written(s[..i], (|s| - i) % 3)
    {
      NextRound(s, i);
      if i > 0 && (|s| - i) % 3 == 0 {
        out := out + ['.', s[i]];
      } else {
        out := out + [s[i]];
      }
    }
    LastRound(s);
  }

  lemma LastRound(s: string)
    ensures Written(s[..|s|], (|s| - |s|) % 3) == Grouped(s)
  {
    assert s[..|s|] == s;
    WrittenIsGrouped(s);
  }

  lemma NextRound(s: string, i: nat)
    requires i < |s|
    ensures Written(s[..i + 1], (|s| - (i + 1)) % 3)
         == Written(s[..i], (|s| - i) % 3) + if i > 0 && (|s| - i) % 3 == 0 then ['.', s[i]] else [s[i]]
  {
    NextIsModulo(|s| - (i + 1));
    assert s[..i + 1] == s[..i] + [s[i]];
    Appended(s[..i], s[i], (|s| - (i + 1)) % 3);
  }

  lemma NextIsModulo(left: nat)
    ensures Next(left % 3) == (left + 1) % 3
    ensures left % 3 == 2 <==> (left + 1) % 3 == 0
  {
  }

  function Formatted(n: Int64): string {
    if n < 0 then "-" + Grouped(SignedDigits(Negate(n))) else Grouped(SignedDigits(n))
  }

  method FormatRupiah(amount: Int64) returns (s: string)
    ensures s == Formatted(amount)
  {
    var n := amount;
    var neg := n < 0;
    if neg {
      n := Negate(n);
    }
    s := Group(SignedDigits(n));
    if neg {
      s := "-" + s;
    }
  }

  method HandlerRupiah(amount: Int64) returns (t: string)
    ensures t == "Rp " + Grouped(SignedDigits(amount))
  {
    var s := SignedDigits(amount);
    if |s| <= 3 {
      return "Rp " + s;
    }
    var out := Group(s);
    t := "Rp " + out;
  }

  // ---------------------------------------------------------------- what the result looks like

  /** One to three digits, then groups of exactly three after dots. */
  predicate WellGrouped(t: string) {
    if |t| <= 3 then t != "" && AllDigits(t)
    else t[|t| - 4] == '.' && AllDigits(t[|t| - 3..]) && WellGrouped(t[..|t| - 4])
  }

  lemma {:induction false} GroupedIsWellGrouped(s: string)
    requires s != "" && AllDigits(s)
    ensures WellGrouped(Grouped(s))
  {
    if |s| > 3 {
      GroupedIsWellGrouped(s[..|s| - 3]);
      GroupedUnfolds(s);
      MoreGroups(Grouped(s), Grouped(s[..|s| - 3]), s[|s| - 3..]);
    }
  }

  lemma MoreGroups(t: string, front: string, back: string)
    requires WellGrouped(front) && |back| == 3 && AllDigits(back) && t == front + "." + back
    ensures WellGrouped(t)
  {
    assert t[..|t| - 4] == front && t[|t| - 3..] == back;
  }

  lemma {:induction false} DotsVanish(a: string, b: string)
    ensures WithoutDots(a + b) == WithoutDots(a) + WithoutDots(b)
  {
    if a == "" {
      assert a + b == b;
    } else {
      DotsVanish(a[1..], b);
      assert (a + b)[1..] == a[1..] + b;
      Associative([a[0]], WithoutDots(a[1..]), WithoutDots(b));
    }
  }

  lemma {:induction false} NoDots(s: string)
    requires '.' !in s
    ensures WithoutDots(s) == s
  {
    if s != "" {
      NoDots(s[1..]);
    }
  }

  lemma {:induction false} GroupedKeepsCharacters(s: string)
    requires '.' !in s
    ensures WithoutDots(Grouped(s)) == s
  {
    if |s| <= 3 {
      NoDots(s);
    } else {
      var front, back := s[..|s| - 3], s[|s| - 3..];
      GroupedKeepsCharacters(front);
      WithoutLastDot(Grouped(front), back);
      assert s == front + back;
    }
  }

  lemma WithoutLastDot(front: string, back: string)
    requires '.' !in back
    ensures WithoutDots(front + "." + back) == WithoutDots(front) + back
  {
    var dot := ".";
    assert WithoutDots(dot) == "";
    DotsVanish(front, dot);
    RightUnit(WithoutDots(front));
    DotsVanish(front + dot, back);
    NoDots(back);
  }

  /** There is only one way to group given digits. */
  lemma {:induction false} GroupingIsUnique(t: string)
    requires WellGrouped(t)
    ensures Grouped(WithoutDots(t)) == t
  {
    if |t| <= 3 {
      NoDots(t);
    } else {
      var front, back := t[..|t| - 4], t[|t| - 3..];
      assert t == front + "." + back;
      GroupingIsUnique(front);
      WellGroupedHasDigits(front);
      WithoutLastDot(front, back);
      GroupedAgain(WithoutDots(front), back);
    }
  }

  lemma GroupedAgain(front: string, back: string)
    requires front != "" && |back| == 3
    ensures Grouped(front + back) == Grouped(front) + "." + back
  {
    var s := front + back;
    assert s[..|s| - 3] == front && s[|s| - 3..] == back;
  }

  lemma {:induction false} WellGroupedHasDigits(t: string)
    requires WellGrouped(t)
    ensures WithoutDots(t) != ""
  {
    assert t[0] != '.' by {
      StartsWithDigit(t);
    }
  }

  lemma {:induction false} StartsWithDigit(t: string)
    requires WellGrouped(t)
    ensures IsDigit(t[0])
  {
    if |t| > 3 {
      StartsWithDigit(t[..|t| - 4]);
    }
  }

  lemma DigitsHaveNoDot(n: int)
    ensures '.' !in SignedDigits(n)
  {
  }

  /**
    Taking the dots out gives the decimal numeral of the amount for every amount except the
    minimum, which is written with two minus signs.
   */
  lemma FormatRoundTrip(n: Int64)
    ensures WithoutDots(Formatted(n)) == SignedDigits(n) <==> n != MIN_INT64
  {
    var m := if n < 0 then Negate(n) else n;
    DigitsHaveNoDot(m);
    GroupedKeepsCharacters(SignedDigits(m));
    DotsVanish("-", Grouped(SignedDigits(m)));
    assert WithoutDots("-") == "-";
  }

  /** Except for the minimum, an amount is an optional minus and the only grouping of its digits. */
  lemma FormatIsGrouped(n: Int64, t: string)
    requires n != MIN_INT64
    ensures var digits := Formatted(n)[if n < 0 then 1 else 0..];
            && Formatted(n) == (if n < 0 then "-" else "") + digits
            && WellGrouped(digits)
            && (WellGrouped(t) && WithoutDots(t) == WithoutDots(digits) ==> t == digits)
  {
    var m: nat := if n < 0 then -n else n;
    GroupedIsWellGrouped(Digits(m));
    var digits := Formatted(n)[if n < 0 then 1 else 0..];
    assert digits == Grouped(Digits(m));
    GroupingIsUnique(digits);
    if WellGrouped(t) {
      GroupingIsUnique(t);
    }
  }

  // ---------------------------------------------------------------- the two functions compared

  /** Grouping a negative numeral counts the sign in: a full first group is cut off from it by a dot. */
  lemma {:induction false} GroupedMinus(s: string)
    requires s != ""
    ensures Grouped("-" + s) == (if |s| % 3 == 0 then "-." else "-") + Grouped(s)
  {
    if |s| == 3 {
      GroupedAgain("-", s);
    } else if |s| > 3 {
      var front, back := s[..|s| - 3], s[|s| - 3..];
      var minus := if |s| % 3 == 0 then "-." else "-";
      GroupedMinus(front);
      assert front + back == s;
      MinusStep(minus, front, back);
    }
  }

  lemma MinusStep(minus: string, front: string, back: string)
    requires front != "" && |back| == 3 && Grouped("-" + front) == minus + Grouped(front)
    ensures Grouped("-" + (front + back)) == minus + Grouped(front + back)
  {
    GroupedAgain(front, back);
    Associative("-", front, back);
    GroupedAgain("-" + front, back);
    Associative(minus, Grouped(front), ".");
    Associative(minus, Grouped(front) + ".", back);
  }

  /**
    The handler's text is "Rp " and the message's text exactly for amounts that are not
    negative, or are negative, above the minimum, with a digit count that three does not divide:
    -100 becomes "Rp -.100".
   */
  lemma HandlerAgrees(n: Int64)
    ensures "Rp " + Grouped(SignedDigits(n)) == "Rp " + Formatted(n)
       <==> n >= 0 || (n != MIN_INT64 && |Digits(-(n as int))| % 3 != 0)
  {
    SamePrefix("Rp ", Grouped(SignedDigits(n)), Formatted(n));
    if n < 0 {
      GroupedMinus(Digits(-(n as int)));
    }
  }

  /** For one, minus one hundred. */
  lemma MinusOneHundred()
    ensures Grouped(SignedDigits(-100)) == "-.100" && Formatted(-100) == "-100"
  {
    assert Digits(100) == Digits(10) + ['0'] && Digits(10) == Digits(1) + ['0'] && Digits(1) == "1";
    GroupedMinus("100");
  }

  lemma SamePrefix(p: string, a: string, b: string)
    ensures p + a == p + b <==> a == b
  {
    assert (p + a)[|p|..] == a && (p + b)[|p|..] == b;
  }
}
