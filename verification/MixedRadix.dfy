/**
  Writing a number as amounts of descending units, each a multiple of the next, with
  nothing written for a zero amount: weeks, days, hours and so on. The units are a
  parameter, so that the arithmetic does not depend on their values.
 */
module MixedRadix {
  import opened Arithmetic

  /** An amount of the unit at position `unit`. */
  datatype Field = Field(amount: nat, unit: nat)

  predicate Positive(units: seq<nat>) {
    forall i :: 0 <= i < |units| ==> units[i] > 0
  }

  /** Each unit is a multiple of the one after it. */
  predicate Descending(units: seq<nat>) {
    Positive(units) && forall i :: 0 < i < |units| ==> units[i - 1] % units[i] == 0
  }

  function WithField(n: nat, i: nat, later: seq<Field>): seq<Field> {
    if n > 0 then [Field(n, i)] + later else later
  }

  /** The non-zero fields of `d` from unit `i` on, largest first. */
  function Split(d: nat, units: seq<nat>, i: nat): seq<Field>
    requires Positive(units) && i <= |units|
    decreases |units| - i, d
  {
    if i == |units| then []
    else WithField(d / units[i], i, Split(d % units[i], units, i + 1))
  }

  predicate Known(fields: seq<Field>, units: seq<nat>) {
    forall k :: 0 <= k < |fields| ==> fields[k].unit < |units|
  }

  function Product(a: nat, b: nat): (p: nat)
    ensures p == a * b
  {
    assert a * b >= 0;
    a * b
  }

  function Total(fields: seq<Field>, units: seq<nat>): nat
    requires Known(fields, units)
  {
    if fields == [] then 0 else Product(fields[0].amount, units[fields[0].unit]) + Total(fields[1..], units)
  }

  /** Every amount is positive and, except for the largest unit, below one of the unit before. */
  predicate Bounded(f: Field, units: seq<nat>) {
    && 0 < f.amount && f.unit < |units|
    && (f.unit > 0 ==> f.amount * units[f.unit] < units[f.unit - 1])
  }

  /** Units in strictly descending order from position `i` on, every amount within its bounds. */
  predicate Canonical(fields: seq<Field>, units: seq<nat>, i: nat) {
    if fields == [] then true
    else i <= fields[0].unit && Bounded(fields[0], units) && Canonical(fields[1..], units, fields[0].unit + 1)
  }

  lemma {:induction false} CanonicalIsKnown(fields: seq<Field>, units: seq<nat>, i: nat)
    requires Canonical(fields, units, i)
    ensures Known(fields, units)
  {
    if fields != [] {
      CanonicalIsKnown(fields[1..], units, fields[0].unit + 1);
      assert fields == [fields[0]] + fields[1..];
    }
  }

  lemma {:induction false} SplitIsKnown(d: nat, units: seq<nat>, i: nat)
    requires Positive(units) && i <= |units|
    ensures Known(Split(d, units, i), units)
    decreases |units| - i
  {
    if i < |units| {
      SplitIsKnown(d % units[i], units, i + 1);
    }
  }

  lemma TotalWithField(n: nat, i: nat, later: seq<Field>, units: seq<nat>)
    requires i < |units| && Known(later, units)
    ensures Known(WithField(n, i, later), units)
    ensures Total(WithField(n, i, later), units) == Product(n, units[i]) + Total(later, units)
  {
    if n > 0 {
      assert ([Field(n, i)] + later)[1..] == later;
    }
  }

  lemma SameRemainder(d: nat, n: nat, r: nat, unit: nat, base: nat)
    requires base > 0 && unit % base == 0 && d == n * unit + r
    ensures d % base == r % base
  {
    var q := unit / base;
    DivMod(unit, base);
    assert n * unit == n * q * base by {
      assert unit == q * base;
    }
    AddMultiple(r, Product(n, q), base);
  }

  lemma MultipleOfMultiple(a: nat, b: nat, c: nat)
    requires b > 0 && c > 0 && a % b == 0 && b % c == 0
    ensures a % c == 0
  {
    DivMod(a, b);
    SameRemainder(a, a / b, 0, b, c);
  }

  lemma {:induction false} UnitIsWhole(units: seq<nat>, i: nat)
    requires Descending(units) && i < |units|
    ensures units[i] % units[|units| - 1] == 0
    decreases |units| - i
  {
    if i < |units| - 1 {
      UnitIsWhole(units, i + 1);
      assert units[i + 1 - 1] % units[i + 1] == 0;
      MultipleOfMultiple(units[i], units[i + 1], units[|units| - 1]);
    }
  }

  /** `d` without what is below `base`. */
  function Rounded(d: nat, base: nat): (r: nat)
    requires base > 0
    ensures r <= d && r == d - d % base
  {
    DivMod(d, base);
    d - d % base
  }

  /** Splitting loses only what is below the last unit. */
  lemma {:induction false} SplitTotal(d: nat, units: seq<nat>, i: nat, base: nat)
    requires Descending(units) && i <= |units| && units != [] && base == units[|units| - 1]
    requires i == |units| ==> d < base
    ensures Known(Split(d, units, i), units)
    ensures Total(Split(d, units, i), units) == Rounded(d, base)
    decreases |units| - i, 1
  {
    if i < |units| {
      DivMod(d, units[i]);
      SplitTotalFrom(d, d / units[i], d % units[i], units, i, base);
    }
  }

  lemma {:induction false} SplitTotalFrom(d: nat, n: nat, r: nat, units: seq<nat>, i: nat, base: nat)
    requires Descending(units) && i < |units| && base == units[|units| - 1]
    requires d == Product(n, units[i]) + r && r < units[i]
    ensures Known(WithField(n, i, Split(r, units, i + 1)), units)
    ensures Total(WithField(n, i, Split(r, units, i + 1)), units) == Rounded(d, base)
    decreases |units| - i, 0
  {
    SplitTotal(r, units, i + 1, base);
    TotalWithField(n, i, Split(r, units, i + 1), units);
    UnitIsWhole(units, i);
    SameRemainder(d, n, r, units[i], base);
  }

  /** Below a multiple of the unit by less than one unit is below it altogether. */
  lemma RoomForRest(n: nat, unit: nat, below: nat, next: nat)
    requires unit > 0 && next % unit == 0 && n * unit < next && below < unit
    ensures n * unit + below < next
  {
    DivMod(next, unit);
    if n >= next / unit {
      MulMonotone(next / unit, n, unit);
      assert false;
    }
    MulMonotone(n + 1, next / unit, unit);
    assert (n + 1) * unit == n * unit + unit;
  }

  lemma {:induction false} CanonicalBound(fields: seq<Field>, units: seq<nat>, i: nat)
    requires Descending(units) && 0 < i <= |units| && Canonical(fields, units, i)
    ensures Known(fields, units)
    ensures Total(fields, units) < units[i - 1]
  {
    CanonicalIsKnown(fields, units, i);
    if fields != [] {
      var u := fields[0].unit;
      CanonicalBound(fields[1..], units, u + 1);
      RoomForRest(fields[0].amount, units[u], Total(fields[1..], units), units[u - 1]);
      UnitsShrink(units, i - 1, u - 1);
    }
  }

  lemma {:induction false} UnitsShrink(units: seq<nat>, i: nat, j: nat)
    requires Descending(units) && i <= j < |units|
    ensures units[j] <= units[i]
    decreases j - i
  {
    if i < j {
      UnitsShrink(units, i + 1, j);
      assert units[i + 1 - 1] % units[i + 1] == 0;
      DivMod(units[i], units[i + 1]);
      MulMonotone(1, units[i] / units[i + 1], units[i + 1]);
    }
  }

  lemma {:induction false} CanonicalFromLater(fields: seq<Field>, units: seq<nat>, i: nat)
    requires Canonical(fields, units, i + 1)
    ensures Canonical(fields, units, i)
  {
  }

  lemma CanonicalWithField(n: nat, i: nat, later: seq<Field>, units: seq<nat>)
    requires i < |units| && Canonical(later, units, i + 1)
    requires i > 0 ==> n * units[i] < units[i - 1]
    ensures Canonical(WithField(n, i, later), units, i)
  {
    if n > 0 {
      assert ([Field(n, i)] + later)[1..] == later;
    } else {
      CanonicalFromLater(later, units, i);
    }
  }

  lemma {:induction false} SplitIsCanonical(d: nat, units: seq<nat>, i: nat)
    requires Positive(units) && i <= |units|
    requires i > 0 ==> d < units[i - 1]
    ensures Canonical(Split(d, units, i), units, i)
    decreases |units| - i
  {
    if i < |units| {
      DivMod(d, units[i]);
      SplitIsCanonical(d % units[i], units, i + 1);
      CanonicalWithField(d / units[i], i, Split(d % units[i], units, i + 1), units);
    }
  }

  lemma SplitOfSum(d: nat, n: nat, t: nat, units: seq<nat>, i: nat, later: seq<Field>)
    requires Positive(units) && i < |units| && t < units[i]
    requires d == Product(n, units[i]) + t && Split(t, units, i + 1) == later
    ensures Split(d, units, i) == WithField(n, i, later)
  {
    DivMod(d, units[i]);
    Unique(d / units[i], d % units[i], n, t, units[i]);
  }

  /** There is only one canonical list of fields with a given total, and `Split` finds it. */
  lemma {:induction false} CanonicalIsUnique(fields: seq<Field>, units: seq<nat>, i: nat)
    requires Descending(units) && i <= |units| && Canonical(fields, units, i)
    ensures Known(fields, units)
    ensures Split(Total(fields, units), units, i) == fields
    decreases |units| - i, 1
  {
    CanonicalIsKnown(fields, units, i);
    if i < |units| {
      if fields != [] && fields[0].unit == i {
        UniqueFrom(fields[0].amount, fields[1..], units, i);
        assert fields == WithField(fields[0].amount, i, fields[1..]);
      } else {
        UniqueFrom(0, fields, units, i);
      }
    }
  }

  lemma {:induction false} UniqueFrom(n: nat, later: seq<Field>, units: seq<nat>, i: nat)
    requires Descending(units) && i < |units| && Canonical(later, units, i + 1)
    ensures Known(WithField(n, i, later), units)
    ensures Split(Total(WithField(n, i, later), units), units, i) == WithField(n, i, later)
    decreases |units| - i, 0
  {
    CanonicalBound(later, units, i + 1);
    CanonicalIsUnique(later, units, i + 1);
    TotalWithField(n, i, later, units);
    SplitOfSum(Total(WithField(n, i, later), units), n, Total(later, units), units, i, later);
  }

  lemma {:induction false} NoFieldsMeansZero(fields: seq<Field>, units: seq<nat>, i: nat)
    requires Positive(units) && Canonical(fields, units, i)
    ensures Known(fields, units)
    ensures fields == [] <==> Total(fields, units) == 0
  {
    CanonicalIsKnown(fields, units, i);
    if fields != [] {
      MulMonotone(1, fields[0].amount, units[fields[0].unit]);
    }
  }

  /** `Split` does not see what is below the last unit, and is empty exactly when there is nothing else. */
  lemma SplitRounds(d: nat, units: seq<nat>, base: nat)
    requires Descending(units) && units != [] && base == units[|units| - 1]
    ensures Split(Rounded(d, base), units, 0) == Split(d, units, 0)
    ensures Split(d, units, 0) == [] <==> d < base
  {
    var fields := Split(d, units, 0);
    SplitIsCanonical(d, units, 0);
    SplitTotal(d, units, 0, base);
    CanonicalIsUnique(fields, units, 0);
    NoFieldsMeansZero(fields, units, 0);
    ZeroRounded(d, base);
  }

  lemma ZeroRounded(d: nat, base: nat)
    requires base > 0
    ensures Rounded(d, base) == 0 <==> d < base
  {
    DivMod(d, base);
  }
}
