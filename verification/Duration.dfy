// RouterOS durations (internal/rosfmt/duration.go): "1w2d3h4m5s", "30d", "3600".
module Duration {
  import opened Arithmetic
  import opened Decimal
  import opened Int64
  import opened MixedRadix
  import opened Sequences
  import opened Wrappers

  datatype Error = Empty | BadDuration | BadNumber(text: string) | UnknownUnit(unit: string)

  const MILLISECOND: nat := 1_000_000
  const SECOND: nat := 1_000_000_000

  // ---------------------------------------------------------------- numbers and units

  /** A decimal number: `digits` divided by 10^`places`. */
  datatype Numeral = Numeral(digits: nat, places: nat)

  function DotAt(s: string): (i: nat)
    ensures i <= |s|
  {
    if s == "" || s[0] == '.' then 0 else 1 + DotAt(s[1..])
  }

  /** strconv.ParseFloat on digits with at most one dot. */
  function ParseNumeral(s: string): Option<Numeral> {
    var digits := WithoutDots(s);
    if digits == "" || !AllDigits(digits) || |s| - |digits| > 1 then None
    else Some(Numeral(Value(digits), PlacesIn(s)))
  }

  /** How many digits follow the dot, if there is one. */
  function PlacesIn(s: string): nat {
    if DotAt(s) < |s| then |s| - 1 - DotAt(s) else 0
  }

  /** `time.Duration(num * float64(unit))`, which truncates to whole nanoseconds. */
  function Amount(num: Numeral, unit: nat): nat {
    DropDigits(Product(num.digits, unit), num.places)
  }

  /** `n` divided by 10^`places`, rounded down. */
  function DropDigits(n: nat, places: nat): nat
    decreases places
  {
    if places == 0 then n else DropDigits(n / 10, places - 1)
  }

  /** durationUnit, in nanoseconds. */
  function DurationUnit(unit: string): Option<nat> {
    if |unit| == 1 then UnitOf(unit[0])
    else if unit == "mo" then Some(30 * 24 * 3600 * SECOND)
    else if unit == "ms" then Some(MILLISECOND)
    else None
  }

  function UnitOf(c: char): Option<nat> {
    match c
    case 'y' => Some(365 * 24 * 3600 * SECOND)
    case 'w' => Some(7 * 24 * 3600 * SECOND)
    case 'd' => Some(24 * 3600 * SECOND)
    case 'h' => Some(3600 * SECOND)
    case 'm' => Some(60 * SECOND)
    case 's' => Some(SECOND)
    case _ => None
  }

  // ---------------------------------------------------------------- parsing

  predicate IsSpace(c: char) {
    c == ' ' || '\t' <= c <= '\r'
  }

  function TrimLeft(s: string): string {
    if s != "" && IsSpace(s[0]) then TrimLeft(s[1..]) else s
  }

  function TrimRight(s: string): string {
    if s != "" && IsSpace(s[|s| - 1]) then TrimRight(s[..|s| - 1]) else s
  }

  function TrimSpace(s: string): string {
    TrimRight(TrimLeft(s))
  }

  predicate IsNumberChar(c: char) {
    IsDigit(c) || c == '.'
  }

  /** unicode.IsLetter, on ASCII. */
  predicate IsLetter(c: char) {
    'a' <= c <= 'z' || 'A' <= c <= 'Z'
  }

  /** The first position from `i` on that is neither a digit nor a dot. */
  function NumberEnd(s: string, i: nat): (j: nat)
    requires i <= |s|
    ensures i <= j <= |s|
    decreases |s| - i
  {
    if i < |s| && IsNumberChar(s[i]) then NumberEnd(s, i + 1) else i
  }

  function LetterEnd(s: string, i: nat): (k: nat)
    requires i <= |s|
    ensures i <= k <= |s|
    decreases |s| - i
  {
    if i < |s| && IsLetter(s[i]) then LetterEnd(s, i + 1) else i
  }

  /** A bare number, read as seconds; the sign is only understood here. */
  function BareSeconds(s: string): Option<int> {
    var signed := s != "" && (s[0] == '+' || s[0] == '-');
    match ParseNumeral(if signed then s[1..] else s)
    case None => None
    case Some(num) => Some(if signed && s[0] == '-' then -(Amount(num, SECOND) as int) else Amount(num, SECOND))
  }

  function Plus(d: int, r: Result<int, Error>): Result<int, Error> {
    if r.Success? then Success(d + r.value) else r
  }

  /** The sum of the fields from `i` on, or what is wrong with the first one that cannot be read. */
  function Fields(s: string, i: nat): Result<int, Error>
    requires i <= |s|
    decreases |s| - i, 1
  {
    if i == |s| then Success(0) else FieldThenFields(s, i)
  }

  function FieldThenFields(s: string, i: nat): Result<int, Error>
    requires i < |s|
    decreases |s| - i, 0
  {
    var j := NumberEnd(s, i);
    var k := LetterEnd(s, j);
    if j == i then Failure(BadDuration)
    else
      match ParseNumeral(s[i..j])
      case None => Failure(BadNumber(s[i..j]))
      case Some(num) =>
        match DurationUnit(s[j..k])
        case None => Failure(UnknownUnit(s[j..k]))
        case Some(unit) => Plus(Amount(num, unit), Fields(s, k))
  }

  function Parsed(s: string): Result<int, Error> {
    var t := TrimSpace(s);
    if t == "" then Failure(Empty)
    else
      match BareSeconds(t)
      case Some(d) => Success(d)
      case None => Fields(t, 0)
  }

  method ParseDuration(s: string) returns (r: Result<int, Error>)
    ensures r == Parsed(s)
  {
    var v := TrimSpace(s);
    if v == "" {
      return Failure(Empty);
    }
    var bare := BareSeconds(v);
    if bare.Some? {
      return Success(bare.value);
    }
    r := ParseFields(v);
  }

  /** The loop of ParseDuration. */
  method ParseFields(v: string) returns (r: Result<int, Error>)
    ensures r == Fields(v, 0)
  {
    var total := 0;
    var i := 0;
    while i < |v|
      invariant 0 <= i <= |v|
      invariant Fields(v, 0) == Plus(total, Fields(v, i))
    {
      var amount, end := ParseField(v, i);
      if amount.Failure? {
        return amount;
      }
      total := total + amount.value;
      i := end;
    }
    r := Success(total);
  }

  /** One round of that loop: what the field at `i` is worth and where it ends. */
  method ParseField(v: string, i: nat) returns (amount: Result<int, Error>, end: nat)
    requires i < |v|
    ensures amount.Success? ==> i < end <= |v| && Fields(v, i) == Plus(amount.value, Fields(v, end))
    ensures amount.Failure? ==> Fields(v, i) == amount
  {
    assert Fields(v, i) == FieldThenFields(v, i);
    var j := i;
    while j < |v| && IsNumberChar(v[j])
      invariant i <= j <= |v|
      invariant NumberEnd(v, i) == NumberEnd(v, j)
    {
      j := j + 1;
    }
    if j == i {
      return Failure(BadDuration), i;
    }
    var num := ParseNumeral(v[i..j]);
    if num.None? {
      return Failure(BadNumber(v[i..j])), i;
    }
    var k := j;
    while k < |v| && IsLetter(v[k])
      invariant j <= k <= |v|
      invariant LetterEnd(v, j) == LetterEnd(v, k)
    {
      k := k + 1;
    }
    var mul := DurationUnit(v[j..k]);
    if mul.None? {
      return Failure(UnknownUnit(v[j..k])), i;
    }
    return Success(Amount(num.value, mul.value)), k;
  }

  // ---------------------------------------------------------------- formatting

  /** Weeks, days, hours, minutes, seconds and milliseconds, in nanoseconds. */
  const LENGTHS: seq<nat> := [604_800 * SECOND, 86_400 * SECOND, 3600 * SECOND, 60 * SECOND, SECOND, MILLISECOND]

  const UNITS: nat := 6

  /** Months and years besides, which are read but never written. */
  const READABLE: seq<nat> := LENGTHS + [30 * 86_400 * SECOND, 365 * 86_400 * SECOND]

  function Suffix(i: nat): (s: string)
    requires i < |READABLE|
    ensures s != ""
  {
    if i == 0 then "w" else if i == 1 then "d" else if i == 2 then "h" else if i == 3 then "m"
    else if i == 4 then "s" else if i == 5 then "ms" else if i == 6 then "mo" else "y"
  }

  /** The eight units, in nanoseconds. */
  lemma EightUnits()
    ensures |READABLE| == 8
    ensures READABLE[0] == 604_800_000_000_000 && Suffix(0) == "w"
    ensures READABLE[1] == 86_400_000_000_000 && Suffix(1) == "d"
    ensures READABLE[2] == 3_600_000_000_000 && Suffix(2) == "h"
    ensures READABLE[3] == 60_000_000_000 && Suffix(3) == "m"
    ensures READABLE[4] == 1_000_000_000 && Suffix(4) == "s"
    ensures READABLE[5] == 1_000_000 && Suffix(5) == "ms"
    ensures READABLE[6] == 2_592_000_000_000_000 && Suffix(6) == "mo"
    ensures READABLE[7] == 31_536_000_000_000_000 && Suffix(7) == "y"
  {
  }

  lemma LengthsDescend()
    ensures |LENGTHS| == UNITS && Descending(LENGTHS) && LENGTHS[UNITS - 1] == MILLISECOND
  {
  }

  lemma UnitsArePositive(unit: nat)
    requires unit < |READABLE|
    ensures READABLE[unit] > 0
  {
    LengthsDescend();
  }

  /** What can be written can be read, and is worth the same. */
  lemma {:induction false} WrittenIsReadable(fields: seq<Field>)
    requires Known(fields, LENGTHS)
    ensures Known(fields, READABLE) && Total(fields, READABLE) == Total(fields, LENGTHS)
  {
    assert |LENGTHS| <= |READABLE|;
    if fields != [] {
      WrittenIsReadable(fields[1..]);
      assert READABLE[fields[0].unit] == LENGTHS[fields[0].unit];
    }
  }

  function Join(fields: seq<Field>): string
    requires Known(fields, READABLE)
  {
    if fields == [] then "" else Digits(fields[0].amount) + Suffix(fields[0].unit) + Join(fields[1..])
  }

  /** What is still to be written when the units before `i` are done. */
  function Remaining(d: nat, i: nat): string
    requires i <= UNITS
  {
    LengthsDescend();
    SplitIsKnown(d, LENGTHS, i);
    WrittenIsReadable(Split(d, LENGTHS, i));
    Join(Split(d, LENGTHS, i))
  }

  function Unsigned(d: nat): string {
    if Remaining(d, 0) == "" then "0s" else Remaining(d, 0)
  }

  function Formatted(d: int): string {
    if d < 0 then "-" + Unsigned(-d) else Unsigned(d)
  }

  function FieldText(n: nat, i: nat): string
    requires i < UNITS
  {
    if n > 0 then Digits(n) + Suffix(i) else ""
  }

  lemma JoinWithField(n: nat, i: nat, later: seq<Field>)
    requires i < UNITS && Known(later, READABLE)
    ensures Known(WithField(n, i, later), READABLE)
    ensures Join(WithField(n, i, later)) == FieldText(n, i) + Join(later)
  {
    if n > 0 {
      assert ([Field(n, i)] + later)[1..] == later;
    }
  }

  lemma RemainingUnfolds(d: nat, i: nat)
    requires i < UNITS
    ensures LENGTHS[i] > 0
    ensures Remaining(d, i) == FieldText(d / LENGTHS[i], i) + Remaining(d % LENGTHS[i], i + 1)
  {
    LengthsDescend();
    SplitIsKnown(d % LENGTHS[i], LENGTHS, i + 1);
    WrittenIsReadable(Split(d % LENGTHS[i], LENGTHS, i + 1));
    JoinWithField(d / LENGTHS[i], i, Split(d % LENGTHS[i], LENGTHS, i + 1));
  }

  lemma NothingRemains(d: nat)
    ensures Remaining(d, UNITS) == ""
    ensures Remaining(0, 0) == ""
  {
    LengthsDescend();
    SplitRounds(0, LENGTHS, MILLISECOND);
  }

  /** Go negates first; for the minimum that is no progress, so it is not a possible argument. */
  method FormatDuration(d: Int64) returns (s: string)
    requires d != MIN_INT64
    ensures s == Formatted(d)
    decreases d < 0
  {
    if d == 0 {
      NothingRemains(0);
      return "0s";
    }
    if d < 0 {
      var t := FormatDuration(Negate(d));
      return "-" + t;
    }
    s := FormatUnits(d);
    if s == "" {
      return "0s";
    }
  }

  /** The loop of FormatDuration and the milliseconds after it. */
  method FormatUnits(d: nat) returns (s: string)
    ensures s == Remaining(d, 0)
  {
    s := "";
    var left: nat := d;
    for i := 0 to 5
      invariant Remaining(d, 0) == s + Remaining(left, i)
    {
      s, left := FormatUnit(left, i, s);
    }
    RemainingUnfolds(left, 5);
    NothingRemains(left % MILLISECOND);
    if left > 0 {
      var ms := left / MILLISECOND;
      if ms > 0 {
        s := s + (Digits(ms) + "ms");
      }
    }
  }

  /** One round of that loop. */
  method FormatUnit(d: nat, i: nat, written: string) returns (s: string, left: nat)
    requires i < 5
    ensures s + Remaining(left, i + 1) == written + Remaining(d, i)
  {
    RemainingUnfolds(d, i);
    var unit := LENGTHS[i];
    var n := d / unit;
    DivMod(d, unit);
    Associative(written, FieldText(n, i), Remaining(d % unit, i + 1));
    s, left := written, d;
    if n > 0 {
      s := s + (Digits(n) + Suffix(i));
      left := d - n * unit;
    }
  }

  function Normalized(v: string): Result<string, Error> {
    match Parsed(v)
    case Success(d) => Success(Formatted(d))
    case Failure(e) => Failure(e)
  }

  method NormalizeDuration(v: string) returns (r: Result<string, Error>)
    requires Parsed(v).Success? ==> MIN_INT64 < Parsed(v).value <= MAX_INT64
    ensures r == Normalized(v)
  {
    var d := ParseDuration(v);
    if d.Failure? {
      return Failure(d.error);
    }
    var s := FormatDuration(d.value);
    r := Success(s);
  }

  // ---------------------------------------------------------------- what can be read

  /** Digits with or without a dot among them. */
  function NumberText(whole: string, dot: bool, fraction: string): string {
    whole + (if dot then "." else "") + fraction
  }

  predicate IsNumber(whole: string, dot: bool, fraction: string) {
    AllDigits(whole) && AllDigits(fraction) && whole + fraction != "" && (!dot ==> fraction == "")
  }

  /** A field as it may be written: a number, fractions included, and one of the eight units. */
  datatype Piece = Piece(whole: string, dot: bool, fraction: string, unit: nat)

  predicate IsPiece(p: Piece) {
    IsNumber(p.whole, p.dot, p.fraction) && p.unit < |READABLE|
  }

  predicate ArePieces(pieces: seq<Piece>) {
    forall k :: 0 <= k < |pieces| ==> IsPiece(pieces[k])
  }

  function PieceText(p: Piece): string
    requires IsPiece(p)
  {
    NumberText(p.whole, p.dot, p.fraction) + Suffix(p.unit)
  }

  function PieceTexts(pieces: seq<Piece>): string
    requires ArePieces(pieces)
  {
    if pieces == [] then "" else PieceText(pieces[0]) + PieceTexts(pieces[1..])
  }

  function Pow10(k: nat): (p: nat)
    ensures p > 0
  {
    if k == 0 then 1 else 10 * Pow10(k - 1)
  }

  /** `q` is the number times the unit, rounded down. */
  predicate IsWorth(q: nat, whole: string, fraction: string, unit: nat)
    requires AllDigits(whole + fraction)
  {
    q * Pow10(|fraction|) <= Product(Value(whole + fraction), unit) < (q + 1) * Pow10(|fraction|)
  }

  function Worth(p: Piece): nat
    requires IsPiece(p)
  {
    Amount(Numeral(Value(p.whole + p.fraction), |p.fraction|), READABLE[p.unit])
  }

  function TotalWorth(pieces: seq<Piece>): nat
    requires ArePieces(pieces)
  {
    if pieces == [] then 0 else Worth(pieces[0]) + TotalWorth(pieces[1..])
  }

  lemma {:induction false} DropDigitsRoundsDown(n: nat, places: nat)
    ensures DropDigits(n, places) * Pow10(places) <= n < (DropDigits(n, places) + 1) * Pow10(places)
    decreases places
  {
    if places > 0 {
      var q, p := DropDigits(n / 10, places - 1), Pow10(places - 1);
      DropDigitsRoundsDown(n / 10, places - 1);
      OneMorePlace(n, q, p);
    }
  }

  lemma OneMorePlace(n: nat, q: nat, p: nat)
    requires q * p <= n / 10 < (q + 1) * p
    ensures q * (10 * p) <= n < (q + 1) * (10 * p)
  {
    assert q * (10 * p) == 10 * (q * p) && (q + 1) * (10 * p) == 10 * ((q + 1) * p);
  }

  /** A piece is worth its number times its unit, rounded down to a nanosecond. */
  lemma WorthRoundsDown(p: Piece)
    requires IsPiece(p)
    ensures IsWorth(Worth(p), p.whole, p.fraction, READABLE[p.unit])
  {
    DropDigitsRoundsDown(Product(Value(p.whole + p.fraction), READABLE[p.unit]), |p.fraction|);
  }

  lemma {:induction false} NoDot(s: string)
    requires AllDigits(s)
    ensures DotAt(s) == |s| && WithoutDots(s) == s
  {
    if s != "" {
      NoDot(s[1..]);
    }
  }

  lemma {:induction false} OneDot(whole: string, fraction: string)
    requires AllDigits(whole) && AllDigits(fraction)
    ensures DotAt(whole + "." + fraction) == |whole|
    ensures WithoutDots(whole + "." + fraction) == whole + fraction
  {
    var s := whole + "." + fraction;
    if whole == "" {
      assert s[1..] == fraction;
      NoDot(fraction);
    } else {
      assert s[1..] == whole[1..] + "." + fraction;
      OneDot(whole[1..], fraction);
      assert [whole[0]] + (whole[1..] + fraction) == whole + fraction;
    }
  }

  lemma NumberIsNumeral(whole: string, dot: bool, fraction: string)
    requires IsNumber(whole, dot, fraction)
    ensures AllDigits(whole + fraction)
    ensures ParseNumeral(NumberText(whole, dot, fraction)) == Some(Numeral(Value(whole + fraction), |fraction|))
  {
    if dot {
      OneDot(whole, fraction);
    } else {
      assert NumberText(whole, dot, fraction) == whole == whole + fraction;
      NoDot(whole);
    }
  }

  lemma {:induction false} OtherCharacters(s: string, k: nat)
    requires k < |s| && !IsNumberChar(s[k])
    ensures !AllDigits(WithoutDots(s))
  {
    var t := WithoutDots(s);
    if k == 0 {
      assert t[0] == s[0];
    } else {
      OtherCharacters(s[1..], k - 1);
      var later := WithoutDots(s[1..]);
      var x :| 0 <= x < |later| && !IsDigit(later[x]);
      assert s[0] == '.' ==> t == later;
      assert s[0] != '.' ==> t[x + 1] == later[x];
    }
  }

  /** Besides one leading sign, a bare number has digits and dots only. */
  lemma NotBare(s: string, k: nat)
    requires k < |s| && !IsNumberChar(s[k]) && (k > 0 || (s[0] != '+' && s[0] != '-'))
    ensures BareSeconds(s) == None
  {
    if s[0] == '+' || s[0] == '-' {
      OtherCharacters(s[1..], k - 1);
    } else {
      OtherCharacters(s, k);
    }
  }

  /** The blanks of ASCII: space, tab, line feed, vertical tab, form feed and carriage return. */
  const BLANKS := " \t\n\U{000B}\U{000C}\r"

  lemma BlanksAreSpaces(c: char)
    ensures IsSpace(c) <==> c in BLANKS
  {
    assert BLANKS[0] == ' ' && BLANKS[1] == '\t' && BLANKS[2] == '\n';
    assert BLANKS[3] == '\U{000B}' && BLANKS[4] == '\U{000C}' && BLANKS[5] == '\r';
  }

  predicate AllSpaces(s: string) {
    forall k :: 0 <= k < |s| ==> s[k] in BLANKS
  }

  lemma {:induction false} SpacesBefore(before: string, t: string)
    requires AllSpaces(before) && (t != "" ==> !IsSpace(t[0]))
    ensures TrimLeft(before + t) == t
  {
    if before == "" {
      assert before + t == t;
    } else {
      BlanksAreSpaces(before[0]);
      assert (before + t)[1..] == before[1..] + t;
      SpacesBefore(before[1..], t);
    }
  }

  lemma {:induction false} SpacesAfter(t: string, after: string)
    requires AllSpaces(after) && (t != "" ==> !IsSpace(t[|t| - 1]))
    ensures TrimRight(t + after) == t
  {
    if after == "" {
      assert t + after == t;
    } else {
      var m := |after| - 1;
      BlanksAreSpaces(after[m]);
      assert (t + after)[..|t| + m] == t + after[..m];
      SpacesAfter(t, after[..m]);
    }
  }

  /** Surrounding spaces do not matter. */
  lemma Padded(before: string, t: string, after: string)
    requires AllSpaces(before) && AllSpaces(after)
    requires t != "" && !IsSpace(t[0]) && !IsSpace(t[|t| - 1])
    ensures TrimSpace(before + t + after) == t
  {
    assert before + t + after == before + (t + after);
    SpacesBefore(before, t + after);
    SpacesAfter(t, after);
  }

  /** What is trimmed off are the spaces at both ends, and nothing else. */
  lemma TrimSplits(s: string) returns (before: string, after: string)
    ensures AllSpaces(before) && AllSpaces(after) && s == before + TrimSpace(s) + after
    ensures var t := TrimSpace(s); t != "" ==> !IsSpace(t[0]) && !IsSpace(t[|t| - 1])
    ensures TrimSpace(s) == "" <==> AllSpaces(s)
  {
    before := LeftSpaces(s);
    after := RightSpaces(TrimLeft(s));
    var t := TrimSpace(s);
    assert s == before + (t + after) == before + t + after;
    assert t != "" ==> s[|before|] == t[0] && TrimLeft(s)[0] == t[0];
  }

  lemma {:induction false} LeftSpaces(s: string) returns (before: string)
    ensures AllSpaces(before) && s == before + TrimLeft(s)
    ensures TrimLeft(s) != "" ==> !IsSpace(TrimLeft(s)[0])
  {
    before := "";
    if s != "" && IsSpace(s[0]) {
      before := LeftSpaces(s[1..]);
      BlanksAreSpaces(s[0]);
      assert [s[0]] + s[1..] == s;
      assert [s[0]] + (before + TrimLeft(s[1..])) == [s[0]] + before + TrimLeft(s[1..]);
      before := [s[0]] + before;
    }
  }

  lemma {:induction false} RightSpaces(s: string) returns (after: string)
    ensures AllSpaces(after) && s == TrimRight(s) + after
    ensures TrimRight(s) != "" ==> !IsSpace(TrimRight(s)[|TrimRight(s)| - 1])
  {
    after := "";
    if s != "" && IsSpace(s[|s| - 1]) {
      var m := |s| - 1;
      after := RightSpaces(s[..m]);
      BlanksAreSpaces(s[m]);
      assert s[..m] + [s[m]] == s;
      assert TrimRight(s[..m]) + after + [s[m]] == TrimRight(s[..m]) + (after + [s[m]]);
      after := after + [s[m]];
    }
  }

  /** Spaces alone are no duration. */
  lemma BlankIsEmpty(s: string)
    requires AllSpaces(s)
    ensures Parsed(s) == Failure(Empty)
  {
    assert s + "" == s;
    SpacesBefore(s, "");
  }

  /** A bare number, with a sign or not, is a number of seconds, rounded to a nanosecond towards zero. */
  lemma BareNumberIsSeconds(before: string, sign: string, whole: string, dot: bool, fraction: string, after: string)
      returns (q: int)
    requires AllSpaces(before) && AllSpaces(after) && sign in {"", "+", "-"} && IsNumber(whole, dot, fraction)
    ensures q >= 0 && AllDigits(whole + fraction) && IsWorth(q, whole, fraction, 1_000_000_000)
    ensures Parsed(before + (sign + NumberText(whole, dot, fraction)) + after) == Success(if sign == "-" then -q else q)
  {
    var number := NumberText(whole, dot, fraction);
    NumberIsNumeral(whole, dot, fraction);
    NumberStarts(whole, dot, fraction);
    var num := Numeral(Value(whole + fraction), |fraction|);
    q := Amount(num, SECOND);
    DropDigitsRoundsDown(Product(num.digits, SECOND), |fraction|);
    Signed(sign, number, num);
    SignedIsTrimmed(sign, number);
    Padded(before, sign + number, after);
    BareIsParsed(before + (sign + number) + after, sign + number, if sign == "-" then -q else q);
  }

  lemma BareIsParsed(s: string, t: string, d: int)
    requires TrimSpace(s) == t != "" && BareSeconds(t) == Some(d)
    ensures Parsed(s) == Success(d)
  {
  }

  lemma SignedIsTrimmed(sign: string, number: string)
    requires sign in {"", "+", "-"} && number != "" && (forall k :: 0 <= k < |number| ==> IsNumberChar(number[k]))
    ensures var t := sign + number; t != "" && !IsSpace(t[0]) && !IsSpace(t[|t| - 1])
  {
    var t := sign + number;
    assert t[|t| - 1] == number[|number| - 1] && IsNumberChar(number[|number| - 1]);
    assert t[0] == if sign == "" then number[0] else sign[0];
    assert IsNumberChar(number[0]);
  }

  lemma Signed(sign: string, number: string, num: Numeral)
    requires sign in {"", "+", "-"} && number != "" && (forall k :: 0 <= k < |number| ==> IsNumberChar(number[k]))
    requires ParseNumeral(number) == Some(num)
    ensures BareSeconds(sign + number)
         == Some(if sign == "-" then -(Amount(num, SECOND) as int) else Amount(num, SECOND))
  {
    var t := sign + number;
    assert IsNumberChar(number[0]);
    if sign == "" {
      assert t == number;
    } else if sign == "+" {
      assert t[0] == '+' && t[1..] == number;
    } else {
      assert t[0] == '-' && t[1..] == number;
    }
  }

  lemma NumberChars(whole: string, dot: bool, fraction: string, k: nat)
    requires IsNumber(whole, dot, fraction) && k < |NumberText(whole, dot, fraction)|
    ensures IsNumberChar(NumberText(whole, dot, fraction)[k])
  {
  }

  /** The plain case: the numeral of n is n seconds. */
  lemma DigitsAreSeconds(before: string, sign: string, n: nat, after: string)
    requires AllSpaces(before) && AllSpaces(after) && sign in {"", "+", "-"}
    ensures Parsed(before + (sign + Digits(n)) + after)
         == Success(if sign == "-" then -(n * 1_000_000_000) else n * 1_000_000_000)
  {
    WholeNumber(n);
    var q := BareNumberIsSeconds(before, sign, Digits(n), false, "", after);
    assert q == n * 1_000_000_000;
  }

  lemma WholeNumber(n: nat)
    ensures NumberText(Digits(n), false, "") == Digits(n) && Digits(n) + "" == Digits(n) && Value(Digits(n)) == n
  {
    ValueOfDigits(n);
  }

  /** Where the number and the unit of a field end that is not followed by a letter. */
  lemma FieldEnds(s: string, i: nat, j: nat, k: nat)
    requires i <= j <= k <= |s|
    requires forall x :: i <= x < j ==> IsNumberChar(s[x])
    requires forall x :: j <= x < k ==> IsLetter(s[x])
    requires j == k && k < |s| ==> !IsNumberChar(s[k])
    requires k < |s| ==> !IsLetter(s[k])
    ensures NumberEnd(s, i) == j && LetterEnd(s, j) == k
  {
    NumberEndsAt(s, i, j);
    LetterEndsAt(s, j, k);
  }

  lemma SlicesOfThree(s: string, i: nat, a: string, b: string, c: string)
    requires i <= |s| && s[i..] == a + b + c
    ensures i + |a| + |b| + |c| == |s|
    ensures s[i..i + |a|] == a && s[i + |a|..i + |a| + |b|] == b && s[i + |a| + |b|..] == c
    ensures forall x :: i <= x < i + |a| ==> s[x] == a[x - i]
    ensures forall x :: i + |a| <= x < i + |a| + |b| ==> s[x] == b[x - i - |a|]
    ensures c != "" ==> s[i + |a| + |b|] == c[0]
  {
    var t := s[i..];
    assert s[i..i + |a|] == t[..|a|];
    assert s[i + |a|..i + |a| + |b|] == t[|a|..|a| + |b|];
    assert s[i + |a| + |b|..] == t[|a| + |b|..];
    assert forall x :: i <= x < |s| ==> s[x] == t[x - i];
  }

  /** A number and letters, followed by no letter: where they end in the text. */
  lemma NumberAndWord(s: string, i: nat, number: string, word: string, rest: string)
    requires i <= |s| && s[i..] == number + word + rest
    requires forall x :: 0 <= x < |number| ==> IsNumberChar(number[x])
    requires forall x :: 0 <= x < |word| ==> IsLetter(word[x])
    requires rest != "" ==> !IsLetter(rest[0]) && (word == "" ==> !IsNumberChar(rest[0]))
    ensures var j, k := i + |number|, i + |number| + |word|;
      && k <= |s| && NumberEnd(s, i) == j && LetterEnd(s, j) == k
      && s[i..j] == number && s[j..k] == word && s[k..] == rest
  {
    SlicesOfThree(s, i, number, word, rest);
    FieldEnds(s, i, i + |number|, i + |number| + |word|);
  }

  /** One field, by where its number and its letters end. */
  lemma FieldAt(s: string, i: nat, j: nat, k: nat, number: string, word: string)
    requires i < j <= k <= |s| && NumberEnd(s, i) == j && LetterEnd(s, j) == k
    requires s[i..j] == number && s[j..k] == word
    ensures Fields(s, i) ==
        match ParseNumeral(number)
        case None => Failure(BadNumber(number))
        case Some(num) =>
          match DurationUnit(word)
          case None => Failure(UnknownUnit(word))
          case Some(unit) => Plus(Amount(num, unit), Fields(s, k))
  {
    assert Fields(s, i) == FieldThenFields(s, i);
  }

  lemma PieceRead(s: string, i: nat, p: Piece, rest: string) returns (k: nat)
    requires IsPiece(p) && i <= |s| && s[i..] == PieceText(p) + rest
    requires rest != "" ==> !IsLetter(rest[0])
    ensures i < k <= |s| && s[k..] == rest && Fields(s, i) == Plus(Worth(p), Fields(s, k))
  {
    var number, word := NumberText(p.whole, p.dot, p.fraction), Suffix(p.unit);
    forall x | 0 <= x < |number| ensures IsNumberChar(number[x]) {
      NumberChars(p.whole, p.dot, p.fraction, x);
    }
    SuffixIsUnit(p.unit);
    k := i + |number| + |word|;
    NumberAndWord(s, i, number, word, rest);
    NumberIsNumeral(p.whole, p.dot, p.fraction);
    assert number != "";
    FieldAt(s, i, i + |number|, k, number, word);
  }

  lemma PiecesStart(pieces: seq<Piece>)
    requires ArePieces(pieces) && pieces != []
    ensures PieceTexts(pieces) != "" && IsNumberChar(PieceTexts(pieces)[0])
  {
    NumberChars(pieces[0].whole, pieces[0].dot, pieces[0].fraction, 0);
  }

  lemma {:induction false} PiecesEnd(pieces: seq<Piece>)
    requires ArePieces(pieces) && pieces != []
    ensures var t := PieceTexts(pieces); t != "" && IsLetter(t[|t| - 1])
  {
    SuffixIsUnit(pieces[0].unit);
    if pieces[1..] == [] {
      assert PieceTexts(pieces) == PieceText(pieces[0]);
    } else {
      PiecesEnd(pieces[1..]);
    }
  }

  lemma PiecesUnfold(pieces: seq<Piece>, tail: string)
    requires ArePieces(pieces) && pieces != [] && (tail != "" ==> !IsLetter(tail[0]))
    ensures PieceTexts(pieces) + tail == PieceText(pieces[0]) + (PieceTexts(pieces[1..]) + tail)
    ensures var rest := PieceTexts(pieces[1..]) + tail; rest != "" ==> !IsLetter(rest[0])
  {
    Associative(PieceText(pieces[0]), PieceTexts(pieces[1..]), tail);
    if pieces[1..] != [] {
      PiecesStart(pieces[1..]);
    } else {
      assert PieceTexts(pieces[1..]) + tail == tail;
    }
  }

  lemma FieldsStep(s: string, i: nat, pieces: seq<Piece>, k: nat, r: Result<int, Error>)
    requires ArePieces(pieces) && pieces != [] && i < k <= |s|
    requires Fields(s, i) == Plus(Worth(pieces[0]), Fields(s, k))
    requires Fields(s, k) == Plus(TotalWorth(pieces[1..]), r)
    ensures Fields(s, i) == Plus(TotalWorth(pieces), r)
  {
  }

  /** Pieces in front of anything that does not start with a letter are read one after the other. */
  lemma {:induction false} PiecesRead(s: string, i: nat, pieces: seq<Piece>, tail: string, r: Result<int, Error>)
    requires ArePieces(pieces) && i <= |s| && s[i..] == PieceTexts(pieces) + tail
    requires tail != "" ==> !IsLetter(tail[0])
    requires Fields(s, |s| - |tail|) == r
    ensures Fields(s, i) == Plus(TotalWorth(pieces), r)
    decreases |pieces|
  {
    if pieces == [] {
      assert "" + tail == tail;
    } else {
      var rest := PieceTexts(pieces[1..]) + tail;
      PiecesUnfold(pieces, tail);
      var k := PieceRead(s, i, pieces[0], rest);
      PiecesRead(s, k, pieces[1..], tail, r);
      FieldsStep(s, i, pieces, k, r);
    }
  }

  /** A text that is no bare number is read field by field. */
  lemma ReadAsFields(before: string, t: string, after: string, k: nat, r: Result<int, Error>)
    requires AllSpaces(before) && AllSpaces(after)
    requires t != "" && !IsSpace(t[0]) && !IsSpace(t[|t| - 1])
    requires k < |t| && !IsNumberChar(t[k]) && (k > 0 || (t[0] != '+' && t[0] != '-'))
    requires Fields(t, 0) == r
    ensures Parsed(before + t + after) == r
  {
    Padded(before, t, after);
    NotBare(t, k);
    TrimmedIsParsed(before + t + after, t, r);
  }

  lemma TrimmedIsParsed(s: string, t: string, r: Result<int, Error>)
    requires TrimSpace(s) == t != "" && BareSeconds(t) == None && Fields(t, 0) == r
    ensures Parsed(s) == r
  {
  }

  lemma ReadUntrimmed(t: string, k: nat, r: Result<int, Error>)
    requires t != "" && !IsSpace(t[0]) && !IsSpace(t[|t| - 1])
    requires k < |t| && !IsNumberChar(t[k]) && (k > 0 || (t[0] != '+' && t[0] != '-'))
    requires Fields(t, 0) == r
    ensures Parsed(t) == r
  {
    ReadAsFields("", t, "", k, r);
    assert "" + t + "" == t;
  }

  /** Any non-empty list of pieces, in any order and size, is worth the sum of its pieces. */
  lemma PiecesAreParsed(before: string, pieces: seq<Piece>, after: string)
    requires AllSpaces(before) && AllSpaces(after) && ArePieces(pieces) && pieces != []
    ensures Parsed(before + PieceTexts(pieces) + after) == Success(TotalWorth(pieces))
  {
    var t := PieceTexts(pieces);
    PiecesStart(pieces);
    PiecesEnd(pieces);
    PiecesAlone(t, pieces);
    ReadAsFields(before, t, after, |t| - 1, Success(TotalWorth(pieces)));
  }

  lemma NothingMore(t: string)
    ensures Fields(t, |t|) == Success(0)
  {
  }

  lemma PiecesAlone(t: string, pieces: seq<Piece>)
    requires ArePieces(pieces) && t == PieceTexts(pieces)
    ensures Fields(t, 0) == Success(TotalWorth(pieces))
  {
    RightUnit(t);
    assert t[0..] == t;
    NothingMore(t);
    PiecesRead(t, 0, pieces, "", Success(0));
  }

  /** What cannot be read after the pieces decides, unless the text is a bare number. */
  lemma TailDecides(pieces: seq<Piece>, tail: string, t: string, k: nat, e: Error)
    requires ArePieces(pieces) && t == PieceTexts(pieces) + tail
    requires tail != "" && !IsLetter(tail[0]) && !IsSpace(t[0]) && !IsSpace(tail[|tail| - 1])
    requires k < |t| && !IsNumberChar(t[k]) && (k > 0 || (t[0] != '+' && t[0] != '-'))
    requires Fields(t, |PieceTexts(pieces)|) == Failure(e)
    ensures Parsed(t) == Failure(e)
  {
    TailFails(pieces, tail, t, e);
    assert t[|t| - 1] == tail[|tail| - 1];
    ReadUntrimmed(t, k, Failure(e));
  }

  lemma TailFails(pieces: seq<Piece>, tail: string, t: string, e: Error)
    requires ArePieces(pieces) && t == PieceTexts(pieces) + tail && tail != "" && !IsLetter(tail[0])
    requires Fields(t, |PieceTexts(pieces)|) == Failure(e)
    ensures Fields(t, 0) == Failure(e)
  {
    assert t[0..] == t;
    PiecesRead(t, 0, pieces, tail, Failure(e));
  }

  /** The same after at least one piece, whose unit shows that the text is no bare number. */
  lemma TailDecidesAfter(pieces: seq<Piece>, tail: string, t: string, e: Error)
    requires ArePieces(pieces) && pieces != [] && t == PieceTexts(pieces) + tail
    requires tail != "" && !IsLetter(tail[0]) && !IsSpace(tail[|tail| - 1])
    requires Fields(t, |PieceTexts(pieces)|) == Failure(e)
    ensures Parsed(t) == Failure(e)
  {
    var m := |PieceTexts(pieces)|;
    PiecesEnd(pieces);
    PiecesStart(pieces);
    assert t[m - 1] == PieceTexts(pieces)[m - 1] && t[0] == PieceTexts(pieces)[0];
    TailDecides(pieces, tail, t, m - 1, e);
  }

  /** Where a field should start with a number and does not, the text is a bad duration. */
  lemma NoFieldHere(pieces: seq<Piece>, tail: string)
    requires ArePieces(pieces) && tail != "" && !IsNumberChar(tail[0]) && !IsSpace(tail[|tail| - 1])
    requires if pieces == [] then !IsSpace(tail[0]) else !IsLetter(tail[0])
    requires pieces == [] && (tail[0] == '+' || tail[0] == '-') ==> exists k :: 0 < k < |tail| && !IsNumberChar(tail[k])
    ensures Parsed(PieceTexts(pieces) + tail) == Failure(BadDuration)
  {
    var t, m := PieceTexts(pieces) + tail, |PieceTexts(pieces)|;
    FieldStartsBadly(t, m);
    if pieces == [] {
      var k := 0;
      if tail[0] == '+' || tail[0] == '-' {
        k :| 0 < k < |tail| && !IsNumberChar(tail[k]);
      }
      assert t == tail;
      ReadUntrimmed(t, k, Failure(BadDuration));
    } else {
      TailDecidesAfter(pieces, tail, t, BadDuration);
    }
  }

  lemma FieldStartsBadly(t: string, i: nat)
    requires i < |t| && !IsNumberChar(t[i])
    ensures Fields(t, i) == Failure(BadDuration)
  {
    NumberEndsAt(t, i, i);
    assert Fields(t, i) == FieldThenFields(t, i);
  }

  lemma {:induction false} DotsCounted(s: string)
    ensures (forall k :: 0 <= k < |s| ==> s[k] == '.') ==> WithoutDots(s) == ""
    ensures (exists k :: 0 <= k < |s| && s[k] == '.') ==> |WithoutDots(s)| < |s|
    ensures (exists j, k :: 0 <= j < k < |s| && s[j] == s[k] == '.') ==> |WithoutDots(s)| + 1 < |s|
  {
    if s != "" {
      DotsCounted(s[1..]);
      if j, k :| 0 <= j < k < |s| && s[j] == s[k] == '.' {
        assert s[1..][k - 1] == '.';
        assert j > 0 ==> s[1..][j - 1] == '.';
      }
      if k :| 0 < k < |s| && s[k] == '.' {
        assert s[1..][k - 1] == '.';
      }
    }
  }

  /** A run of digits and dots without a digit, or with two dots, is no number. */
  predicate IsBadRun(run: string) {
    && run != "" && (forall k :: 0 <= k < |run| ==> IsNumberChar(run[k]))
    && ((forall k :: 0 <= k < |run| ==> run[k] == '.')
        || exists j, k :: 0 <= j < k < |run| && run[j] == run[k] == '.')
  }

  /** A field that starts with such a run is a bad number, whatever comes after it. */
  lemma NoNumberHere(pieces: seq<Piece>, run: string, rest: string)
    requires ArePieces(pieces) && IsBadRun(run) && (rest != "" ==> !IsNumberChar(rest[0]) && !IsSpace(rest[|rest| - 1]))
    ensures Parsed(PieceTexts(pieces) + (run + rest)) == Failure(BadNumber(run))
  {
    var t := PieceTexts(pieces) + (run + rest);
    if pieces != [] {
      BadRunEnds(run, rest);
      assert t[|PieceTexts(pieces)|..] == run + rest;
      BadRunAt(t, |PieceTexts(pieces)|, run, rest);
      TailDecidesAfter(pieces, run + rest, t, BadNumber(run));
    } else {
      assert t == run + rest;
      NoNumberFirst(run, rest, t);
    }
  }

  lemma BadRunEnds(run: string, rest: string)
    requires IsBadRun(run) && (rest != "" ==> !IsSpace(rest[|rest| - 1]))
    ensures var tail := run + rest;
      tail != "" && IsNumberChar(tail[0]) && !IsSpace(tail[|tail| - 1]) && (rest != "" ==> tail[|run|] == rest[0])
  {
    var tail := run + rest;
    assert tail[0] == run[0] && tail[|tail| - 1] == if rest == "" then run[|run| - 1] else rest[|rest| - 1];
  }

  lemma NoNumberFirst(run: string, rest: string, t: string)
    requires IsBadRun(run) && (rest != "" ==> !IsNumberChar(rest[0]) && !IsSpace(rest[|rest| - 1]))
    requires t == run + rest
    ensures Parsed(t) == Failure(BadNumber(run))
  {
    BadRunEnds(run, rest);
    assert t[0..] == run + rest;
    BadRunAt(t, 0, run, rest);
    if rest == "" {
      assert t == run;
      BadRunIsNoNumeral(run);
      NothingToTrim(run);
      TrimmedIsParsed(run, run, Failure(BadNumber(run)));
    } else {
      ReadUntrimmed(t, |run|, Failure(BadNumber(run)));
    }
  }

  lemma BadRunIsNoNumeral(run: string)
    requires IsBadRun(run)
    ensures ParseNumeral(run) == None && BareSeconds(run) == None
  {
    DotsCounted(run);
  }

  lemma BadRunAt(t: string, i: nat, run: string, rest: string)
    requires IsBadRun(run) && i <= |t| && t[i..] == run + rest && (rest != "" ==> !IsNumberChar(rest[0]))
    ensures Fields(t, i) == Failure(BadNumber(run))
  {
    assert run + rest == run + "" + rest;
    SlicesOfThree(t, i, run, "", rest);
    var j := i + |run|;
    NumberEndsAt(t, i, j);
    BadRunIsNoNumeral(run);
    FieldAt(t, i, j, LetterEnd(t, j), run, t[j..LetterEnd(t, j)]);
  }

  predicate IsUnit(word: string) {
    exists u :: 0 <= u < |READABLE| && word == Suffix(u)
  }

  lemma UnitsAreEight(word: string)
    requires !IsUnit(word)
    ensures DurationUnit(word) == None
  {
    assert |READABLE| == 8;
    assert word != Suffix(0) && word != Suffix(1) && word != Suffix(2) && word != Suffix(3);
    assert word != Suffix(4) && word != Suffix(5) && word != Suffix(6) && word != Suffix(7);
    if |word| == 1 {
      assert word == [word[0]];
    }
  }

  /** A field whose letters are none of the eight units, or that has none, names the unknown unit. */
  lemma NoUnitHere(pieces: seq<Piece>, whole: string, dot: bool, fraction: string, word: string, rest: string)
    requires ArePieces(pieces) && IsNumber(whole, dot, fraction)
    requires (forall k :: 0 <= k < |word| ==> IsLetter(word[k])) && !IsUnit(word)
    requires pieces != [] || word + rest != ""
    requires rest != "" ==> !IsLetter(rest[0]) && (word == "" ==> !IsNumberChar(rest[0])) && !IsSpace(rest[|rest| - 1])
    ensures Parsed(PieceTexts(pieces) + (NumberText(whole, dot, fraction) + word + rest)) == Failure(UnknownUnit(word))
  {
    var number := NumberText(whole, dot, fraction);
    var tail := number + word + rest;
    var t, m := PieceTexts(pieces) + tail, |PieceTexts(pieces)|;
    NumberStarts(whole, dot, fraction);
    NoSpaceAtEnd(number, word, rest);
    assert t[m..] == tail;
    UnknownUnitAt(t, m, whole, dot, fraction, word, rest);
    if pieces != [] {
      TailDecidesAfter(pieces, tail, t, UnknownUnit(word));
    } else {
      TailDecides(pieces, tail, t, |number|, UnknownUnit(word));
    }
  }

  lemma NoSpaceAtEnd(number: string, word: string, rest: string)
    requires number != "" && (forall k :: 0 <= k < |number| ==> IsNumberChar(number[k]))
    requires (forall k :: 0 <= k < |word| ==> IsLetter(word[k])) && (rest != "" ==> !IsSpace(rest[|rest| - 1]))
    ensures var tail := number + word + rest;
      && tail != "" && tail[0] == number[0] && !IsLetter(tail[0]) && !IsSpace(tail[0]) && !IsSpace(tail[|tail| - 1])
      && (tail[0] != '+' && tail[0] != '-')
      && (word + rest != "" ==> |number| < |tail| && tail[|number|] == (word + rest)[0])
  {
    var tail := number + word + rest;
    assert tail == number + (word + rest);
    assert tail[|tail| - 1] ==
        if rest != "" then rest[|rest| - 1] else if word != "" then word[|word| - 1] else number[|number| - 1];
  }

  lemma NumberStarts(whole: string, dot: bool, fraction: string)
    requires IsNumber(whole, dot, fraction)
    ensures var number := NumberText(whole, dot, fraction);
      number != "" && forall k :: 0 <= k < |number| ==> IsNumberChar(number[k])
  {
    forall k | 0 <= k < |NumberText(whole, dot, fraction)|
      ensures IsNumberChar(NumberText(whole, dot, fraction)[k]) {
      NumberChars(whole, dot, fraction, k);
    }
  }

  lemma UnknownUnitAt(t: string, i: nat, whole: string, dot: bool, fraction: string, word: string, rest: string)
    requires IsNumber(whole, dot, fraction) && i <= |t| && t[i..] == NumberText(whole, dot, fraction) + word + rest
    requires (forall k :: 0 <= k < |word| ==> IsLetter(word[k])) && !IsUnit(word)
    requires rest != "" ==> !IsLetter(rest[0]) && (word == "" ==> !IsNumberChar(rest[0]))
    ensures Fields(t, i) == Failure(UnknownUnit(word))
  {
    NumberStarts(whole, dot, fraction);
    var number := NumberText(whole, dot, fraction);
    NumberAndWord(t, i, number, word, rest);
    NumberIsNumeral(whole, dot, fraction);
    UnitsAreEight(word);
    FieldAt(t, i, i + |number|, i + |number| + |word|, number, word);
  }

  /** Whole amounts as pieces. */
  function Pieces(fields: seq<Field>): (pieces: seq<Piece>)
    requires Known(fields, READABLE)
    ensures ArePieces(pieces) && |pieces| == |fields|
  {
    if fields == [] then [] else [Piece(Digits(fields[0].amount), false, "", fields[0].unit)] + Pieces(fields[1..])
  }

  lemma {:induction false} PiecesOfFields(fields: seq<Field>)
    requires Known(fields, READABLE)
    ensures PieceTexts(Pieces(fields)) == Join(fields) && TotalWorth(Pieces(fields)) == Total(fields, READABLE)
  {
    if fields != [] {
      var n, unit := fields[0].amount, fields[0].unit;
      PiecesOfFields(fields[1..]);
      WholeNumber(n);
      assert Pieces(fields)[1..] == Pieces(fields[1..]);
    }
  }

  // ---------------------------------------------------------------- reading back what was written

  lemma NumberEndsAt(s: string, i: nat, j: nat)
    requires i <= j <= |s|
    requires forall k :: i <= k < j ==> IsNumberChar(s[k])
    requires j == |s| || !IsNumberChar(s[j])
    ensures NumberEnd(s, i) == j
    decreases j - i
  {
    if i < j {
      NumberEndsAt(s, i + 1, j);
    }
  }

  lemma LetterEndsAt(s: string, i: nat, j: nat)
    requires i <= j <= |s|
    requires forall k :: i <= k < j ==> IsLetter(s[k])
    requires j == |s| || !IsLetter(s[j])
    ensures LetterEnd(s, i) == j
    decreases j - i
  {
    if i < j {
      LetterEndsAt(s, i + 1, j);
    }
  }

  lemma SuffixIsUnit(i: nat)
    requires i < |READABLE|
    ensures DurationUnit(Suffix(i)) == Some(READABLE[i])
    ensures forall k :: 0 <= k < |Suffix(i)| ==> IsLetter(Suffix(i)[k])
  {
  }

  lemma JoinStarts(fields: seq<Field>)
    requires Known(fields, READABLE) && fields != []
    ensures Join(fields) != "" && IsDigit(Join(fields)[0])
  {
    assert Join(fields)[0] == Digits(fields[0].amount)[0];
  }

  lemma {:induction false} JoinEndsInLetter(fields: seq<Field>)
    requires Known(fields, READABLE) && fields != []
    ensures Join(fields) != "" && IsLetter(Join(fields)[|Join(fields)| - 1])
  {
    var head := Digits(fields[0].amount) + Suffix(fields[0].unit);
    SuffixIsUnit(fields[0].unit);
    if fields[1..] == [] {
      assert Join(fields) == head;
    } else {
      JoinEndsInLetter(fields[1..]);
      assert Join(fields)[|Join(fields)| - 1] == Join(fields[1..])[|Join(fields[1..])| - 1];
    }
  }

  lemma NothingToTrim(s: string)
    requires s != "" && !IsSpace(s[0]) && !IsSpace(s[|s| - 1])
    ensures TrimSpace(s) == s
  {
  }

  /** Any non-empty list of fields in any of the eight units, canonical or not, is read as its total. */
  lemma JoinIsParsed(s: string, fields: seq<Field>)
    requires Known(fields, READABLE) && fields != [] && s == Join(fields)
    ensures Parsed(s) == Success(Total(fields, READABLE))
  {
    JoinStarts(fields);
    PiecesOfFields(fields);
    assert "" + s + "" == s;
    PiecesAreParsed("", Pieces(fields), "");
  }

  lemma JoinIsEmpty(fields: seq<Field>)
    requires Known(fields, READABLE)
    ensures Join(fields) == "" <==> fields == []
  {
    if fields != [] {
      JoinStarts(fields);
    }
  }

  /** The fields that `Unsigned` writes, "0s" included. */
  lemma Written(d: nat) returns (fields: seq<Field>)
    ensures Known(fields, READABLE) && fields != [] && Unsigned(d) == Join(fields)
    ensures Total(fields, READABLE) == Rounded(d, MILLISECOND)
  {
    LengthsDescend();
    SplitTotal(d, LENGTHS, 0, MILLISECOND);
    fields := Split(d, LENGTHS, 0);
    WrittenIsReadable(fields);
    JoinIsEmpty(fields);
    if fields == [] {
      fields := [Field(0, 4)];
      assert Join(fields) == Digits(0) + Suffix(4) + "";
    }
  }

  lemma UnsignedIsParsed(d: nat)
    ensures Parsed(Unsigned(d)) == Success(Rounded(d, MILLISECOND))
  {
    var fields := Written(d);
    JoinIsParsed(Unsigned(d), fields);
  }

  lemma NegativeIsNot(t: string)
    requires t != "" && IsLetter(t[|t| - 1])
    ensures Parsed("-" + t) == Failure(BadDuration)
  {
    assert ("-" + t)[|t|] == t[|t| - 1];
    NoFieldHere([], "-" + t);
    assert PieceTexts([]) + ("-" + t) == "-" + t;
  }

  /**
    Reading back what FormatDuration wrote gives the duration rounded down to a whole
    millisecond; what it writes for a negative one cannot be read at all.
   */
  lemma FormattedIsParsed(d: int)
    ensures Parsed(Formatted(d)) == if d < 0 then Failure(BadDuration) else Success(Rounded(d, MILLISECOND))
  {
    if d < 0 {
      var fields := Written(-d);
      JoinEndsInLetter(fields);
      NegativeIsNot(Unsigned(-d));
    } else {
      UnsignedIsParsed(d);
    }
  }

  /** A duration survives being written and read exactly when it is a non-negative number of milliseconds. */
  lemma RoundTrip(d: int)
    ensures Parsed(Formatted(d)) == Success(d) <==> d >= 0 && d % MILLISECOND == 0
  {
    FormattedIsParsed(d);
  }

  // ---------------------------------------------------------------- the output is canonical

  /**
    Except for "0s", what is written is the text of fields in strictly descending units, none
    zero, none reaching the next larger unit; and no other such list has the same total.
   */
  lemma FormattedIsCanonical(d: nat, other: seq<Field>)
    ensures Known(Split(d, LENGTHS, 0), READABLE) && Canonical(Split(d, LENGTHS, 0), LENGTHS, 0)
    ensures Formatted(d) == if d < MILLISECOND then "0s" else Join(Split(d, LENGTHS, 0))
    ensures Known(other, LENGTHS) && Canonical(other, LENGTHS, 0) && Total(other, LENGTHS) == Rounded(d, MILLISECOND)
        ==> other == Split(d, LENGTHS, 0)
  {
    LengthsDescend();
    SplitIsCanonical(d, LENGTHS, 0);
    SplitIsKnown(d, LENGTHS, 0);
    WrittenIsReadable(Split(d, LENGTHS, 0));
    SplitRounds(d, LENGTHS, MILLISECOND);
    JoinIsEmpty(Split(d, LENGTHS, 0));
    if Canonical(other, LENGTHS, 0) {
      CanonicalIsUnique(other, LENGTHS, 0);
    }
  }

  /** Durations that agree to the millisecond are written alike. */
  lemma RoundedIsWrittenAlike(d: nat)
    ensures Formatted(Rounded(d, MILLISECOND)) == Formatted(d)
  {
    LengthsDescend();
    SplitRounds(d, LENGTHS, MILLISECOND);
  }

  lemma {:induction false} FieldsAreNotNegative(s: string, i: nat)
    requires i <= |s| && Fields(s, i).Success?
    ensures Fields(s, i).value >= 0
    decreases |s| - i
  {
    if i < |s| {
      assert Fields(s, i) == FieldThenFields(s, i);
      FieldsAreNotNegative(s, LetterEnd(s, NumberEnd(s, i)));
    }
  }

  /** Only a signed bare number can be worth less than zero. */
  lemma NegativeIsSigned(v: string)
    requires Parsed(v).Success? && Parsed(v).value < 0
    ensures var t := TrimSpace(v); t != "" && t[0] == '-' && ParseNumeral(t[1..]).Some?
  {
    var t := TrimSpace(v);
    if BareSeconds(t).None? {
      FieldsAreNotNegative(t, 0);
    }
  }

  /** For one, "-5" is minus five seconds, is written "-5s", and that is no duration. */
  lemma MinusFive()
    ensures Parsed("-5") == Success(-5 * SECOND)
    ensures Normalized("-5") == Success("-5s") && Normalized("-5s") == Failure(BadDuration)
  {
    assert Digits(5) == "5" && "" + ("-" + "5") + "" == "-5";
    DigitsAreSeconds("", "-", 5, "");
    FiveIsWritten();
    FormattedIsParsed(-5 * SECOND);
  }

  lemma FiveIsWritten()
    ensures Unsigned(5 * SECOND) == "5s" && Formatted(-5 * SECOND) == "-5s"
  {
    var fields := [Field(5, 4)];
    LengthsDescend();
    assert fields[1..] == [];
    assert LENGTHS[4] == SECOND && Total(fields[1..], LENGTHS) == 0;
    assert Total(fields, LENGTHS) == Product(5, SECOND) + 0;
    assert Canonical(fields[1..], LENGTHS, 5) && Canonical(fields, LENGTHS, 0);
    CanonicalIsUnique(fields, LENGTHS, 0);
    WrittenIsReadable(fields);
    assert Digits(5) == "5";
    assert Join(fields) == "5" + "s" + "";
  }

  /**
    Normalizing twice is normalizing once exactly for inputs worth zero or more. A negative
    one gives a text that is no duration any more.
   */
  lemma NormalizeTwice(v: string)
    requires Normalized(v).Success?
    ensures Parsed(v).Success?
    ensures Normalized(Normalized(v).value)
         == if Parsed(v).value < 0 then Failure(BadDuration) else Normalized(v)
  {
    var d := Parsed(v).value;
    FormattedIsParsed(d);
    if d >= 0 {
      RoundedIsWrittenAlike(d);
    }
  }

  /** Negation, the first thing FormatDuration does to a negative duration, makes it positive except for the minimum. */
  lemma NegationStuckAtMinimum(d: Int64)
    requires d < 0
    ensures Negate(d) < 0 <==> d == MIN_INT64
    ensures Negate(MIN_INT64) == MIN_INT64
  {
  }
}
