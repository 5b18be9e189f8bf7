/**
  The invoice table of store/invoice_store.go: overdue queries, status updates, creation
  under the unique (subscription, period start) key, and the aging report.

  Instants are integer nanoseconds; a due date is the instant its day begins.
 */
module Invoices {
  import opened Calendar
  import opened Wrappers

  const DAY := 24 * 3600 * 1_000_000_000

  datatype InvoiceStatus = Draft | Issued | Paid | Overdue | Cancelled

  datatype Invoice = Invoice(id: nat, subscription: nat, amount: int, periodStart: Date, due: int,
                             status: InvoiceStatus)

  type Table = seq<Invoice>

  predicate IsUnpaid(inv: Invoice) {
    inv.status.Issued? || inv.status.Overdue?
  }

  predicate IsPastDue(inv: Invoice, cutoff: int) {
    inv.due < cutoff && IsUnpaid(inv)
  }

  predicate UniqueIds(table: Table) {
    forall i, j :: 0 <= i < j < |table| ==> table[i].id != table[j].id
  }

  function WithInvoiceStatus(table: Table, id: nat, status: InvoiceStatus): Table {
    seq(|table|, k requires 0 <= k < |table| => if table[k].id == id then table[k].(status := status) else table[k])
  }

  // ---------------------------------------------------------------- aging

  datatype AgingBucket = AgingBucket(name: string, count: nat, amount: int)

  /** One bucket's half-open interval of due dates; None is no bound. */
  datatype Range = Range(name: string, from: Option<int>, to: Option<int>)

  function Ranges(asOf: int): (r: seq<Range>)
    ensures |r| == 4
  {
    [Range("0-7 hari", Some(asOf - 7 * DAY), Some(asOf)),
     Range("8-14 hari", Some(asOf - 14 * DAY), Some(asOf - 7 * DAY)),
     Range("15-30 hari", Some(asOf - 30 * DAY), Some(asOf - 14 * DAY)),
     Range(">30 hari", None, Some(asOf - 30 * DAY))]
  }

  predicate InRange(inv: Invoice, asOf: int, r: Range) {
    && IsPastDue(inv, asOf)
    && (r.from.Some? ==> inv.due >= r.from.value)
    && (r.to.Some? ==> inv.due < r.to.value)
  }

  /** COUNT(*) of a range. */
  function CountIn(table: Table, asOf: int, r: Range): nat {
    if table == [] then 0
    else (if InRange(table[0], asOf, r) then 1 else 0) + CountIn(table[1..], asOf, r)
  }

  /** COALESCE(SUM(amount), 0) of a range. */
  function AmountIn(table: Table, asOf: int, r: Range): int {
    if table == [] then 0
    else (if InRange(table[0], asOf, r) then table[0].amount else 0) + AmountIn(table[1..], asOf, r)
  }

  /** All unpaid past-due invoices. */
  const ANYTIME := Range("", None, None)

  /** The bucket of one range; none when it is empty. */
  function LineOf(table: Table, asOf: int, r: Range): seq<AgingBucket> {
    var count := CountIn(table, asOf, r);
    if count > 0 then [AgingBucket(r.name, count, AmountIn(table, asOf, r))] else []
  }

  /** The ranges that hold any invoice, in order. */
  function Buckets(table: Table, asOf: int, ranges: seq<Range>): (out: seq<AgingBucket>)
    ensures forall k :: 0 <= k < |out| ==> out[k].count > 0
  {
    if ranges == [] then []
    else
      Buckets(table, asOf, ranges[..|ranges| - 1]) + LineOf(table, asOf, ranges[|ranges| - 1])
  }

  function CountOf(buckets: seq<AgingBucket>): nat {
    if buckets == [] then 0 else CountOf(buckets[..|buckets| - 1]) + buckets[|buckets| - 1].count
  }

  function AmountOf(buckets: seq<AgingBucket>): int {
    if buckets == [] then 0 else AmountOf(buckets[..|buckets| - 1]) + buckets[|buckets| - 1].amount
  }

  /** `found` holds the past-due rows of the table, each once and in order; `at` says where they are. */
  ghost predicate IsOverdueList(table: Table, cutoff: int, found: seq<Invoice>, at: seq<nat>) {
    && |at| == |found|
    && (forall k :: 0 <= k < |found| ==> at[k] < |table| && found[k] == table[at[k]] && IsPastDue(found[k], cutoff))
    && (forall j, k :: 0 <= j < k < |at| ==> at[j] < at[k])
    && (forall i :: 0 <= i < |table| && IsPastDue(table[i], cutoff) ==> i in at)
  }

  lemma OverdueListed(table: Table, cutoff: int, found: seq<Invoice>, at: seq<nat>)
    requires IsOverdueList(table, cutoff, found, at)
    ensures forall inv :: inv in found <==> inv in table && IsPastDue(inv, cutoff)
  {
    forall inv | inv in table && IsPastDue(inv, cutoff) ensures inv in found {
      var i :| 0 <= i < |table| && table[i] == inv;
      var k :| 0 <= k < |at| && at[k] == i;
      assert found[k] == inv;
    }
  }

  /** gormInvoiceStore. */
  class InvoiceStore {
    var table: Table
    var nextId: nat

    ghost predicate Valid()
      reads this
    {
      UniqueIds(table) && forall k :: 0 <= k < |table| ==> table[k].id < nextId
    }

    constructor ()
      ensures Valid() && table == []
    {
      table, nextId := [], 0;
    }

    method ListOverdue(cutoff: int) returns (found: seq<Invoice>, ghost at: seq<nat>)
      ensures IsOverdueList(table, cutoff, found, at)
    {
      found, at := [], [];
      for i := 0 to |table|
        invariant |at| == |found|
        invariant forall k :: 0 <= k < |found| ==> at[k] < i && found[k] == table[at[k]] && IsPastDue(found[k], cutoff)
        invariant forall j, k :: 0 <= j < k < |at| ==> at[j] < at[k]
        invariant forall h :: 0 <= h < i && IsPastDue(table[h], cutoff) ==> h in at
      {
        if IsPastDue(table[i], cutoff) {
          found, at := found + [table[i]], at + [i];
        }
      }
    }

    method UpdateStatus(id: nat, status: InvoiceStatus) returns (found: bool)
      requires Valid()
      modifies `table
      ensures Valid()
      ensures found <==> exists k :: 0 <= k < |old(table)| && old(table)[k].id == id
      ensures table == WithInvoiceStatus(old(table), id, status)
      ensures forall k :: 0 <= k < |table| ==>
                table[k] == if old(table)[k].id == id then old(table)[k].(status := status) else old(table)[k]
    {
      found := exists k :: 0 <= k < |table| && table[k].id == id;
      table := WithInvoiceStatus(table, id, status);
    }

    method GetByID(id: nat) returns (inv: Option<Invoice>)
      requires Valid()
      ensures inv.Some? ==> inv.value in table && inv.value.id == id
      ensures inv.None? <==> forall k :: 0 <= k < |table| ==> table[k].id != id
    {
      for i := 0 to |table|
        invariant forall k :: 0 <= k < i ==> table[k].id != id
      {
        if table[i].id == id {
          return Some(table[i]);
        }
      }
      inv := None;
    }

    /** Refused when the subscription already has an invoice for that period. */
    method Create(subscription: nat, amount: int, periodStart: Date, due: int) returns (created: bool)
      requires Valid()
      modifies this
      ensures Valid()
      ensures created <==> forall inv :: inv in old(table) ==>
              inv.subscription != subscription || inv.periodStart != periodStart
      ensures table == if created then
                         old(table) + [Invoice(old(nextId), subscription, amount, periodStart, due, Issued)]
                       else old(table)
    {
      created := forall inv :: inv in table ==> inv.subscription != subscription || inv.periodStart != periodStart;
      if created {
        table := table + [Invoice(nextId, subscription, amount, periodStart, due, Issued)];
        nextId := nextId + 1;
      }
    }

    method AgingBuckets(asOf: int) returns (out: seq<AgingBucket>)
      ensures out == Buckets(table, asOf, Ranges(asOf))
    {
      var ranges := Ranges(asOf);
      out := [];
      for i := 0 to |ranges|
        invariant out == Buckets(table, asOf, ranges[..i])
      {
        assert ranges[..i + 1][..i] == ranges[..i];
        var count, amount := CountIn(table, asOf, ranges[i]), AmountIn(table, asOf, ranges[i]);
        if count > 0 {
          out := out + [AgingBucket(ranges[i].name, count, amount)];
        }
      }
      assert ranges[..|ranges|] == ranges;
    }

    /** How many positions of the table hold an unpaid past-due invoice, and what they add up to. */
    method CountOverdue(now: int) returns (count: nat, amount: int)
      ensures count == |OverdueAt(table, now)|
      ensures amount == SumAt(table, OverdueAt(table, now))
      ensures count == CountIn(table, now, ANYTIME) && amount == AmountIn(table, now, ANYTIME)
    {
      count, amount := 0, 0;
      for i := 0 to |table|
        invariant count == CountIn(table[..i], now, ANYTIME) && amount == AmountIn(table[..i], now, ANYTIME)
      {
        assert table[..i + 1] == table[..i] + [table[i]];
        CountInAppend(table[..i], now, ANYTIME, table[i]);
        if IsPastDue(table[i], now) {
          count, amount := count + 1, amount + table[i].amount;
        }
      }
      assert table[..|table|] == table;
      OverdueCounted(table, now);
    }
  }

  /** The positions of unpaid past-due invoices. */
  function OverdueAt(table: Table, now: int): set<nat> {
    set i: nat | i < |table| && IsPastDue(table[i], now)
  }

  /** The amounts at some positions, added from the last position down. */
  function SumAt(table: Table, at: set<nat>): int {
    if table == [] then 0
    else SumAt(table[..|table| - 1], at) + if |table| - 1 in at then table[|table| - 1].amount else 0
  }

  lemma {:induction false} CountInAppend(table: Table, asOf: int, r: Range, inv: Invoice)
    ensures CountIn(table + [inv], asOf, r) == CountIn(table, asOf, r) + if InRange(inv, asOf, r) then 1 else 0
    ensures AmountIn(table + [inv], asOf, r)
            == AmountIn(table, asOf, r) + if InRange(inv, asOf, r) then inv.amount else 0
  {
    if table == [] {
      assert table + [inv] == [inv] && [inv][1..] == [];
    } else {
      CountInAppend(table[1..], asOf, r, inv);
      assert (table + [inv])[1..] == table[1..] + [inv];
    }
  }

  lemma {:induction false} SumAtIgnores(table: Table, at: set<nat>, other: set<nat>)
    requires forall i :: 0 <= i < |table| ==> (i in at <==> i in other)
    ensures SumAt(table, at) == SumAt(table, other)
  {
    if table != [] {
      SumAtIgnores(table[..|table| - 1], at, other);
    }
  }

  /** COUNT and SUM over the rows are the number of overdue positions and the sum of their amounts. */
  lemma {:induction false} OverdueCounted(table: Table, now: int)
    ensures CountIn(table, now, ANYTIME) == |OverdueAt(table, now)|
    ensures AmountIn(table, now, ANYTIME) == SumAt(table, OverdueAt(table, now))
  {
    if table != [] {
      var n := |table| - 1;
      var before := table[..n];
      OverdueCounted(before, now);
      assert table == before + [table[n]];
      CountInAppend(before, now, ANYTIME, table[n]);
      if IsPastDue(table[n], now) {
        assert OverdueAt(table, now) == OverdueAt(before, now) + {n};
      } else {
        assert OverdueAt(table, now) == OverdueAt(before, now);
      }
      SumAtIgnores(before, OverdueAt(table, now), OverdueAt(before, now));
    }
  }

  /** Every unpaid past-due invoice lies in exactly one range, and nothing else lies in any. */
  lemma RangesPartition(inv: Invoice, asOf: int)
    ensures IsPastDue(inv, asOf) <==> exists k :: 0 <= k < 4 && InRange(inv, asOf, Ranges(asOf)[k])
    ensures forall i, j :: 0 <= i < j < 4 && InRange(inv, asOf, Ranges(asOf)[i]) ==>
            !InRange(inv, asOf, Ranges(asOf)[j])
  {
    var r := Ranges(asOf);
    if IsPastDue(inv, asOf) {
      assert InRange(inv, asOf, r[0]) || InRange(inv, asOf, r[1]) || InRange(inv, asOf, r[2])
          || InRange(inv, asOf, r[3]);
    }
  }

  /** Which ages each label stands for. The bounds are instants, so "8-14 hari" starts right after seven full days. */
  lemma LabelsMeanAges(inv: Invoice, asOf: int)
    requires IsPastDue(inv, asOf)
    ensures var r, age := Ranges(asOf), asOf - inv.due;
      && (InRange(inv, asOf, r[0]) <==> r[0].name == "0-7 hari" && 0 < age <= 7 * DAY)
      && (InRange(inv, asOf, r[1]) <==> r[1].name == "8-14 hari" && 7 * DAY < age <= 14 * DAY)
      && (InRange(inv, asOf, r[2]) <==> r[2].name == "15-30 hari" && 14 * DAY < age <= 30 * DAY)
      && (InRange(inv, asOf, r[3]) <==> r[3].name == ">30 hari" && 30 * DAY < age)
  {
  }

  lemma {:induction false} CountsAdd(table: Table, asOf: int)
    ensures var r := Ranges(asOf);
      CountIn(table, asOf, ANYTIME) ==
      CountIn(table, asOf, r[0]) + CountIn(table, asOf, r[1]) + CountIn(table, asOf, r[2]) + CountIn(table, asOf, r[3])
  {
    if table != [] {
      CountsAdd(table[1..], asOf);
      RangesPartition(table[0], asOf);
    }
  }

  lemma {:induction false} AmountsAdd(table: Table, asOf: int)
    ensures var r := Ranges(asOf);
      AmountIn(table, asOf, ANYTIME) ==
      AmountIn(table, asOf, r[0]) + AmountIn(table, asOf, r[1]) + AmountIn(table, asOf, r[2])
          + AmountIn(table, asOf, r[3])
  {
    if table != [] {
      AmountsAdd(table[1..], asOf);
      RangesPartition(table[0], asOf);
    }
  }

  lemma {:induction false} EmptyRangeHasNoAmount(table: Table, asOf: int, r: Range)
    requires CountIn(table, asOf, r) == 0
    ensures AmountIn(table, asOf, r) == 0
  {
    if table != [] {
      EmptyRangeHasNoAmount(table[1..], asOf, r);
    }
  }

  lemma LinesNext(table: Table, asOf: int, ranges: seq<Range>, i: nat)
    requires i < |ranges|
    ensures Buckets(table, asOf, ranges[..i + 1]) == Buckets(table, asOf, ranges[..i]) + LineOf(table, asOf, ranges[i])
  {
    assert ranges[..i + 1][..i] == ranges[..i];
  }

  lemma FourLines(table: Table, asOf: int, r: seq<Range>)
    requires |r| == 4
    ensures Buckets(table, asOf, r) == LineOf(table, asOf, r[0]) + LineOf(table, asOf, r[1])
                                     + LineOf(table, asOf, r[2]) + LineOf(table, asOf, r[3])
  {
    LinesNext(table, asOf, r, 0);
    LinesNext(table, asOf, r, 1);
    LinesNext(table, asOf, r, 2);
    LinesNext(table, asOf, r, 3);
    assert r[..4] == r && Buckets(table, asOf, r[..0]) == [];
  }

  lemma {:induction false} LinesAdd(a: seq<AgingBucket>, b: seq<AgingBucket>)
    ensures CountOf(a + b) == CountOf(a) + CountOf(b) && AmountOf(a + b) == AmountOf(a) + AmountOf(b)
  {
    if b == [] {
      assert a + b == a;
    } else {
      assert (a + b)[..|a + b| - 1] == a + b[..|b| - 1];
      LinesAdd(a, b[..|b| - 1]);
    }
  }

  /** Leaving out empty ranges loses nothing. */
  lemma LineAdds(table: Table, asOf: int, r: Range)
    ensures CountOf(LineOf(table, asOf, r)) == CountIn(table, asOf, r)
    ensures AmountOf(LineOf(table, asOf, r)) == AmountIn(table, asOf, r)
  {
    if CountIn(table, asOf, r) == 0 {
      EmptyRangeHasNoAmount(table, asOf, r);
    } else {
      assert LineOf(table, asOf, r)[..0] == [];
    }
  }

  lemma FourBuckets(table: Table, asOf: int, r: seq<Range>)
    requires |r| == 4
    ensures var out := Buckets(table, asOf, r);
      && CountOf(out) == CountIn(table, asOf, r[0]) + CountIn(table, asOf, r[1]) + CountIn(table, asOf, r[2])
          + CountIn(table, asOf, r[3])
      && AmountOf(out) == AmountIn(table, asOf, r[0]) + AmountIn(table, asOf, r[1]) + AmountIn(table, asOf, r[2])
          + AmountIn(table, asOf, r[3])
  {
    FourLines(table, asOf, r);
    FourAdd(LineOf(table, asOf, r[0]), LineOf(table, asOf, r[1]), LineOf(table, asOf, r[2]), LineOf(table, asOf, r[3]));
    LineAdds(table, asOf, r[0]);
    LineAdds(table, asOf, r[1]);
    LineAdds(table, asOf, r[2]);
    LineAdds(table, asOf, r[3]);
  }

  lemma FourAdd(a: seq<AgingBucket>, b: seq<AgingBucket>, c: seq<AgingBucket>, d: seq<AgingBucket>)
    ensures CountOf(a + b + c + d) == CountOf(a) + CountOf(b) + CountOf(c) + CountOf(d)
    ensures AmountOf(a + b + c + d) == AmountOf(a) + AmountOf(b) + AmountOf(c) + AmountOf(d)
  {
    LinesAdd(a, b);
    LinesAdd(a + b, c);
    LinesAdd(a + b + c, d);
  }

  /** An unpaid invoice that is due for longer than one bound, and no longer than another if there is one. */
  predicate IsAged(inv: Invoice, asOf: int, over: int, upTo: Option<int>) {
    && (inv.status.Issued? || inv.status.Overdue?)
    && over < asOf - inv.due && (upTo.None? || asOf - inv.due <= upTo.value)
  }

  function AgedAt(table: Table, asOf: int, over: int, upTo: Option<int>): set<nat> {
    set i: nat | i < |table| && IsAged(table[i], asOf, over, upTo)
  }

  lemma AgedNext(before: Table, inv: Invoice, asOf: int, over: int, upTo: Option<int>)
    ensures AgedAt(before + [inv], asOf, over, upTo)
         == AgedAt(before, asOf, over, upTo) + if IsAged(inv, asOf, over, upTo) then {|before|} else {}
    ensures |before| !in AgedAt(before, asOf, over, upTo)
  {
    forall i: nat | i < |before| ensures (before + [inv])[i] == before[i] {
    }
  }

  lemma SumAtNext(before: Table, inv: Invoice, at: set<nat>, aged: bool)
    requires |before| !in at
    ensures SumAt(before + [inv], at + if aged then {|before|} else {})
         == SumAt(before, at) + if aged then inv.amount else 0
  {
    assert (before + [inv])[..|before|] == before;
    SumAtIgnores(before, at + if aged then {|before|} else {}, at);
  }

  lemma {:induction false} RangeCounted(table: Table, asOf: int, r: Range, over: int, upTo: Option<int>)
    requires forall inv :: InRange(inv, asOf, r) <==> IsAged(inv, asOf, over, upTo)
    ensures CountIn(table, asOf, r) == |AgedAt(table, asOf, over, upTo)|
    ensures AmountIn(table, asOf, r) == SumAt(table, AgedAt(table, asOf, over, upTo))
  {
    if table != [] {
      var before, last := table[..|table| - 1], table[|table| - 1];
      RangeCounted(before, asOf, r, over, upTo);
      assert table == before + [last];
      CountInAppend(before, asOf, r, last);
      AgedNext(before, last, asOf, over, upTo);
      SumAtNext(before, last, AgedAt(before, asOf, over, upTo), IsAged(last, asOf, over, upTo));
    }
  }

  /** A line of the report: the label, how many positions it covers and what they add up to; none for no positions. */
  function Line(title: string, table: Table, at: set<nat>): seq<AgingBucket> {
    if at == {} then [] else [AgingBucket(title, |at|, SumAt(table, at))]
  }

  /** The report says, label by label, what is owed since how long. */
  lemma ReportSays(table: Table, asOf: int)
    ensures Buckets(table, asOf, Ranges(asOf))
         == Line("0-7 hari", table, AgedAt(table, asOf, 0, Some(7 * DAY)))
          + Line("8-14 hari", table, AgedAt(table, asOf, 7 * DAY, Some(14 * DAY)))
          + Line("15-30 hari", table, AgedAt(table, asOf, 14 * DAY, Some(30 * DAY)))
          + Line(">30 hari", table, AgedAt(table, asOf, 30 * DAY, None))
  {
    var r := Ranges(asOf);
    RangeCounted(table, asOf, r[0], 0, Some(7 * DAY));
    RangeCounted(table, asOf, r[1], 7 * DAY, Some(14 * DAY));
    RangeCounted(table, asOf, r[2], 14 * DAY, Some(30 * DAY));
    RangeCounted(table, asOf, r[3], 30 * DAY, None);
    FourLines(table, asOf, r);
  }

  /** The report adds up: counts and amounts of the buckets shown sum to CountOverdue at the same instant. */
  lemma AgingAddsUp(table: Table, asOf: int)
    ensures CountOf(Buckets(table, asOf, Ranges(asOf))) == CountIn(table, asOf, ANYTIME)
    ensures AmountOf(Buckets(table, asOf, Ranges(asOf))) == AmountIn(table, asOf, ANYTIME)
  {
    var r := Ranges(asOf);
    FourBuckets(table, asOf, r);
    CountsAdd(table, asOf);
    AmountsAdd(table, asOf);
  }
}
