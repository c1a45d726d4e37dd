/** The payments table, and the division of a refund over the payments that
    fund it (internal/payments/refund.go). */
module Ledger {
  import opened Common

  type Code = string

  datatype Kind = Deposit | Full | Balance | Refund | Unknown

  datatype Outcome = Succeeded | Failed

  datatype Payment = Payment(code: Code, stripeId: string, kind: Kind, amount: int, outcome: Outcome)

  /** One payment, or the slice of one that has to go back. */
  datatype Part = Part(intent: string, amount: int)

  // ---------------------------------------------------------------- the table

  predicate HasRow(rows: seq<Payment>, id: string, outcome: Outcome) {
    exists i :: 0 <= i < |rows| && rows[i].stripeId == id && rows[i].outcome == outcome
  }

  /** INSERT ... ON CONFLICT (stripe_id, status) DO NOTHING. */
  function Record(rows: seq<Payment>, p: Payment): seq<Payment> {
    if HasRow(rows, p.stripeId, p.outcome) then rows else rows + [p]
  }

  predicate SameKey(p: Payment, q: Payment) {
    p.stripeId == q.stripeId && p.outcome == q.outcome
  }

  ghost predicate KeysUnique(rows: seq<Payment>) {
    forall i, j :: 0 <= i < j < |rows| ==> !SameKey(rows[i], rows[j])
  }

  ghost predicate AmountsPositive(rows: seq<Payment>) {
    forall i :: 0 <= i < |rows| ==> rows[i].amount > 0
  }

  predicate IsCharge(p: Payment, code: Code) {
    p.code == code && p.outcome == Succeeded && p.kind != Refund
  }

  predicate IsRefund(p: Payment, code: Code) {
    p.code == code && p.outcome == Succeeded && p.kind == Refund
  }

  /** What has been collected for a booking, in ledger order. */
  function Charges(rows: seq<Payment>, code: Code): seq<Part> {
    if |rows| == 0 then []
    else
      var init, last := Charges(rows[..|rows| - 1], code), rows[|rows| - 1];
      if IsCharge(last, code) then init + [Part(last.stripeId, last.amount)] else init
  }

  /** The amounts already sent back for a booking, in ledger order. */
  function Refunds(rows: seq<Payment>, code: Code): seq<int> {
    if |rows| == 0 then []
    else
      var init, last := Refunds(rows[..|rows| - 1], code), rows[|rows| - 1];
      if IsRefund(last, code) then init + [last.amount] else init
  }

  function Amounts(parts: seq<Part>): seq<int> {
    seq(|parts|, i requires 0 <= i < |parts| => parts[i].amount)
  }

  function Total(parts: seq<Part>): int {
    Sum(Amounts(parts))
  }

  /** The sum of the succeeded rows that are not refunds. */
  function Gross(rows: seq<Payment>, code: Code): int {
    Total(Charges(rows, code))
  }

  lemma {:induction false} AppendRow(rows: seq<Payment>, p: Payment, code: Code)
    ensures Charges(rows + [p], code)
         == if IsCharge(p, code) then Charges(rows, code) + [Part(p.stripeId, p.amount)] else Charges(rows, code)
    ensures Refunds(rows + [p], code)
         == if IsRefund(p, code) then Refunds(rows, code) + [p.amount] else Refunds(rows, code)
    ensures Gross(rows + [p], code) == Gross(rows, code) + if IsCharge(p, code) then p.amount else 0
  {
    assert (rows + [p])[..|rows|] == rows;
    if IsCharge(p, code) {
      TotalAppend(Charges(rows, code), Part(p.stripeId, p.amount));
    }
  }

  lemma {:induction false} TotalAppend(parts: seq<Part>, p: Part)
    ensures Amounts(parts + [p]) == Amounts(parts) + [p.amount]
    ensures Total(parts + [p]) == Total(parts) + p.amount
  {
    assert Amounts(parts + [p]) == Amounts(parts) + [p.amount];
    SumAppend(Amounts(parts), p.amount);
  }

  lemma {:induction false} TotalConcat(xs: seq<Part>, ys: seq<Part>)
    ensures Total(xs + ys) == Total(xs) + Total(ys)
  {
    assert Amounts(xs + ys) == Amounts(xs) + Amounts(ys);
    SumConcat(Amounts(xs), Amounts(ys));
  }

  lemma {:induction false} RecordKeepsKeys(rows: seq<Payment>, p: Payment)
    requires KeysUnique(rows) && AmountsPositive(rows) && p.amount > 0
    ensures KeysUnique(Record(rows, p)) && AmountsPositive(Record(rows, p))
    ensures HasRow(Record(rows, p), p.stripeId, p.outcome)
    ensures rows <= Record(rows, p)
  {
    if !HasRow(rows, p.stripeId, p.outcome) {
      assert (rows + [p])[|rows|] == p;
    }
  }

  ghost predicate IntentsDistinct(parts: seq<Part>) {
    forall i, j :: 0 <= i < j < |parts| ==> parts[i].intent != parts[j].intent
  }

  ghost predicate PartsPositive(parts: seq<Part>) {
    forall i :: 0 <= i < |parts| ==> parts[i].amount > 0
  }

  lemma {:induction false} ChargeComesFromRow(rows: seq<Payment>, code: Code, i: nat) returns (k: nat)
    requires i < |Charges(rows, code)|
    ensures k < |rows| && IsCharge(rows[k], code) && Charges(rows, code)[i] == Part(rows[k].stripeId, rows[k].amount)
  {
    var init := rows[..|rows| - 1];
    if i < |Charges(init, code)| {
      k := ChargeComesFromRow(init, code, i);
    } else {
      k := |rows| - 1;
    }
  }

  /** The unique key makes every collected payment its own intent. */
  lemma {:induction false} ChargesAreDistinctIntents(rows: seq<Payment>, code: Code)
    requires KeysUnique(rows) && AmountsPositive(rows)
    ensures IntentsDistinct(Charges(rows, code)) && PartsPositive(Charges(rows, code))
  {
    if |rows| > 0 {
      var init, last := rows[..|rows| - 1], rows[|rows| - 1];
      ChargesAreDistinctIntents(init, code);
      if IsCharge(last, code) {
        forall i | 0 <= i < |Charges(init, code)| ensures Charges(init, code)[i].intent != last.stripeId {
          var k := ChargeComesFromRow(init, code, i);
          assert rows[k] == init[k] && !SameKey(rows[k], rows[|rows| - 1]);
        }
      }
    }
  }

  lemma {:induction false} RefundsPositive(rows: seq<Payment>, code: Code)
    requires AmountsPositive(rows)
    ensures forall i :: 0 <= i < |Refunds(rows, code)| ==> Refunds(rows, code)[i] > 0
  {
    if |rows| > 0 {
      RefundsPositive(rows[..|rows| - 1], code);
    }
  }

  // ---------------------------------------------------------------- the division

  /** What a booking's ledger says when a refund job reads it. */
  datatype Reading = Reading(charges: seq<Part>, refunded: seq<int>)

  function Read(rows: seq<Payment>, code: Code): Reading {
    Reading(Charges(rows, code), Refunds(rows, code))
  }

  /** Payments are filled in ledger order, each before the next is touched. */
  function Fill(charges: seq<Part>, remaining: int): seq<Part> {
    if |charges| == 0 || remaining <= 0 then []
    else
      var part := Min(charges[0].amount, remaining);
      [Part(charges[0].intent, part)] + Fill(charges[1..], remaining - part)
  }

  /** A target of zero means everything; the loop adds to whatever it was given. */
  function Target(charges: seq<Part>, target: int): int {
    if target <= 0 then target + Total(charges) else target
  }

  function Division(charges: seq<Part>, target: int): seq<Part> {
    Fill(charges, Target(charges, target))
  }

  /** The first place at or after `from` holding this amount, -1 when there is none. */
  function IndexFrom(amounts: seq<int>, want: int, from: nat): (i: int)
    requires from <= |amounts|
    ensures i == -1 || (from <= i < |amounts| && amounts[i] == want)
    ensures i == -1 ==> forall k :: from <= k < |amounts| ==> amounts[k] != want
    decreases |amounts| - from
  {
    if from == |amounts| then -1
    else if amounts[from] == want then from
    else IndexFrom(amounts, want, from + 1)
  }

  function Without(amounts: seq<int>, i: int): seq<int>
    requires 0 <= i < |amounts|
  {
    amounts[..i] + amounts[i + 1..]
  }

  /** The slices left to send and the recorded refunds no slice accounts for. */
  function DropRecorded(parts: seq<Part>, done: seq<int>): (seq<Part>, seq<int>) {
    if |parts| == 0 then ([], done)
    else
      var i := IndexFrom(done, parts[0].amount, 0);
      if i >= 0 then DropRecorded(parts[1..], Without(done, i))
      else
        var (rest, left) := DropRecorded(parts[1..], done);
        ([parts[0]] + rest, left)
  }

  function Allocation(l: Reading, target: int): seq<Part> {
    DropRecorded(Division(l.charges, target), l.refunded).0
  }

  method IndexOf(amounts: seq<int>, want: int) returns (i: int)
    ensures i == IndexFrom(amounts, want, 0)
    ensures i == -1 <==> want !in amounts
  {
    for k := 0 to |amounts|
      invariant IndexFrom(amounts, want, 0) == IndexFrom(amounts, want, k)
    {
      if amounts[k] == want {
        return k;
      }
    }
    return -1;
  }

  lemma {:induction false} FillStep(parts: seq<Part>, charges: seq<Part>, k: nat, remaining: int)
    requires k < |charges| && remaining > 0
    ensures var part := Min(charges[k].amount, remaining);
      parts + [Part(charges[k].intent, part)] + Fill(charges[k + 1..], remaining - part)
      == parts + Fill(charges[k..], remaining)
  {
    assert charges[k..][1..] == charges[k + 1..];
  }

  lemma {:induction false} DropStep(out: seq<Part>, parts: seq<Part>, j: nat, done: seq<int>)
    requires j < |parts|
    ensures var i := IndexFrom(done, parts[j].amount, 0);
      out + DropRecorded(parts[j..], done).0
      == if i >= 0 then out + DropRecorded(parts[j + 1..], Without(done, i)).0
         else (out + [parts[j]]) + DropRecorded(parts[j + 1..], done).0
  {
    assert parts[j..][1..] == parts[j + 1..];
  }

  /** Divides a refund over the payments, then skips the slices already sent. */
  method Allocate(l: Reading, target: int) returns (out: seq<Part>)
    ensures out == Allocation(l, target)
  {
    var cents := target;
    if target <= 0 {
      for k := 0 to |l.charges|
        invariant cents == target + Total(l.charges[..k])
      {
        assert l.charges[..k + 1] == l.charges[..k] + [l.charges[k]];
        TotalAppend(l.charges[..k], l.charges[k]);
        cents := cents + l.charges[k].amount;
      }
      assert l.charges[..|l.charges|] == l.charges;
    }
    var parts := FillInOrder(l.charges, cents);
    out := SkipRecorded(parts, l.refunded);
  }

  /** The first loop of the division: fill each payment before the next. */
  method FillInOrder(charges: seq<Part>, cents: int) returns (parts: seq<Part>)
    ensures parts == Fill(charges, cents)
  {
    parts := [];
    var remaining, k := cents, 0;
    while k < |charges| && remaining > 0
      invariant 0 <= k <= |charges|
      invariant parts + Fill(charges[k..], remaining) == Fill(charges, cents)
    {
      FillStep(parts, charges, k, remaining);
      var part := charges[k].amount;
      if part > remaining {
        part := remaining;
      }
      remaining := remaining - part;
      parts := parts + [Part(charges[k].intent, part)];
      k := k + 1;
    }
  }

  /** The second loop: match each slice against one recorded amount. */
  method SkipRecorded(parts: seq<Part>, refunded: seq<int>) returns (out: seq<Part>)
    ensures out == DropRecorded(parts, refunded).0
  {
    out := [];
    var done := refunded;
    for j := 0 to |parts|
      invariant out + DropRecorded(parts[j..], done).0 == DropRecorded(parts, refunded).0
    {
      DropStep(out, parts, j, done);
      var i := IndexOf(done, parts[j].amount);
      if i >= 0 {
        done := done[..i] + done[i + 1..];
      } else {
        out := out + [parts[j]];
      }
    }
  }

  // ---------------------------------------------------------------- what it promises

  lemma {:induction false} TotalSplit(charges: seq<Part>)
    requires |charges| > 0
    ensures Total(charges) == charges[0].amount + Total(charges[1..])
  {
    assert charges == [charges[0]] + charges[1..];
    TotalConcat([charges[0]], charges[1..]);
    assert Amounts([charges[0]]) == [] + [charges[0].amount];
    SumAppend([], charges[0].amount);
  }

  lemma {:induction false} TotalPositive(charges: seq<Part>)
    requires PartsPositive(charges)
    ensures Total(charges) >= 0 && (charges != [] ==> Total(charges) > 0)
  {
    if |charges| > 0 {
      TotalSplit(charges);
      TotalPositive(charges[1..]);
    }
  }

  /** The slices add up to the target, or to everything when that is less. */
  lemma {:induction false} FillTotal(charges: seq<Part>, remaining: int)
    requires PartsPositive(charges) && remaining >= 0
    ensures Total(Fill(charges, remaining)) == Min(remaining, Total(charges))
  {
    TotalPositive(charges);
    if |charges| > 0 && remaining > 0 {
      var part := Min(charges[0].amount, remaining);
      FillTotal(charges[1..], remaining - part);
      TotalSplit(charges);
      var filled := Fill(charges, remaining);
      assert filled[1..] == Fill(charges[1..], remaining - part);
      TotalSplit(filled);
      TotalPositive(charges[1..]);
    }
  }

  /** Slice i comes out of payment i, whole unless it is the last one. */
  lemma {:induction false} FillShape(charges: seq<Part>, remaining: int)
    requires PartsPositive(charges)
    ensures var parts := Fill(charges, remaining);
      && |parts| <= |charges|
      && (forall i :: 0 <= i < |parts| ==>
           parts[i].intent == charges[i].intent && 0 < parts[i].amount <= charges[i].amount)
      && (forall i :: 0 <= i < |parts| - 1 ==> parts[i] == charges[i])
  {
    if |charges| > 0 && remaining > 0 {
      var part := Min(charges[0].amount, remaining);
      FillShape(charges[1..], remaining - part);
    }
  }

  /** A payment that lands later never changes a slice already decided. */
  lemma {:induction false} FillExtends(charges: seq<Part>, later: seq<Part>, remaining: int)
    requires PartsPositive(charges)
    ensures Fill(charges, remaining) <= Fill(charges + later, remaining)
    ensures remaining <= Total(charges) ==> Fill(charges, remaining) == Fill(charges + later, remaining)
  {
    if |charges| > 0 && remaining > 0 {
      var part := Min(charges[0].amount, remaining);
      FillExtends(charges[1..], later, remaining - part);
      assert (charges + later)[1..] == charges[1..] + later;
      TotalSplit(charges);
    } else if |charges| == 0 {
      assert Amounts(charges) == [];
    }
  }

  lemma {:induction false} FillEverything(charges: seq<Part>, cents: int)
    requires PartsPositive(charges) && cents >= Total(charges)
    ensures Fill(charges, cents) == charges
  {
    if |charges| > 0 {
      TotalSplit(charges);
      TotalPositive(charges[1..]);
      FillEverything(charges[1..], cents - charges[0].amount);
    }
  }

  /** What a refund of this target comes to against these payments. */
  function Owed(charges: seq<Part>, target: int): int {
    if target <= 0 then Total(charges) else Min(target, Total(charges))
  }

  lemma {:induction false} DivisionTotal(charges: seq<Part>, target: int)
    requires PartsPositive(charges) && target >= 0
    ensures Total(Division(charges, target)) == Owed(charges, target)
  {
    TotalPositive(charges);
    FillTotal(charges, Target(charges, target));
  }

  /** Appending payments extends the division. It changes nothing when the old
      payments cover a positive target, and adds exactly the new payments when
      the target is everything. */
  lemma {:induction false} DivisionExtends(charges: seq<Part>, later: seq<Part>, target: int)
    requires PartsPositive(charges) && PartsPositive(later) && target >= 0
    ensures Division(charges, target) <= Division(charges + later, target)
    ensures 0 < target <= Total(charges) ==> Division(charges + later, target) == Division(charges, target)
    ensures target == 0 ==> Division(charges + later, target) == Division(charges, target) + later
  {
    if target == 0 {
      FillEverything(charges, Total(charges));
      FillEverything(charges + later, Total(charges + later));
    } else {
      FillExtends(charges, later, target);
    }
  }

  lemma {:induction false} WithoutOne(done: seq<int>, i: nat)
    requires i < |done|
    ensures multiset(done) == multiset(Without(done, i)) + multiset{done[i]}
  {
    assert done == done[..i] + [done[i]] + done[i + 1..];
  }

  lemma {:induction false} SumMiddle(a: seq<int>, x: int, b: seq<int>)
    ensures Sum(a + [x] + b) == Sum(a + b) + x
  {
    SumConcat(a + [x], b);
    SumAppend(a, x);
    SumConcat(a, b);
  }

  lemma {:induction false} SplitAt(done: seq<int>, i: nat)
    requires i < |done|
    ensures done == done[..i] + [done[i]] + done[i + 1..]
  {
  }

  lemma {:induction false} SumWithout(done: seq<int>, i: nat)
    requires i < |done|
    ensures Sum(done) == Sum(Without(done, i)) + done[i]
  {
    SplitAt(done, i);
    SumMiddle(done[..i], done[i], done[i + 1..]);
  }

  lemma {:induction false} AmountsCons(parts: seq<Part>)
    requires |parts| > 0
    ensures multiset(Amounts(parts)) == multiset{parts[0].amount} + multiset(Amounts(parts[1..]))
  {
    assert Amounts(parts) == [parts[0].amount] + Amounts(parts[1..]);
  }

  lemma {:induction false} DropNothing(parts: seq<Part>, done: seq<int>)
    requires forall i :: 0 <= i < |parts| ==> parts[i].amount !in done
    ensures DropRecorded(parts, done) == (parts, done)
  {
    if |parts| > 0 {
      DropNothing(parts[1..], done);
      assert parts == [parts[0]] + parts[1..];
    }
  }

  lemma {:induction false} DropPrefix(parts: seq<Part>, n: nat, done: seq<int>)
    requires n <= |parts|
    requires multiset(done) == multiset(Amounts(parts[..n]))
    ensures DropRecorded(parts, done).0 == parts[n..]
  {
    if n == 0 {
      NothingRecorded(parts, done);
      DropNothing(parts, []);
    } else {
      var i := FirstIsRecorded(parts, n, done);
      DropPrefix(parts[1..], n - 1, Without(done, i));
      assert parts[1..][n - 1..] == parts[n..];
    }
  }

  lemma {:induction false} NothingRecorded(parts: seq<Part>, done: seq<int>)
    requires multiset(done) == multiset(Amounts(parts[..0]))
    ensures done == []
  {
    assert Amounts(parts[..0]) == [];
    assert |multiset(done)| == |done|;
  }

  /** The first slice of the stretch is found, and taking it out leaves the rest of it. */
  lemma {:induction false} FirstIsRecorded(parts: seq<Part>, n: nat, done: seq<int>) returns (i: int)
    requires 0 < n <= |parts| && multiset(done) == multiset(Amounts(parts[..n]))
    ensures i == IndexFrom(done, parts[0].amount, 0) && 0 <= i < |done|
    ensures multiset(Without(done, i)) == multiset(Amounts(parts[1..][..n - 1]))
  {
    i := IndexFrom(done, parts[0].amount, 0);
    AmountsCons(parts[..n]);
    assert parts[..n][1..] == parts[1..][..n - 1];
    assert parts[0].amount in multiset(done);
    assert parts[0].amount in done;
    WithoutOne(done, i);
    TakeOne(multiset(done), multiset(Without(done, i)), multiset(Amounts(parts[1..][..n - 1])), parts[0].amount);
  }

  lemma {:induction false} TakeOne(m: multiset<int>, a: multiset<int>, b: multiset<int>, x: int)
    requires m == a + multiset{x} && m == multiset{x} + b
    ensures a == b
  {
    assert a == m - multiset{x} && b == m - multiset{x};
  }

  /** A retry picks up exactly where the records stop: when the recorded refunds
      are the amounts of the first n slices, in any order and with equal amounts
      allowed, what is allocated is the rest of the division, in order. */
  lemma {:induction false} AllocateResumesExactly(l: Reading, target: int, n: nat)
    requires n <= |Division(l.charges, target)|
    requires multiset(l.refunded) == multiset(Amounts(Division(l.charges, target)[..n]))
    ensures Allocation(l, target) == Division(l.charges, target)[n..]
  {
    DropPrefix(Division(l.charges, target), n, l.refunded);
  }

  lemma {:induction false} DropTotals(parts: seq<Part>, done: seq<int>)
    ensures Total(DropRecorded(parts, done).0) + Sum(done) == Total(parts) + Sum(DropRecorded(parts, done).1)
  {
    if |parts| > 0 {
      var i := IndexFrom(done, parts[0].amount, 0);
      TotalSplit(parts);
      if i >= 0 {
        SumWithout(done, i);
        DropTotals(parts[1..], Without(done, i));
      } else {
        DropTotals(parts[1..], done);
        var rest := DropRecorded(parts[1..], done).0;
        assert ([parts[0]] + rest)[1..] == rest;
        TotalSplit([parts[0]] + rest);
      }
    }
  }

  lemma {:induction false} DropLeavesSome(parts: seq<Part>, done: seq<int>)
    ensures forall x :: x in DropRecorded(parts, done).1 ==> x in done
  {
    if |parts| > 0 {
      var i := IndexFrom(done, parts[0].amount, 0);
      DropLeavesSome(parts[1..], if i >= 0 then Without(done, i) else done);
    }
  }

  function Times(xs: seq<int>, x: int): nat {
    multiset(xs)[x]
  }

  /** Every recorded amount is a slice of its own: no amount was recorded more
      often than the division has slices of it. */
  ghost predicate AllSlices(done: seq<int>, parts: seq<Part>) {
    forall x :: Times(done, x) <= Times(Amounts(parts), x)
  }

  lemma {:induction false} DropLeavesNothing(parts: seq<Part>, done: seq<int>)
    ensures DropRecorded(parts, done).1 == [] <==> AllSlices(done, parts)
  {
    if |parts| == 0 {
      NoSlices(parts, done);
    } else {
      var i := IndexFrom(done, parts[0].amount, 0);
      if i >= 0 {
        DropLeavesNothing(parts[1..], Without(done, i));
        SliceMatched(parts, done, i);
      } else {
        DropLeavesNothing(parts[1..], done);
        SliceUnmatched(parts, done);
      }
    }
  }

  lemma {:induction false} NoSlices(parts: seq<Part>, done: seq<int>)
    requires |parts| == 0
    ensures AllSlices(done, parts) <==> done == []
  {
    assert Amounts(parts) == [];
    if done != [] {
      assert Times(done, done[0]) > 0;
    }
  }

  lemma {:induction false} TimesWithout(done: seq<int>, i: nat, x: int)
    requires i < |done|
    ensures Times(done, x) == Times(Without(done, i), x) + if x == done[i] then 1 else 0
  {
    WithoutOne(done, i);
  }

  lemma {:induction false} TimesCons(parts: seq<Part>, x: int)
    requires |parts| > 0
    ensures Times(Amounts(parts), x) == Times(Amounts(parts[1..]), x) + if x == parts[0].amount then 1 else 0
  {
    AmountsCons(parts);
  }

  lemma {:induction false} SliceMatched(parts: seq<Part>, done: seq<int>, i: nat)
    requires |parts| > 0 && i < |done| && done[i] == parts[0].amount
    ensures AllSlices(Without(done, i), parts[1..]) <==> AllSlices(done, parts)
  {
    forall x
      ensures Times(Without(done, i), x) <= Times(Amounts(parts[1..]), x)
          <==> Times(done, x) <= Times(Amounts(parts), x)
    {
      TimesWithout(done, i, x);
      TimesCons(parts, x);
    }
  }

  lemma {:induction false} SliceUnmatched(parts: seq<Part>, done: seq<int>)
    requires |parts| > 0 && parts[0].amount !in done
    ensures AllSlices(done, parts[1..]) <==> AllSlices(done, parts)
  {
    forall x ensures Times(done, x) <= Times(Amounts(parts[1..]), x) <==> Times(done, x) <= Times(Amounts(parts), x) {
      TimesCons(parts, x);
      if x == parts[0].amount {
        assert Times(done, x) == 0;
      }
    }
  }

  lemma {:induction false} SumPositive(xs: seq<int>)
    requires forall i :: 0 <= i < |xs| ==> xs[i] > 0
    ensures Sum(xs) >= 0 && (xs != [] ==> Sum(xs) > 0)
  {
    if xs != [] {
      SumPositive(xs[..|xs| - 1]);
    }
  }

  lemma {:induction false} DropExceeds(parts: seq<Part>, done: seq<int>)
    requires forall i :: 0 <= i < |done| ==> done[i] > 0
    ensures Total(DropRecorded(parts, done).0) + Sum(done) >= Total(parts)
    ensures Total(DropRecorded(parts, done).0) + Sum(done) == Total(parts) <==> DropRecorded(parts, done).1 == []
  {
    DropTotals(parts, done);
    DropLeavesSome(parts, done);
    var left := DropRecorded(parts, done).1;
    forall i | 0 <= i < |left| ensures left[i] > 0 {
      var x := left[i];
      assert x in left;
      assert x in done;
    }
    SumPositive(left);
    assert Sum([]) == 0;
  }

  /** Matching by amount is exact when every recorded refund is a slice of this
      division: then what is recorded and what is allocated come to what is
      owed. A recorded refund of any other size is not recognised, and the two
      together then exceed it. */
  lemma {:induction false} RefundsAddUpExactlyWhenEveryOneIsASlice(l: Reading, target: int)
    requires PartsPositive(l.charges) && target >= 0
    requires forall i :: 0 <= i < |l.refunded| ==> l.refunded[i] > 0
    ensures Total(Allocation(l, target)) + Sum(l.refunded) >= Owed(l.charges, target)
    ensures Total(Allocation(l, target)) + Sum(l.refunded) == Owed(l.charges, target)
       <==> AllSlices(l.refunded, Division(l.charges, target))
  {
    DivisionTotal(l.charges, target);
    DropExceeds(Division(l.charges, target), l.refunded);
    DropLeavesNothing(Division(l.charges, target), l.refunded);
  }

  /** What no slice accounts for is what was recorded less what the slices come to,
      amount for amount. */
  lemma {:induction false} DropLeavesTheDifference(parts: seq<Part>, done: seq<int>, x: int)
    ensures var recorded, sliced := Times(done, x), Times(Amounts(parts), x);
      Times(DropRecorded(parts, done).1, x) == if recorded > sliced then recorded - sliced else 0
  {
    hide Times, Amounts;
    if |parts| == 0 {
      NoTimes(parts, x);
    } else {
      var i := IndexFrom(done, parts[0].amount, 0);
      TimesCons(parts, x);
      if i >= 0 {
        TimesWithout(done, i, x);
        DropLeavesTheDifference(parts[1..], Without(done, i), x);
      } else {
        DropLeavesTheDifference(parts[1..], done, x);
        if x == parts[0].amount {
          AbsentNoTimes(done, x);
        }
      }
    }
  }

  lemma {:induction false} NoTimes(parts: seq<Part>, x: int)
    requires |parts| == 0
    ensures Times(Amounts(parts), x) == 0
  {
    assert Amounts(parts) == [];
  }

  lemma {:induction false} AbsentNoTimes(xs: seq<int>, x: int)
    ensures x in xs <==> Times(xs, x) > 0
  {
  }

  lemma {:induction false} SplitTimes(parts: seq<Part>, n: nat, x: int)
    requires n <= |parts|
    ensures Times(Amounts(parts), x) == Times(Amounts(parts[..n]), x) + Times(Amounts(parts[n..]), x)
  {
    assert Amounts(parts) == Amounts(parts[..n]) + Amounts(parts[n..]);
  }

  /** Every slice of a share but the last is a payment returned whole, so it is matched
      when everything is divided instead. The last may not be. */
  lemma {:induction false} OnlyTheLastSliceIsLeft(slices: seq<Part>, all: seq<Part>)
    requires 0 < |slices| <= |all| && slices[..|slices| - 1] == all[..|slices| - 1]
    ensures var n := |slices| - 1; var last := slices[n].amount;
      DropRecorded(all, Amounts(slices)).1 == if last in Amounts(all[n..]) then [] else [last]
  {
    hide DropRecorded, Amounts, Times;
    var n := |slices| - 1;
    var last, left := slices[n].amount, DropRecorded(all, Amounts(slices)).1;
    AbsentNoTimes(Amounts(all[n..]), last);
    AmountsOfOne(slices[n]);
    assert slices[n..] == [slices[n]];
    forall x ensures Times(left, x) == if x == last && last !in Amounts(all[n..]) then 1 else 0 {
      DropLeavesTheDifference(all, Amounts(slices), x);
      SplitTimes(slices, n, x);
      SplitTimes(all, n, x);
      TimesOfOne(last, x);
    }
    if last in Amounts(all[n..]) {
      NothingCounted(left);
    } else {
      OneCounted(left, last);
    }
  }

  lemma {:induction false} AmountsOfOne(p: Part)
    ensures Amounts([p]) == [p.amount]
  {
  }

  lemma {:induction false} TimesOfOne(a: int, x: int)
    ensures Times([a], x) == if x == a then 1 else 0
  {
  }

  lemma {:induction false} NothingCounted(xs: seq<int>)
    requires forall x :: Times(xs, x) == 0
    ensures xs == []
  {
    hide Times;
    if xs != [] {
      AbsentNoTimes(xs, xs[0]);
    }
  }

  lemma {:induction false} OneCounted(xs: seq<int>, a: int)
    requires forall x :: Times(xs, x) == if x == a then 1 else 0
    ensures xs == [a]
  {
    hide Times;
    AbsentNoTimes(xs, a);
    AbsentNoTimes(xs, xs[0]);
    forall x ensures Times(Without(xs, 0), x) == 0 {
      TimesWithout(xs, 0, x);
    }
    NothingCounted(Without(xs, 0));
    SplitAt(xs, 0);
  }

  /** A share of the payments is sent back, more payments land, and then everything is to
      go back. What is asked for comes, with the share, to exactly what was collected when
      the share's last slice is the amount of its own payment or of one after it, and
      otherwise to that slice more. */
  lemma {:induction false} EverythingAfterAShare(charges: seq<Part>, later: seq<Part>, target: int)
    requires PartsPositive(charges) && PartsPositive(later) && 0 < target <= Total(charges)
    ensures var slices := Division(charges, target); var all, n := charges + later, |slices| - 1;
      && 0 <= n < |charges| && Sum(Amounts(slices)) == target
      && Total(Allocation(Reading(all, Amounts(slices)), 0)) + target
         == Total(all) + if slices[n].amount in Amounts(all[n..]) then 0 else slices[n].amount
  {
    var slices, all := Division(charges, target), charges + later;
    assert charges != [] by {
      assert Amounts([]) == [];
    }
    FillShape(charges, target);
    DivisionTotal(charges, target);
    var n := |slices| - 1;
    assert slices[..n] == all[..n];
    FillEverything(all, Total(all));
    OnlyTheLastSliceIsLeft(slices, all);
    DropTotals(all, Amounts(slices));
    SumAppend([], slices[n].amount);
    assert [] + [slices[n].amount] == [slices[n].amount];
  }

  /** A cancellation in good time sent back 485 of a 500 deposit, keeping the processor's
      3 percent; a 700 payment landed afterwards and everything is now to go back. The
      485 is no slice of [500, 700], so the deposit is asked for again in full. */
  lemma {:induction false} PartialRefundIsNotRecognisedLater()
    ensures var l := Reading([Part("pi_deposit", 500), Part("pi_balance", 700)], [485]);
      && Allocation(l, 0) == l.charges
      && Total(Allocation(l, 0)) + Sum(l.refunded) > Total(l.charges)
  {
    var l := Reading([Part("pi_deposit", 500), Part("pi_balance", 700)], [485]);
    FillEverything(l.charges, Total(l.charges));
    DropNothing(l.charges, l.refunded);
    SumPositive(l.refunded);
  }
}
