/** A stay cancelled, its refund sent, and its balance landing after all: where refunds
    matched by amount come to more than was collected. */
module LatePayments {
  import opened Common
  import opened Ledger
  import opened Inn
  import opened Protocol
  import opened ProtocolRuns
  import ProtocolSteps
  import RefundRuns
  import Pricing

  /** What the job for this share sends: the slices of the payments on the ledger. */
  function SlicesOf(db: Db, code: Code, share: int): seq<Part> {
    Allocation(Read(db.payments, code), share)
  }

  /** The record of a slice that went back. */
  function SliceSent(code: Code, id: string, part: Part): Charge {
    Charge(code, id, "", Refund, part.amount, "", "", false)
  }

  function SliceRow(code: Code, id: string, part: Part): Payment {
    Payment(code, id, Refund, part.amount, Succeeded)
  }

  /** The first n slices as the job records them, one report each. */
  function JobSends(code: Code, ids: seq<string>, parts: seq<Part>, n: nat): seq<Action>
    requires n <= |parts| <= |ids|
  {
    if n == 0 then []
    else JobSends(code, ids, parts, n - 1) + [DeliverRefund(SliceSent(code, ids[n - 1], parts[n - 1]))]
  }

  function SliceRows(code: Code, ids: seq<string>, parts: seq<Part>, n: nat): seq<Payment>
    requires n <= |parts| <= |ids|
  {
    if n == 0 then [] else SliceRows(code, ids, parts, n - 1) + [SliceRow(code, ids[n - 1], parts[n - 1])]
  }

  /** The guest cancels; the job sends the share slice by slice and ends; and a payment
      that was on its way lands. */
  function Afterwards(code: Code, on: int, ids: seq<string>, parts: seq<Part>, late: Charge): seq<Action>
    requires |parts| <= |ids|
  {
    [Cancel(code, on)] + JobSends(code, ids, parts, |parts|) + [FinishRefundJob(code), DeliverCharge(late)]
  }

  /** The ids the processor gives the slices: none blank, none used before, no two alike. */
  ghost predicate IdsAreNew(rows: seq<Payment>, ids: seq<string>) {
    && (forall i :: 0 <= i < |ids| ==> !Blank(ids[i]) && !HasRow(rows, ids[i], Succeeded))
    && forall i, j :: 0 <= i < j < |ids| ==> ids[i] != ids[j]
  }

  /** A confirmed stay nothing was ever returned on, whose guest now cancels and is owed
      a share; and a payment that was on its way, under an id of its own. */
  ghost predicate CancelsThenLands(db: Db, code: Code, on: int, ids: seq<string>, late: Charge) {
    && Inv(db) && IsConfirmed(db, code) && code !in db.refundJobs && Refunds(db.payments, code) == []
    && CancelStep(db, code, on).1.Cancellation? && Share(db, code, on) > 0
    && |ids| >= |SlicesOf(db, code, Share(db, code, on))| && IdsAreNew(db.payments, ids)
    && late.code == code && late.kind != Refund && Invalid(late).None? && !EventSeen(db, late)
    && !HasRow(db.payments, late.stripeId, Succeeded) && late.stripeId !in ids
    && Shortfall(db.bookings[code], late.amount) == 0
  }

  function Share(db: Db, code: Code, on: int): int {
    var (_, r) := CancelStep(db, code, on);
    if r.Cancellation? then r.refund else 0
  }

  lemma {:induction false} StaysSound(db: Db, a: Action)
    requires Inv(db) && Genuine(a)
    ensures Inv(Next(db, a))
  {
    ProtocolSteps.EveryStep(db, a);
  }

  // ---------------------------------------------------------------- the share goes back

  /** The share is never more than the ledger says was collected. */
  lemma {:induction false} ShareIsCovered(db: Db, code: Code, on: int)
    requires Inv(db) && IsConfirmed(db, code) && Share(db, code, on) > 0
    ensures Share(db, code, on) <= Gross(db.payments, code)
  {
    hide Release, Gross;
    assert BookingOk(db, code);
  }

  /** What the job sends is the division of the share. */
  lemma {:induction false} NothingSentYet(rows: seq<Payment>, code: Code, share: int)
    requires Refunds(rows, code) == []
    ensures Allocation(Read(rows, code), share) == Division(Charges(rows, code), share)
  {
    hide Charges, Refunds, Division;
    DropNothing(Division(Charges(rows, code), share), []);
  }

  /** The stay is cancelled, its money is where it was, and the rows follow the ledger. */
  ghost predicate Returned(db: Db, back: Db, code: Code, rows: seq<Payment>) {
    && Inv(back) && code in back.bookings && code in db.bookings
    && back.bookings[code] == db.bookings[code].(status := Cancelled)
    && back.payments == db.payments + rows && back.events == db.events
  }

  lemma {:induction false} CancelledKeepsMoney(db: Db, code: Code, on: int)
    requires Inv(db) && IsConfirmed(db, code) && code !in db.refundJobs && Share(db, code, on) > 0
    ensures var db' := Next(db, Cancel(code, on));
      Returned(db, db', code, []) && code in db'.refundJobs && db'.refundJobs[code] == Share(db, code, on)
  {
    hide Release, Inv;
    StaysSound(db, Cancel(code, on));
    assert db.payments + [] == db.payments;
  }

  lemma {:induction false} SliceRecorded(db: Db, code: Code, id: string, part: Part)
    requires code in db.bookings && !Blank(id) && part.amount > 0 && !HasRow(db.payments, id, Succeeded)
    ensures var db' := RefundStep(db, SliceSent(code, id, part)).0;
      && code in db'.bookings && db'.bookings[code] == db.bookings[code].(status := Cancelled)
      && db'.payments == db.payments + [SliceRow(code, id, part)] && db'.events == db.events
  {
    hide Release;
  }

  lemma {:induction false} NoRowYet(rows: seq<Payment>, code: Code, ids: seq<string>, parts: seq<Part>, n: nat,
        id: string)
    requires n <= |parts| <= |ids| && !HasRow(rows, id, Succeeded)
    requires forall i :: 0 <= i < n ==> ids[i] != id
    ensures !HasRow(rows + SliceRows(code, ids, parts, n), id, Succeeded)
  {
    if n == 0 {
      assert rows + [] == rows;
    } else {
      NoRowYet(rows, code, ids, parts, n - 1, id);
      var row := SliceRow(code, ids[n - 1], parts[n - 1]);
      RefundRuns.RowAddedOnlyThere(rows + SliceRows(code, ids, parts, n - 1), row, id);
      AppendOne(rows, SliceRows(code, ids, parts, n - 1), row);
    }
  }

  lemma {:induction false} AppendOne(a: seq<Payment>, b: seq<Payment>, p: Payment)
    ensures a + b + [p] == a + (b + [p])
  {
  }

  lemma {:induction false} SlicesComeBack(db: Db, cancelled: Db, code: Code, ids: seq<string>, parts: seq<Part>, n: nat)
    requires Returned(db, cancelled, code, []) && n <= |parts| <= |ids| && PartsPositive(parts)
    requires IdsAreNew(db.payments, ids)
    ensures Returned(db, Run(cancelled, JobSends(code, ids, parts, n)), code, SliceRows(code, ids, parts, n))
  {
    hide Inv, HasRow, RefundStep, Run;
    if n == 0 {
      RunNone(cancelled);
    } else {
      SlicesComeBack(db, cancelled, code, ids, parts, n - 1);
      var before := Run(cancelled, JobSends(code, ids, parts, n - 1));
      var sent := DeliverRefund(SliceSent(code, ids[n - 1], parts[n - 1]));
      RunOneMore(cancelled, JobSends(code, ids, parts, n - 1), sent);
      NoRowYet(db.payments, code, ids, parts, n - 1, ids[n - 1]);
      SliceRecorded(before, code, ids[n - 1], parts[n - 1]);
      AppendOne(db.payments, SliceRows(code, ids, parts, n - 1), SliceRow(code, ids[n - 1], parts[n - 1]));
      StaysSound(before, sent);
    }
  }

  lemma {:induction false} RunNone(db: Db)
    ensures Run(db, []) == db
  {
  }

  lemma {:induction false} RunOneMore(db: Db, actions: seq<Action>, a: Action)
    ensures Run(db, actions + [a]) == Next(Run(db, actions), a)
  {
    hide Next;
    assert (actions + [a])[..|actions|] == actions;
  }

  lemma {:induction false} SliceRowsAreRefunds(rows: seq<Payment>, code: Code, ids: seq<string>, parts: seq<Part>,
        n: nat)
    requires n <= |parts| <= |ids|
    ensures Charges(rows + SliceRows(code, ids, parts, n), code) == Charges(rows, code)
    ensures Refunds(rows + SliceRows(code, ids, parts, n), code) == Refunds(rows, code) + Amounts(parts[..n])
  {
    hide Charges, Refunds;
    if n == 0 {
      assert rows + [] == rows && Amounts(parts[..0]) == [];
    } else {
      SliceRowsAreRefunds(rows, code, ids, parts, n - 1);
      var row := SliceRow(code, ids[n - 1], parts[n - 1]);
      AppendRow(rows + SliceRows(code, ids, parts, n - 1), row, code);
      AppendOne(rows, SliceRows(code, ids, parts, n - 1), row);
      assert parts[..n] == parts[..n - 1] + [parts[n - 1]];
      TotalAppend(parts[..n - 1], parts[n - 1]);
    }
  }

  // ---------------------------------------------------------------- the payment lands

  /** The late payment finds the stay cancelled: everything is to go back. */
  lemma {:induction false} LandsOnCancelled(db: Db, back: Db, code: Code, rows: seq<Payment>, late: Charge)
    requires Returned(db, back, code, rows) && code !in back.refundJobs && late.code == code && late.kind != Refund
    requires Invalid(late).None? && !EventSeen(db, late) && !HasRow(back.payments, late.stripeId, Succeeded)
    requires Shortfall(db.bookings[code], late.amount) == 0
    ensures var (end, reply) := ChargeStep(back, late);
      && reply == RefundDue(db.bookings[code].paid + late.amount)
      && code in end.refundJobs && end.refundJobs[code] == 0
      && end.payments == back.payments + [ProtocolSteps.ChargeRow(late)]
  {
    hide Inv, SettleStay, Gross, HasRow;
    var paid := TakeMoney(NoteEvent(back, late), late);
    SettledAsCancelled(paid, late, back.bookings[code]);
    SettlingToRefund(paid, late, back.bookings[code]);
    ChargeRecords(back, late);
  }

  lemma {:induction false} SettledAsCancelled(db: Db, c: Charge, found: Booking)
    requires c.code in db.bookings && found.status == Cancelled
    ensures SettleStay(db, c, found).1 == RefundDue(found.paid + c.amount)
  {
    hide SecureRoom, CloseOut, ConfirmStay;
  }

  lemma {:induction false} RunAfterwards(db: Db, code: Code, on: int, ids: seq<string>, parts: seq<Part>, late: Charge)
    requires |parts| <= |ids|
    ensures Run(db, Afterwards(code, on, ids, parts, late))
         == Next(Next(Run(Next(db, Cancel(code, on)), JobSends(code, ids, parts, |parts|)), FinishRefundJob(code)),
              DeliverCharge(late))
  {
    hide Next, Run, JobSends;
    var sends := JobSends(code, ids, parts, |parts|);
    assert [] + [Cancel(code, on)] == [Cancel(code, on)];
    RunNone(db);
    RunOneMore(db, [], Cancel(code, on));
    RunConcat(db, [Cancel(code, on)], sends);
    RunConcat(db, [Cancel(code, on)] + sends, [FinishRefundJob(code), DeliverCharge(late)]);
    RunTwo(Run(db, [Cancel(code, on)] + sends), FinishRefundJob(code), DeliverCharge(late));
  }

  /** The tables at the end of it. */
  lemma {:induction false} LateTables(db: Db, code: Code, on: int, ids: seq<string>, late: Charge)
    requires CancelsThenLands(db, code, on, ids, late) && PartsPositive(SlicesOf(db, code, Share(db, code, on)))
    ensures var parts := SlicesOf(db, code, Share(db, code, on));
      var end := Run(db, Afterwards(code, on, ids, parts, late));
      && code in end.refundJobs && end.refundJobs[code] == 0
      && end.payments == db.payments + SliceRows(code, ids, parts, |parts|) + [ProtocolSteps.ChargeRow(late)]
  {
    hide Inv, CancelStep, ChargeStep, HasRow, Run, JobSends, SliceRows, SlicesOf, Share, Shortfall, Invalid;
    var parts := SlicesOf(db, code, Share(db, code, on));
    var cancelled := Next(db, Cancel(code, on));
    CancelledKeepsMoney(db, code, on);
    SlicesComeBack(db, cancelled, code, ids, parts, |parts|);
    var sent := Run(cancelled, JobSends(code, ids, parts, |parts|));
    StaysSound(sent, FinishRefundJob(code));
    NoRowYet(db.payments, code, ids, parts, |parts|, late.stripeId);
    LandsOnCancelled(db, Next(sent, FinishRefundJob(code)), code, SliceRows(code, ids, parts, |parts|), late);
    RunAfterwards(db, code, on, ids, parts, late);
  }

  lemma {:induction false} LateReading(rows: seq<Payment>, code: Code, ids: seq<string>, parts: seq<Part>, late: Charge)
    requires |parts| <= |ids| && Refunds(rows, code) == [] && late.code == code && late.kind != Refund
    ensures Read(rows + SliceRows(code, ids, parts, |parts|) + [ProtocolSteps.ChargeRow(late)], code)
         == Reading(Charges(rows, code) + [Part(late.stripeId, late.amount)], Amounts(parts))
  {
    hide Charges, Refunds, SliceRows, Amounts;
    SliceRowsAreRefunds(rows, code, ids, parts, |parts|);
    AppendRow(rows + SliceRows(code, ids, parts, |parts|), ProtocolSteps.ChargeRow(late), code);
    assert parts[..|parts|] == parts;
    assert [] + Amounts(parts) == Amounts(parts);
  }

  /** For every such stay, sent back as the job sends it. The job made by the cancellation
      is for the share, and its slices come to it. Once they are back, the late payment
      leaves a job for everything. What that asks for comes, with the share, to exactly what
      was collected if and only if the last slice is the amount of its own payment or of one
      after it, the late one included; otherwise that slice is asked for twice. */
  lemma {:induction false} LastSliceIsAskedForTwiceExactlyWhenItIsNoPayment(db: Db, code: Code, on: int,
        ids: seq<string>, late: Charge)
    requires CancelsThenLands(db, code, on, ids, late)
    ensures var share := Share(db, code, on); var parts := SlicesOf(db, code, share);
      var end := Run(db, Afterwards(code, on, ids, parts, late));
      var charges := Charges(db.payments, code) + [Part(late.stripeId, late.amount)];
      var last := |parts| - 1;
      && Next(db, Cancel(code, on)).refundJobs == db.refundJobs[code := share]
      && code in end.refundJobs && end.refundJobs[code] == 0
      && Read(end.payments, code) == Reading(charges, Amounts(parts)) && Sum(Amounts(parts)) == share
      && 0 <= last < |charges|
      && Total(Allocation(Read(end.payments, code), 0)) + share
         == Total(charges) + (if parts[last].amount in Amounts(charges[last..]) then 0 else parts[last].amount)
      && (Total(Allocation(Read(end.payments, code), 0)) + share > Total(charges)
          <==> parts[last].amount !in Amounts(charges[last..]))
  {
    hide Inv, CancelStep, Run, Allocation, Charges, Refunds, Division, Shortfall, SliceRows, IdsAreNew;
    var share, charges := Share(db, code, on), Charges(db.payments, code);
    ShareOverPayments(db, code, share, late, on);
    LateTables(db, code, on, ids, late);
    LateReading(db.payments, code, ids, SlicesOf(db, code, share), late);
    JobIsForTheShare(db, code, on);
  }

  lemma {:induction false} JobIsForTheShare(db: Db, code: Code, on: int)
    requires IsConfirmed(db, code) && code !in db.refundJobs && Share(db, code, on) > 0
    ensures Next(db, Cancel(code, on)).refundJobs == db.refundJobs[code := Share(db, code, on)]
  {
    hide Release;
  }

  /** The ledger's side of it. */
  lemma {:induction false} ShareOverPayments(db: Db, code: Code, share: int, late: Charge, on: int)
    requires Inv(db) && IsConfirmed(db, code) && Refunds(db.payments, code) == [] && late.amount > 0
    requires share == Share(db, code, on) > 0
    ensures var parts, last := SlicesOf(db, code, share), |SlicesOf(db, code, share)| - 1;
      var charges := Charges(db.payments, code) + [Part(late.stripeId, late.amount)];
      && PartsPositive(parts) && 0 <= last < |charges| && parts[last].amount > 0 && Sum(Amounts(parts)) == share
      && Total(Allocation(Reading(charges, Amounts(parts)), 0)) + share
         == Total(charges) + if parts[last].amount in Amounts(charges[last..]) then 0 else parts[last].amount
  {
    hide Inv, Charges, Refunds, Allocation, Share, Division;
    var charges := Charges(db.payments, code);
    ChargesOf(db, code);
    ShareIsCovered(db, code, on);
    NothingSentYet(db.payments, code, share);
    EverythingAfterAShare(charges, [Part(late.stripeId, late.amount)], share);
    DivisionPositive(charges, share);
  }

  lemma {:induction false} DivisionPositive(charges: seq<Part>, target: int)
    requires PartsPositive(charges)
    ensures PartsPositive(Division(charges, target))
  {
    FillShape(charges, Target(charges, target));
  }

  lemma {:induction false} ChargesOf(db: Db, code: Code)
    requires Inv(db)
    ensures PartsPositive(Charges(db.payments, code))
  {
    ChargesAreDistinctIntents(db.payments, code);
  }

  // ---------------------------------------------------------------- from nothing

  const OPENING := Settings(15, 60, 3_000)

  function StayOf1000(): Request {
    Request(["A", "B", "C"], Stay(1, 30, 33), Some(Pricing.Quote(1_000, 1_000, 0, 1_000, 500, 500)), 1_000, false,
      false, false)
  }

  function DepositPaid(): Charge {
    Charge("A", "pi_deposit", "evt_1", Deposit, 500, "cus", "pm", false)
  }

  function BalancePaid(): Charge {
    Charge("A", "pi_balance", "evt_2", Balance, 500, "cus", "pm", false)
  }

  function DepositStay(): Booking {
    Booking(Confirmed, [Stay(1, 30, 33)], 30, 33, 1_000, 500, 500, 500, Some(23), "", None, "cus", "pm", false, false,
      false)
  }

  lemma {:induction false} BookedAsPending()
    ensures var db := Next(Empty(OPENING, 0, 0), Create(StayOf1000()));
      && db.bookings == map["A" := DepositStay().(status := Pending, paid := 0, customer := "", paymentMethod := "")]
      && db.occupied == map[Stay(1, 30, 33) := Claim(Hold, Some("A"), Some(15))]
      && db.payments == [] && db.events == {} && db.refundJobs == map[] && db.settings == OPENING
  {
  }

  lemma {:induction false} HeldRoomIsPromoted()
    ensures SecureRoom(map[Stay(1, 30, 33) := Claim(Hold, Some("A"), Some(15))], "A", [Stay(1, 30, 33)]).0
  {
    var o: Occupied := map[Stay(1, 30, 33) := Claim(Hold, Some("A"), Some(15))];
    assert Stay(1, 30, 33) in o && HasHold(o, "A");
  }

  lemma {:induction false} DepositIsTaken(db: Db)
    requires db.bookings
        == map["A" := DepositStay().(status := Pending, paid := 0, customer := "", paymentMethod := "")]
    requires db.occupied == map[Stay(1, 30, 33) := Claim(Hold, Some("A"), Some(15))]
    requires db.payments == [] && db.events == {} && db.refundJobs == map[] && db.settings == OPENING
    ensures var db' := Next(db, DeliverCharge(DepositPaid()));
      && db'.bookings == map["A" := DepositStay()] && db'.events == {"evt_1"} && db'.refundJobs == map[]
      && db'.payments == [Payment("A", "pi_deposit", Deposit, 500, Succeeded)] && db'.settings == OPENING
  {
    hide SecureRoom, Blank;
    HeldRoomIsPromoted();
    NotBlank();
    assert [] + [Payment("A", "pi_deposit", Deposit, 500, Succeeded)]
      == [Payment("A", "pi_deposit", Deposit, 500, Succeeded)];
  }

  lemma {:induction false} DepositConfirms()
    ensures var db := Run(Empty(OPENING, 0, 0), [Create(StayOf1000()), DeliverCharge(DepositPaid())]);
      && Inv(db) && db.bookings == map["A" := DepositStay()] && db.events == {"evt_1"} && db.refundJobs == map[]
      && db.payments == [Payment("A", "pi_deposit", Deposit, 500, Succeeded)] && db.settings == OPENING
  {
    hide Inv, Next, Run;
    var empty := Empty(OPENING, 0, 0);
    EmptyIsFine(OPENING, 0, 0);
    EveryRun(empty, [Create(StayOf1000()), DeliverCharge(DepositPaid())]);
    RunTwo(empty, Create(StayOf1000()), DeliverCharge(DepositPaid()));
    BookedAsPending();
    DepositIsTaken(Next(empty, Create(StayOf1000())));
  }

  lemma {:induction false} NotBlank()
    ensures !Blank("evt_1") && !Blank("evt_2") && !Blank("pi_deposit") && !Blank("pi_balance") && !Blank("re_1")
  {
    assert "evt_1"[0] == 'e' && "evt_2"[0] == 'e' && "pi_deposit"[0] == 'p' && "pi_balance"[0] == 'p'
      && "re_1"[0] == 'r';
  }

  lemma {:induction false} ShareIs485(db: Db)
    requires "A" in db.bookings && db.bookings["A"] == DepositStay() && db.settings == OPENING
    ensures CancelStep(db, "A", 10).1.Cancellation? && Share(db, "A", 10) == 485
  {
    hide Release;
    assert Pricing.ProcessingFee(500, 3_000) == 15;
  }

  lemma {:induction false} LedgerOfDeposit()
    ensures var rows := [Payment("A", "pi_deposit", Deposit, 500, Succeeded)];
      && Charges(rows, "A") == [Part("pi_deposit", 500)] && Refunds(rows, "A") == []
  {
    var row := Payment("A", "pi_deposit", Deposit, 500, Succeeded);
    assert [row] == [] + [row];
    AppendRow([], row, "A");
    assert [] + [Part("pi_deposit", 500)] == [Part("pi_deposit", 500)];
  }

  lemma {:induction false} BothAskedWhole()
    ensures var charges := [Part("pi_deposit", 500), Part("pi_balance", 500)];
      && charges == [Part("pi_deposit", 500)] + [Part("pi_balance", 500)] && Amounts([Part("pi_deposit", 485)]) == [485]
      && Total(charges) == 1_000 && Allocation(Reading(charges, [485]), 0) == charges
  {
    var charges := [Part("pi_deposit", 500), Part("pi_balance", 500)];
    assert charges == [Part("pi_deposit", 500)] + [Part("pi_balance", 500)];
    TotalAppend([Part("pi_deposit", 500)], Part("pi_balance", 500));
    TotalAppend([], Part("pi_deposit", 500));
    assert [] + [Part("pi_deposit", 500)] == [Part("pi_deposit", 500)];
    assert Amounts([]) == [];
    FillEverything(charges, Total(charges));
    DropNothing(charges, [485]);
  }

  /** From empty tables: a stay of 1,000 is booked and its deposit confirms it; the guest
      cancels in good time and is sent 485, the processor keeping 3 percent of 500; that
      job ends; and the balance, already taken from the card, lands. The job this leaves
      asks for both payments whole: 1,000 of the 1,000 collected, with 485 gone already. */
  lemma {:induction false} ShareAndEverythingAreBothReturned()
    ensures var end := Run(Empty(OPENING, 0, 0),
        [Create(StayOf1000()), DeliverCharge(DepositPaid())]
          + Afterwards("A", 10, ["re_1"], [Part("pi_deposit", 485)], BalancePaid()));
      && "A" in end.refundJobs && end.refundJobs["A"] == 0
      && Read(end.payments, "A") == Reading([Part("pi_deposit", 500), Part("pi_balance", 500)], [485])
      && Allocation(Read(end.payments, "A"), 0) == [Part("pi_deposit", 500), Part("pi_balance", 500)]
      && Total(Allocation(Read(end.payments, "A"), 0)) == Gross(end.payments, "A") == 1_000
  {
    hide Run, Next, Read, Gross, Charges, Allocation, Total, Amounts, CancelsThenLands, Share, SlicesOf, Afterwards;
    var empty := Empty(OPENING, 0, 0);
    var booked := [Create(StayOf1000()), DeliverCharge(DepositPaid())];
    var slices, charges := [Part("pi_deposit", 485)], [Part("pi_deposit", 500)];
    DepositIsReady();
    RunConcat(empty, booked, Afterwards("A", 10, ["re_1"], slices, BalancePaid()));
    BothAskedWhole();
    EverythingIsRead(Run(empty, booked), "A", 10, ["re_1"], BalancePaid(), slices, charges);
  }

  lemma {:induction false} EverythingIsRead(db: Db, code: Code, on: int, ids: seq<string>, late: Charge,
        slices: seq<Part>, charges: seq<Part>)
    requires CancelsThenLands(db, code, on, ids, late)
    requires slices == SlicesOf(db, code, Share(db, code, on)) && charges == Charges(db.payments, code)
    requires |slices| <= |ids|
    ensures var end := Run(db, Afterwards(code, on, ids, slices, late));
      && code in end.refundJobs && end.refundJobs[code] == 0
      && Read(end.payments, code) == Reading(charges + [Part(late.stripeId, late.amount)], Amounts(slices))
      && Gross(end.payments, code) == Total(Read(end.payments, code).charges)
  {
    hide CancelsThenLands, Run, Afterwards, Charges, Refunds, SlicesOf, Share, Total, Allocation;
    LastSliceIsAskedForTwiceExactlyWhenItIsNoPayment(db, code, on, ids, late);
  }

  lemma {:induction false} DepositIsReady()
    ensures var db := Run(Empty(OPENING, 0, 0), [Create(StayOf1000()), DeliverCharge(DepositPaid())]);
      && CancelsThenLands(db, "A", 10, ["re_1"], BalancePaid()) && Share(db, "A", 10) == 485
      && SlicesOf(db, "A", 485) == [Part("pi_deposit", 485)]
      && Charges(db.payments, "A") == [Part("pi_deposit", 500)]
  {
    hide Inv, CancelStep, Run;
    var db := Run(Empty(OPENING, 0, 0), [Create(StayOf1000()), DeliverCharge(DepositPaid())]);
    DepositConfirms();
    NotBlank();
    ShareIs485(db);
    LedgerOfDeposit();
    OneSliceOf485();
  }

  lemma {:induction false} OneSliceOf485()
    ensures Allocation(Reading([Part("pi_deposit", 500)], []), 485) == [Part("pi_deposit", 485)]
  {
    DropNothing([Part("pi_deposit", 485)], []);
  }
}
