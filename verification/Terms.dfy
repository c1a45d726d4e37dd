/** What each transaction comes to, said of the booking's row, the day and the request
    alone: the sums asked and returned, the dates they turn on, what the guest is told,
    and everything that stays as it was. */
module Terms {
  import opened Common
  import opened Ledger
  import opened Inn
  import opened Protocol
  import opened ProtocolRuns
  import ProtocolSteps
  import Pricing

  /** No other booking's row is touched. */
  ghost predicate OnlyRow(db: Db, db': Db, code: Code) {
    && db'.bookings.Keys == db.bookings.Keys
    && forall other :: other in db.bookings && other != code ==> db'.bookings[other] == db.bookings[other]
  }

  ghost predicate SameClock(db: Db, db': Db) {
    db'.settings == db.settings && db'.now == db.now && db'.today == db.today
  }

  /** Nobody has the room on any of these nights. */
  ghost predicate RoomIsFree(o: Occupied, s: Stay) {
    forall t :: t in o ==> t.room != s.room || t.checkout <= s.checkin || s.checkout <= t.checkin
  }

  lemma {:induction false} FreeOrTaken(o: Occupied, s: Stay)
    ensures RoomIsFree(o, s) <==> !Taken(o, s)
  {
  }

  /** What the website asks before it confirms: the deposit while a balance charge is
      scheduled, and otherwise the whole stay. */
  function DueFirst(b: Booking): int {
    if b.balanceChargeAt.Some? then b.deposit else b.total
  }

  // ---------------------------------------------------------------- booking

  /** A stay is made exactly when its dates are in order, the room was offered at the
      price the guest saw, the row is one the table takes, its first code is new, nobody
      has the room, and a payment link would have something to ask for. */
  lemma {:induction false} MadeExactlyWhen(db: Db, r: Request)
    ensures CreateStep(db, r).1.Made? <==>
      && db.today <= r.stay.checkin < r.stay.checkout
      && r.offer.Some? && (r.expectedTotal == 0 || r.expectedTotal == r.offer.value.total)
      && r.offer.value.total >= 0 && r.offer.value.deposit >= 0 && r.offer.value.balance >= 0
      && r.offer.value.deposit + r.offer.value.balance == r.offer.value.total
      && r.codes[0] !in db.bookings
      && RoomIsFree(db.occupied, r.stay)
      && !(r.manual && r.byLink && r.offer.value.total == 0)
  {
    FreeOrTaken(db.occupied, r.stay);
  }

  /** The terms of a stay: the quote's, nothing paid, and a balance charge a week before
      arrival exactly when the website books it eight days ahead or more, which puts the
      charge after today. */
  lemma {:induction false} TermsAreTheQuotes(db: Db, r: Request)
    requires CreateStep(db, r).1.Made?
    ensures var db' := CreateStep(db, r).0; var code, q := r.codes[0], r.offer.value;
      && CreateStep(db, r).1 == Made(code) && code !in db.bookings && code in db'.bookings
      && db'.bookings.Keys == db.bookings.Keys + {code}
      && (forall other :: other in db.bookings ==> db'.bookings[other] == db.bookings[other])
    ensures var b, q := CreateStep(db, r).0.bookings[r.codes[0]], r.offer.value;
         && b.rooms == [r.stay] && b.checkin == r.stay.checkin && b.checkout == r.stay.checkout
         && b.total == q.total && b.deposit == q.deposit && b.balance == q.balance && b.paid == 0
         && b.status == (if r.manual then Confirmed else Pending) && b.phone == r.manual
         && (b.balanceChargeAt.Some? <==> !r.manual && r.stay.checkin - db.today >= 8)
         && (b.balanceChargeAt.Some? ==> db.today < b.balanceChargeAt.value == r.stay.checkin - 7)
         && b.paymentStartedAt.None? && b.customer == "" && b.paymentMethod == "" && !b.chargeFailed && !b.warned
  {
  }

  /** The room it takes, held until the hold lapses or booked outright, and the messages
      of a stay taken by phone. */
  lemma {:induction false} NewStayTakesOneRoom(db: Db, r: Request)
    requires CreateStep(db, r).1.Made?
    ensures var db' := CreateStep(db, r).0; var code, q := r.codes[0], r.offer.value;
      && db'.occupied == db.occupied[r.stay :=
           if r.manual then Claim(Booked, Some(code), None)
           else Claim(Hold, Some(code), Some(db.now + db.settings.holdTtl))]
      && (!r.manual ==> db'.outbox == db.outbox)
      && (r.manual ==>
           db'.outbox == db.outbox
             + [GuestConfirmation(code, 0, if q.total > 0 then Some(q.total) else None, None), OwnerPush(code)]
             + (if r.ownerCopy then [OwnerCopy(code, 0)] else [])
             + (if r.byLink then [PaymentRequest(code, q.total)] else []))
      && db'.payments == db.payments && db'.events == db.events && db'.refundJobs == db.refundJobs
      && SameClock(db, db')
  {
  }

  // ---------------------------------------------------------------- asking for money

  /** A payment opens exactly for a stay still to be paid for, and asks for exactly what
      is missing: with it the stay will have paid what was due first, and no cent more. */
  lemma {:induction false} OpensForExactlyWhatIsMissing(db: Db, code: Code)
    ensures OpenFor(db, code) == NotOpened(NoSuchBooking) <==> code !in db.bookings
    ensures code in db.bookings ==>
      var b, o := db.bookings[code], OpenFor(db, code);
      var payable := b.status == Pending || (b.status == Confirmed && b.balanceChargeAt.None?);
      && (o == NotOpened(NotPayable) <==> !payable)
      && (o == NotOpened(NothingToPay) <==> payable && b.paid >= DueFirst(b))
      && (o.Open? <==> payable && b.paid < DueFirst(b))
      && (o.Open? ==>
           && b.paid + o.opening.amount == DueFirst(b)
           && (o.opening.saveCard <==> b.balanceChargeAt.Some?)
           && (o.opening.kind == Balance <==> b.status == Confirmed)
           && (o.opening.kind == Deposit <==> b.status == Pending && b.balanceChargeAt.Some?)
           && (o.opening.kind == Full <==> b.status == Pending && b.balanceChargeAt.None?))
  {
  }

  /** Captured in full, with no other money landing on the stay in between, it leaves paid
      exactly what was due first; and the stay is not asked again. */
  lemma {:induction false} FullCaptureSettles(db: Db, code: Code, between: seq<Action>, c: Charge)
    requires Inv(db) && AllGenuine(between) && OpenFor(db, code).Open?
    requires c.code == code && c.amount == OpenFor(db, code).opening.amount && c.kind != Refund && Invalid(c).None?
    requires var mid := Run(db, between);
      && !EventSeen(mid, c) && !HasRow(mid.payments, c.stripeId, Succeeded)
      && Gross(mid.payments, code) == Gross(db.payments, code)
    ensures var end := ChargeStep(Run(db, between), c).0;
      && code in end.bookings && end.bookings[code].paid == DueFirst(db.bookings[code])
      && !OpenFor(end, code).Open?
  {
    hide Inv, ChargeStep, Run, HasRow, Invalid, EventSeen;
    var mid := Run(db, between);
    EveryRun(db, between);
    PaidIsNotNegative(db, code);
    PaidIsNotNegative(mid, code);
    ChargeRecords(mid, c);
    ProtocolSteps.ChargeKeeps(mid, c);
    SettledIsNotAskedAgain(mid, ChargeStep(mid, c).0, code, DueFirst(db.bookings[code]));
  }

  lemma {:induction false} SettledIsNotAskedAgain(mid: Db, end: Db, code: Code, due: int)
    requires code in mid.bookings && code in end.bookings && StepOk(mid, end)
    requires due == DueFirst(mid.bookings[code]) && end.bookings[code].paid >= due
    ensures !OpenFor(end, code).Open?
  {
    assert BookingStep(mid, end, code);
  }

  // ---------------------------------------------------------------- money coming in

  /** The stay has its rooms, or could have them all. */
  ghost predicate CanBeHoused(db: Db, code: Code, b: Booking) {
    || (exists s :: s in db.occupied && db.occupied[s].booking == Some(code))
    || (AllFree(db.occupied, b.rooms) && NoneOverlap(b.rooms))
  }

  ghost predicate IsNew(db: Db, c: Charge, outcome: Outcome) {
    && c.code in db.bookings && !Blank(c.stripeId) && c.amount > 0 && c.kind != Unknown
    && (Blank(c.event) || c.event !in db.events) && !HasRow(db.payments, c.stripeId, outcome)
  }

  /** A missing id is one with nothing but spaces in it, however many. */
  lemma {:induction false} BlankExactlyWhenOnlySpaces(s: string)
    ensures Blank(s) <==> forall i :: 0 <= i < |s| ==>
      s[i] in " \t\n\r" || (s[i] as int) in {0x0B, 0x0C, 0x85, 0xA0, 0x1680, 0x2028, 0x2029, 0x202F, 0x205F, 0x3000}
      || 0x2000 <= s[i] as int <= 0x200A
  {
  }

  /** What a report is refused for, and that it then changes nothing. */
  lemma {:induction false} RefusedExactlyWhen(db: Db, c: Charge)
    ensures var refused := Blank(c.stripeId) || c.amount <= 0 || c.kind == Unknown || c.code !in db.bookings;
      && (ChargeStep(db, c).1.Rejected? <==> refused)
      && (FailureStep(db, c).1.Rejected? <==> refused)
      && (RefundStep(db, c).1.Rejected? <==> refused)
      && (refused ==> ChargeStep(db, c).0 == FailureStep(db, c).0 == RefundStep(db, c).0 == db)
  {
    hide SecureRoom;
  }

  /** What was seen before is answered so, and changes nothing but the event log: an event
      already there changes nothing at all, and a row already there still notes its event. */
  lemma {:induction false} SeenBeforeIsOnlyNoted(db: Db, c: Charge)
    requires c.code in db.bookings && !Blank(c.stripeId) && c.amount > 0 && c.kind != Unknown
    ensures !Blank(c.event) && c.event in db.events ==>
      ChargeStep(db, c) == FailureStep(db, c) == RefundStep(db, c) == (db, AlreadyApplied)
    ensures Blank(c.event) || c.event !in db.events ==>
      var noted := (db.(events := if Blank(c.event) then db.events else db.events + {c.event}), AlreadyApplied);
      && (HasRow(db.payments, c.stripeId, Succeeded) ==> ChargeStep(db, c) == RefundStep(db, c) == noted)
      && (HasRow(db.payments, c.stripeId, Failed) ==> FailureStep(db, c) == noted)
  {
    hide HasRow, SecureRoom, Release, ConfirmationMail;
  }

  /** What a payment is answered: short by what is still missing; all of it due back when
      the stay is cancelled or can no longer be housed; and otherwise confirmed. */
  lemma {:induction false} AnswerToACharge(db: Db, c: Charge)
    requires Inv(db) && c.kind != Refund && IsNew(db, c, Succeeded)
    ensures var b, r := db.bookings[c.code], ChargeStep(db, c).1; var gross := b.paid + c.amount;
      && (r.Underpaid? <==> gross < DueFirst(b)) && (r.Underpaid? ==> gross + r.shortfall == DueFirst(b))
      && (r == RefundDue(gross) <==>
           gross >= DueFirst(b) && (b.status == Cancelled || !CanBeHoused(db, c.code, b)))
      && (r == StayConfirmed <==>
           gross >= DueFirst(b) && b.status != Cancelled && CanBeHoused(db, c.code, b))
  {
    var b := db.bookings[c.code];
    assert BookingOk(db, c.code);
    SecuredExactlyWhenHoused(db, c.code);
    hide Inv, SecureRoom, CanBeHoused, Release, HasRow, BookingOk;
  }

  lemma {:induction false} SecuredExactlyWhenHoused(db: Db, code: Code)
    requires code in db.bookings && BookingOk(db, code)
    ensures SecureRoom(db.occupied, code, db.bookings[code].rooms).0 <==> CanBeHoused(db, code, db.bookings[code])
  {
    var o, rooms := db.occupied, db.bookings[code].rooms;
    if HasHold(o, code) {
      var s :| s in o && o[s].kind == Hold && o[s].booking == Some(code);
      assert s in o && o[s].booking == Some(code);
    } else if !HasRows(o, code) {
      ReclaimSucceedsWhenFree(o, code, rooms);
    }
    hide Reclaim, Promote;
  }

  /** A charge is turned away or seen before, or its money is taken, or settled as well. */
  lemma {:induction false} ChargeIsOneOf(db: Db, c: Charge)
    ensures var db' := ChargeStep(db, c).0;
      || db' == db.(events := db'.events)
      || (c.code in db.bookings && db' == TakeMoney(NoteEvent(db, c), c))
      || (c.code in db.bookings && db' == SettleStay(TakeMoney(NoteEvent(db, c), c), c, db.bookings[c.code]).0)
  {
    hide SettleStay, HasRow, Shortfall, Invalid, EventSeen, TakeMoney;
  }

  /** What a payment does to the row: the money, the card when both halves of it are
      given, and the status; nothing else of it, and nobody else's. */
  lemma {:induction false} ChargeOnTheRow(db: Db, c: Charge)
    requires IsNew(db, c, Succeeded)
    ensures var db' := ChargeStep(db, c).0;
      && OnlyRow(db, db', c.code) && SameClock(db, db')
      && db'.payments == db.payments + [Payment(c.code, c.stripeId, c.kind, c.amount, Succeeded)]
      && db'.events == (if Blank(c.event) then db.events else db.events + {c.event})
    ensures var b, b' := db.bookings[c.code], ChargeStep(db, c).0.bookings[c.code];
      var card := c.customer != "" && c.paymentMethod != "";
      && b'.paid == b.paid + c.amount
      && b'.customer == (if card then c.customer else b.customer)
      && b'.paymentMethod == (if card then c.paymentMethod else b.paymentMethod)
      && b' == b.(paid := b'.paid, customer := b'.customer, paymentMethod := b'.paymentMethod, status := b'.status)
  {
    hide SettleStay, HasRow, Shortfall;
    SettlingMovesTheStatus(TakeMoney(NoteEvent(db, c), c), c, db.bookings[c.code]);
  }

  ghost predicate OnlyTheStatusMoves(db: Db, db': Db, code: Code) {
    && code in db.bookings && OnlyRow(db, db', code) && SameClock(db, db')
    && db'.bookings[code] == db.bookings[code].(status := db'.bookings[code].status)
    && db'.bookings[code].status != Expired
    && db'.payments == db.payments && db'.events == db.events
  }

  lemma {:induction false} ClosingMovesTheStatus(db: Db, code: Code, owed: int)
    requires code in db.bookings
    ensures OnlyTheStatusMoves(db, CloseOut(db, code, owed), code)
    ensures CloseOut(db, code, owed).refundJobs
         == if code in db.refundJobs then db.refundJobs else db.refundJobs[code := 0]
  {
    hide Release;
  }

  lemma {:induction false} ConfirmingMovesTheStatus(db: Db, c: Charge, found: Booking)
    requires c.code in db.bookings
    ensures OnlyTheStatusMoves(db, ConfirmStay(db, c, found), c.code)
    ensures ConfirmStay(db, c, found).refundJobs == db.refundJobs
  {
    hide ConfirmationMail;
  }

  lemma {:induction false} SettlingMovesTheStatus(db: Db, c: Charge, found: Booking)
    requires c.code in db.bookings
    ensures OnlyTheStatusMoves(db, SettleStay(db, c, found).0, c.code)
    ensures var jobs := SettleStay(db, c, found).0.refundJobs;
      jobs == db.refundJobs || (c.code !in db.refundJobs && jobs == db.refundJobs[c.code := 0])
  {
    hide SecureRoom, CloseOut, ConfirmStay;
    var held := db.(occupied := SecureRoom(db.occupied, c.code, found.rooms).1);
    ClosingMovesTheStatus(held, c.code, found.paid + c.amount);
    ConfirmingMovesTheStatus(held, c, found);
  }

  /** A short payment is kept and nothing more is made of it. */
  lemma {:induction false} ShortPaymentWaits(db: Db, c: Charge)
    requires IsNew(db, c, Succeeded) && ChargeStep(db, c).1.Underpaid?
    ensures var db' := ChargeStep(db, c).0;
      && db'.bookings[c.code].status == db.bookings[c.code].status
      && db'.occupied == db.occupied && db'.outbox == db.outbox && db'.refundJobs == db.refundJobs
  {
    hide SecureRoom, HasRow;
  }

  /** What a confirming payment says: what was paid now and what is still to come, once;
      and of a stay confirmed before, a receipt when it was the balance. */
  lemma {:induction false} WhatTheGuestIsTold(db: Db, c: Charge)
    requires IsNew(db, c, Succeeded) && ChargeStep(db, c).1 == StayConfirmed
    ensures var db' := ChargeStep(db, c).0; var b := db.bookings[c.code]; var left := b.total - (b.paid + c.amount);
      && db'.bookings[c.code].status == Confirmed && db'.refundJobs == db.refundJobs
      && (b.status != Confirmed ==>
           db'.outbox == db.outbox
             + [GuestConfirmation(c.code, c.amount, if left > 0 then Some(left) else None, b.balanceChargeAt),
                OwnerPush(c.code)]
             + (if c.ownerCopy then [OwnerCopy(c.code, c.amount)] else []))
      && (b.status == Confirmed ==>
           db'.outbox == db.outbox + (if c.kind == Balance then [BalanceReceipt(c.code, c.amount)] else []))
  {
    hide SecureRoom, HasRow, Release;
    assert db.outbox + [] == db.outbox;
  }

  // ---------------------------------------------------------------- a charge that failed

  /** A failure is written down and the stay left alone; only a failed balance flags it,
      and tells the guest what is owing. */
  lemma {:induction false} OnlyAFailedBalanceTouchesTheStay(db: Db, c: Charge)
    requires IsNew(db, c, Failed)
    ensures var db' := FailureStep(db, c).0; var b := db.bookings[c.code];
      && FailureStep(db, c).1 == AlreadyApplied
      && OnlyRow(db, db', c.code) && SameClock(db, db')
      && db'.payments == db.payments + [Payment(c.code, c.stripeId, c.kind, c.amount, Failed)]
      && db'.events == (if Blank(c.event) then db.events else db.events + {c.event})
      && db'.occupied == db.occupied && db'.refundJobs == db.refundJobs
      && (c.kind != Balance ==> db'.bookings == db.bookings && db'.outbox == db.outbox)
      && (c.kind == Balance ==>
           && db'.bookings[c.code] == b.(chargeFailed := true)
           && db'.outbox == db.outbox + [BalanceFailed(c.code, b.total - b.paid)])
  {
    hide HasRow;
  }

  predicate Flagged(db: Db, code: Code) {
    code in db.bookings && db.bookings[code].chargeFailed
  }

  /** The step records a failed balance charge of this stay, or finds it has no card. */
  ghost predicate Flags(db: Db, a: Action, code: Code) {
    || (a.DeliverFailure? && a.charge.code == code && a.charge.kind == Balance && IsNew(db, a.charge, Failed))
    || (a == FlagUncollectable(code) && code in db.bookings)
  }

  lemma {:induction false} FlaggedExactlyBy(db: Db, a: Action, code: Code)
    ensures Flagged(Next(db, a), code) <==> Flagged(db, code) || Flags(db, a, code)
  {
    hide ChargeStep, RefundStep, FailureStep, CreateStep, CancelStep, HasRow, IsNew;
    match a
    case DeliverCharge(c) => ChargeFlagsNobody(db, c, code);
    case DeliverRefund(c) => RefundFlagsNobody(db, c, code);
    case DeliverFailure(c) => FailureFlags(db, c, code);
    case Create(r) => CreateFlagsNobody(db, r, code);
    case Cancel(cancelled, on) => CancelFlagsNobody(db, cancelled, on, code);
    case _ =>
  }

  lemma {:induction false} ChargeFlagsNobody(db: Db, c: Charge, code: Code)
    ensures Flagged(ChargeStep(db, c).0, code) <==> Flagged(db, code)
  {
    hide ChargeStep, SettleStay;
    ChargeIsOneOf(db, c);
    if c.code in db.bookings {
      SettlingMovesTheStatus(TakeMoney(NoteEvent(db, c), c), c, db.bookings[c.code]);
    }
  }

  lemma {:induction false} RefundFlagsNobody(db: Db, c: Charge, code: Code)
    ensures Flagged(RefundStep(db, c).0, code) <==> Flagged(db, code)
  {
    hide Release, HasRow, Invalid, EventSeen;
  }

  lemma {:induction false} FailureFlags(db: Db, c: Charge, code: Code)
    ensures Flagged(FailureStep(db, c).0, code)
       <==> Flagged(db, code) || (c.code == code && c.kind == Balance && IsNew(db, c, Failed))
  {
    hide HasRow;
  }

  lemma {:induction false} CreateFlagsNobody(db: Db, r: Request, code: Code)
    ensures Flagged(CreateStep(db, r).0, code) <==> Flagged(db, code)
  {
  }

  lemma {:induction false} CancelFlagsNobody(db: Db, cancelled: Code, on: int, code: Code)
    ensures Flagged(CancelStep(db, cancelled, on).0, code) <==> Flagged(db, code)
  {
    hide Release;
  }

  /** Some step of the run flagged the stay. */
  ghost predicate FlaggedOnTheWay(db: Db, actions: seq<Action>, code: Code) {
    exists i :: 0 <= i < |actions| && Flags(Run(db, actions[..i]), actions[i], code)
  }

  lemma {:induction false} OneMoreOnTheWay(db: Db, actions: seq<Action>, code: Code)
    requires |actions| > 0
    ensures var n := |actions| - 1;
      FlaggedOnTheWay(db, actions, code)
      <==> FlaggedOnTheWay(db, actions[..n], code) || Flags(Run(db, actions[..n]), actions[n], code)
  {
    hide Run, Flags;
    var n := |actions| - 1;
    var init := actions[..n];
    forall i | 0 <= i < n ensures init[..i] == actions[..i] && init[i] == actions[i] {
    }
    if i :| 0 <= i < n && Flags(Run(db, init[..i]), init[i], code) {
      assert Flags(Run(db, actions[..i]), actions[i], code);
    }
    if i :| 0 <= i < |actions| && Flags(Run(db, actions[..i]), actions[i], code) {
      assert i < n ==> Flags(Run(db, init[..i]), init[i], code);
    }
  }

  /** Over a run a stay is flagged exactly when it was, or some step on the way recorded a
      failed balance charge of it or found it without a card. */
  lemma {:induction false} FlaggedExactlyWhenSomethingFlaggedIt(db: Db, actions: seq<Action>, code: Code)
    ensures Flagged(Run(db, actions), code) <==> Flagged(db, code) || FlaggedOnTheWay(db, actions, code)
  {
    hide Next, Flags, Flagged;
    if |actions| > 0 {
      var n := |actions| - 1;
      FlaggedExactlyWhenSomethingFlaggedIt(db, actions[..n], code);
      FlaggedExactlyBy(Run(db, actions[..n]), actions[n], code);
      OneMoreOnTheWay(db, actions, code);
    }
  }

  // ---------------------------------------------------------------- money going back

  /** A refund that went out: one row, every room given back, the stay cancelled. */
  lemma {:induction false} RefundOnTheRow(db: Db, c: Charge)
    requires IsNew(db, c, Succeeded)
    ensures var (db', r) := RefundStep(db, c); var b := db.bookings[c.code];
      && r == RefundDue(c.amount)
      && OnlyRow(db, db', c.code) && SameClock(db, db')
      && db'.bookings[c.code] == b.(status := Cancelled)
      && HoldsNothing(db'.occupied, c.code) && OthersKeepRows(db.occupied, db'.occupied, c.code)
      && db'.payments == db.payments + [Payment(c.code, c.stripeId, Refund, c.amount, Succeeded)]
      && db'.refundJobs == db.refundJobs && db'.outbox == db.outbox
  {
    hide HasRow;
  }

  /** Who may cancel, and that everybody else changes nothing. */
  lemma {:induction false} CancelledExactlyWhen(db: Db, code: Code, on: int)
    ensures var (db', r) := CancelStep(db, code, on);
      && (r == NoBooking <==> code !in db.bookings)
      && (r == NotCancellable <==> code in db.bookings && db.bookings[code].status != Confirmed)
      && (r == StayUnderway <==> IsConfirmed(db, code) && on >= db.bookings[code].checkin)
      && (r.Cancellation? <==> IsConfirmed(db, code) && on < db.bookings[code].checkin)
      && (!r.Cancellation? ==> db' == db)
  {
    hide Release;
  }

  /** What a cancelling guest gets, from the row and the day. Seven days or more before
      arrival the inn keeps what the processor took, to the next whole cent; inside the
      week it keeps the deposit if that is more. The rest of what was paid goes back, and
      the job and the message say exactly that. */
  lemma {:induction false} CancellationByTheDay(db: Db, code: Code, on: int)
    requires Inv(db) && CancelStep(db, code, on).1.Cancellation? && 0 <= db.settings.processingRate < 100_000
    ensures var (db', r) := CancelStep(db, code, on); var b, rate := db.bookings[code], db.settings.processingRate;
      var penalty := if b.checkin - on < 7 then b.deposit else 0;
      && (r.late <==> b.checkin - on < 7)
      && r.retained >= penalty && 100_000 * r.retained >= b.paid * rate
      && (r.retained > penalty ==> 100_000 * r.retained < b.paid * rate + 100_000)
      && r.refund == (if b.paid > r.retained then b.paid - r.retained else 0) <= b.paid
      && db'.refundJobs == (if r.refund > 0 && code !in db.refundJobs then db.refundJobs[code := r.refund]
                            else db.refundJobs)
      && db'.outbox == db.outbox + [CancellationRefund(code, r.refund)]
  {
    var b, rate := db.bookings[code], db.settings.processingRate;
    PaidIsNotNegative(db, code);
    Pricing.FeeIsCeiling(b.paid, rate);
    assert Pricing.RATE_SCALE == 100_000;
    hide Inv, Release, Pricing.ProcessingFee;
  }

  lemma {:induction false} PaidIsNotNegative(db: Db, code: Code)
    requires Inv(db) && code in db.bookings
    ensures db.bookings[code].paid == Gross(db.payments, code) >= 0 && db.bookings[code].deposit >= 0
  {
    assert BookingOk(db, code);
    ChargesAreDistinctIntents(db.payments, code);
    TotalPositive(Charges(db.payments, code));
  }

  /** And what it does to the stay. */
  lemma {:induction false} CancellationOnTheRow(db: Db, code: Code, on: int)
    requires CancelStep(db, code, on).1.Cancellation?
    ensures var db' := CancelStep(db, code, on).0;
      && OnlyRow(db, db', code) && SameClock(db, db')
      && db'.bookings[code] == db.bookings[code].(status := Cancelled)
      && HoldsNothing(db'.occupied, code) && OthersKeepRows(db.occupied, db'.occupied, code)
      && db'.payments == db.payments && db'.events == db.events
  {
  }

  /** What somebody types into the console is queued exactly when it is money the stay has
      paid, and nothing was waiting. */
  lemma {:induction false} ConsoleRefundIsCovered(db: Db, code: Code, target: int)
    ensures var db' := ConsoleRefundStep(db, code, target);
      db' == db.(refundJobs :=
        if code in db.bookings && 0 < target <= db.bookings[code].paid && code !in db.refundJobs
        then db.refundJobs[code := target] else db.refundJobs)
  {
  }

  /** No waiting job asks for more than its stay has paid. */
  ghost predicate JobsAreCovered(db: Db) {
    forall code :: code in db.refundJobs ==>
      code in db.bookings && 0 <= db.refundJobs[code] <= db.bookings[code].paid
  }

  lemma {:induction false} StepKeepsJobsCovered(db: Db, a: Action)
    requires Inv(db) && Genuine(a) && JobsAreCovered(db)
    ensures JobsAreCovered(Next(db, a))
  {
    var db' := Next(db, a);
    ProtocolSteps.EveryStep(db, a);
    JobsAdded(db, a);
    forall code | code in db'.refundJobs
      ensures code in db'.bookings && 0 <= db'.refundJobs[code] <= db'.bookings[code].paid
    {
      if code in db.bookings {
        assert BookingStep(db, db', code);
        PaidIsNotNegative(db, code);
      }
    }
    hide Next, Inv;
  }

  /** Every job that was not waiting before is for no more than the stay had paid. */
  ghost predicate OnlyCoveredJobsAdded(db: Db, db': Db) {
    forall code :: code in db'.refundJobs ==>
      || (code in db.refundJobs && db'.refundJobs[code] == db.refundJobs[code])
      || (code in db.bookings && 0 <= db'.refundJobs[code] <= Max(0, db.bookings[code].paid))
  }

  lemma {:induction false} JobsAdded(db: Db, a: Action)
    requires Inv(db)
    ensures OnlyCoveredJobsAdded(db, Next(db, a))
  {
    hide Inv, ChargeStep, FailureStep, RefundStep, CreateStep, CancelStep, OnlyCoveredJobsAdded;
    match a
    case DeliverCharge(c) => ReportAddsJobs(db, c);
    case DeliverFailure(c) => ReportAddsJobs(db, c);
    case DeliverRefund(c) => ReportAddsJobs(db, c);
    case Create(r) => CreateAddsNoJob(db, r);
    case Cancel(code, on) => CancelAddsAShare(db, code, on);
    case _ => OtherActionsAddJobs(db, a);
  }

  lemma {:induction false} ChargeAddsAJob(db: Db, c: Charge)
    ensures OnlyCoveredJobsAdded(db, ChargeStep(db, c).0)
  {
    hide ChargeStep, SettleStay;
    ChargeIsOneOf(db, c);
    if c.code in db.bookings {
      SettlingMovesTheStatus(TakeMoney(NoteEvent(db, c), c), c, db.bookings[c.code]);
    }
  }

  lemma {:induction false} OthersAddNoJob(db: Db, c: Charge)
    ensures FailureStep(db, c).0.refundJobs == RefundStep(db, c).0.refundJobs == db.refundJobs
  {
    hide Release, HasRow, Invalid, EventSeen;
  }

  lemma {:induction false} ReportAddsJobs(db: Db, c: Charge)
    ensures OnlyCoveredJobsAdded(db, ChargeStep(db, c).0)
    ensures OnlyCoveredJobsAdded(db, FailureStep(db, c).0) && OnlyCoveredJobsAdded(db, RefundStep(db, c).0)
  {
    hide ChargeStep, FailureStep, RefundStep;
    ChargeAddsAJob(db, c);
    OthersAddNoJob(db, c);
  }

  lemma {:induction false} CreateAddsNoJob(db: Db, r: Request)
    ensures OnlyCoveredJobsAdded(db, CreateStep(db, r).0)
  {
  }

  lemma {:induction false} CancelAddsAShare(db: Db, code: Code, on: int)
    requires Inv(db)
    ensures OnlyCoveredJobsAdded(db, CancelStep(db, code, on).0)
  {
    hide Inv, Release;
    if code in db.bookings {
      PaidIsNotNegative(db, code);
      RefundIsNoMoreThanPaid(db, code, on);
    }
  }

  lemma {:induction false} OtherActionsAddJobs(db: Db, a: Action)
    requires !a.DeliverCharge? && !a.DeliverFailure? && !a.DeliverRefund? && !a.Create? && !a.Cancel?
    ensures OnlyCoveredJobsAdded(db, Next(db, a))
  {
  }

  function Max(a: int, b: int): int {
    if a >= b then a else b
  }

  lemma {:induction false} RefundIsNoMoreThanPaid(db: Db, code: Code, on: int)
    requires code in db.bookings && db.bookings[code].paid >= 0 && db.bookings[code].deposit >= 0
    ensures var r := CancelStep(db, code, on).1; r.Cancellation? ==> r.refund <= db.bookings[code].paid
  {
    hide Release;
  }

  /** In every reachable state the refund jobs waiting ask for no more than was paid. */
  lemma {:induction false} WaitingRefundsAreCovered(settings: Settings, now: int, today: int, actions: seq<Action>)
    requires AllGenuine(actions)
    ensures JobsAreCovered(Run(Empty(settings, now, today), actions))
  {
    hide Inv, Next, JobsAreCovered;
    if |actions| == 0 {
      NoJobsAtFirst(settings, now, today);
    } else {
      var init := actions[..|actions| - 1];
      WaitingRefundsAreCovered(settings, now, today, init);
      EmptyIsFine(settings, now, today);
      EveryRun(Empty(settings, now, today), init);
      StepKeepsJobsCovered(Run(Empty(settings, now, today), init), actions[|actions| - 1]);
    }
  }

  lemma {:induction false} NoJobsAtFirst(settings: Settings, now: int, today: int)
    ensures JobsAreCovered(Empty(settings, now, today))
  {
  }

  // ---------------------------------------------------------------- sweeping

  /** A sweep takes back the holds whose time is up, to the minute, and not one other row. */
  lemma {:induction false} SweepTakesOnlyLapsedHolds(db: Db, s: Stay)
    requires Inv(db)
    ensures var o, o' := db.occupied, Swept(db).occupied;
      && (s in o' <==> s in o && !(o[s].kind == Hold && o[s].expiresAt.Some? && o[s].expiresAt.value <= db.now))
      && (s in o' ==> o'[s] == o[s])
    ensures Swept(db).payments == db.payments && Swept(db).outbox == db.outbox && Swept(db).refundJobs == db.refundJobs
  {
  }

  /** The room is held for the guest for the whole of the hold's time and not a minute
      more, whatever day it has become. */
  lemma {:induction false} HoldLastsItsTime(db: Db, r: Request, minutes: nat, days: nat)
    requires Inv(db) && CreateStep(db, r).1.Made? && !r.manual
    ensures var later := Next(CreateStep(db, r).0, Tick(minutes, days));
      r.stay in Swept(later).occupied <==> minutes < db.settings.holdTtl
  {
    hide Inv, Taken;
  }

  /** The clock of an opened payment is still within its grace. */
  ghost predicate Paying(db: Db, code: Code, since: int, grace: int) {
    && db.settings.paymentGrace == grace && db.now >= since
    && code in db.bookings && db.bookings[code].status != Expired
    && db.bookings[code].paymentStartedAt.Some? && db.bookings[code].paymentStartedAt.value >= since
  }

  lemma {:induction false} StepKeepsPaying(db: Db, a: Action, code: Code, since: int, grace: int)
    requires Paying(db, code, since, grace) && !a.ChangeSettings? && Next(db, a).now < since + grace
    ensures Paying(Next(db, a), code, since, grace)
  {
    hide ChargeStep, CreateStep, CancelStep, RefundStep, FailureStep;
    match a
    case DeliverCharge(c) => ChargeKeepsStart(db, c, code);
    case DeliverFailure(c) => FailureKeepsStart(db, c, code);
    case DeliverRefund(c) => RefundKeepsStart(db, c, code);
    case Create(r) => CreateKeepsStart(db, r, code);
    case Cancel(cancelled, on) => CancelKeepsStart(db, cancelled, on, code);
    case _ => OtherActionsKeepPaying(db, a, code, since, grace);
  }

  lemma {:induction false} OtherActionsKeepPaying(db: Db, a: Action, code: Code, since: int, grace: int)
    requires !a.DeliverCharge? && !a.DeliverFailure? && !a.DeliverRefund? && !a.Create? && !a.Cancel?
    requires Paying(db, code, since, grace) && !a.ChangeSettings? && Next(db, a).now < since + grace
    ensures Paying(Next(db, a), code, since, grace)
  {
    hide HasHold, Taken;
  }

  ghost predicate StartKept(db: Db, db': Db, code: Code) {
    && code in db.bookings && code in db'.bookings
    && db'.bookings[code].paymentStartedAt == db.bookings[code].paymentStartedAt
    && (db'.bookings[code].status == Expired ==> db.bookings[code].status == Expired)
    && SameClock(db, db')
  }

  lemma {:induction false} ChargeKeepsStart(db: Db, c: Charge, code: Code)
    requires code in db.bookings
    ensures StartKept(db, ChargeStep(db, c).0, code)
  {
    hide ChargeStep, SettleStay;
    ChargeIsOneOf(db, c);
    if c.code in db.bookings {
      SettlingMovesTheStatus(TakeMoney(NoteEvent(db, c), c), c, db.bookings[c.code]);
    }
  }

  lemma {:induction false} FailureKeepsStart(db: Db, c: Charge, code: Code)
    requires code in db.bookings
    ensures StartKept(db, FailureStep(db, c).0, code)
  {
    hide HasRow, Invalid, EventSeen;
  }

  lemma {:induction false} RefundKeepsStart(db: Db, c: Charge, code: Code)
    requires code in db.bookings
    ensures StartKept(db, RefundStep(db, c).0, code)
  {
    hide Release, HasRow, Invalid, EventSeen;
  }

  lemma {:induction false} CreateKeepsStart(db: Db, r: Request, code: Code)
    requires code in db.bookings
    ensures StartKept(db, CreateStep(db, r).0, code)
  {
  }

  lemma {:induction false} CancelKeepsStart(db: Db, cancelled: Code, on: int, code: Code)
    requires code in db.bookings
    ensures StartKept(db, CancelStep(db, cancelled, on).0, code)
  {
    hide Release;
  }

  lemma {:induction false} StaysPaying(db: Db, actions: seq<Action>, code: Code, since: int, grace: int)
    requires Paying(db, code, since, grace)
    requires forall i :: 0 <= i < |actions| ==> !actions[i].ChangeSettings?
    requires Run(db, actions).now < since + grace
    ensures Paying(Run(db, actions), code, since, grace)
  {
    hide Next, Paying;
    if |actions| > 0 {
      var init, last := actions[..|actions| - 1], actions[|actions| - 1];
      ClockGoesForward(Run(db, init), last);
      StaysPaying(db, init, code, since, grace);
      StepKeepsPaying(Run(db, init), last, code, since, grace);
    }
  }

  lemma {:induction false} ClockGoesForward(db: Db, a: Action)
    ensures db.now <= Next(db, a).now
  {
    hide ChargeStep, FailureStep, RefundStep, CreateStep, CancelStep, Taken;
    match a
    case DeliverCharge(c) => ReportsKeepTime(db, c);
    case DeliverFailure(c) => ReportsKeepTime(db, c);
    case DeliverRefund(c) => ReportsKeepTime(db, c);
    case Create(r) => CreateKeepsTime(db, r);
    case Cancel(code, on) => CancelKeepsTime(db, code, on);
    case _ =>
  }

  lemma {:induction false} ReportsKeepTime(db: Db, c: Charge)
    ensures ChargeStep(db, c).0.now == FailureStep(db, c).0.now == RefundStep(db, c).0.now == db.now
  {
    hide SettleStay, Release, HasRow, Invalid, EventSeen;
    ChargeIsOneOf(db, c);
    if c.code in db.bookings {
      SettlingMovesTheStatus(TakeMoney(NoteEvent(db, c), c), c, db.bookings[c.code]);
    }
    hide ChargeStep;
  }

  lemma {:induction false} CreateKeepsTime(db: Db, r: Request)
    ensures CreateStep(db, r).0.now == db.now
  {
  }

  lemma {:induction false} CancelKeepsTime(db: Db, code: Code, on: int)
    ensures CancelStep(db, code, on).0.now == db.now
  {
    hide Release;
  }

  /** A guest who has opened a payment keeps the stay for the whole grace: whatever else
      happens, and however often the sweeper runs, it is not expired before that. */
  lemma {:induction false} OpenedPaymentIsNotExpired(db: Db, code: Code, intent: string, actions: seq<Action>)
    requires code in db.bookings && db.bookings[code].status == Pending
    requires !Blank(intent) && forall i :: 0 <= i < |actions| ==> !actions[i].ChangeSettings?
    requires Run(Next(db, StartPayment(code, intent)), actions).now < db.now + db.settings.paymentGrace
    ensures var end := Run(Next(db, StartPayment(code, intent)), actions);
      code in end.bookings && end.bookings[code].status != Expired
  {
    StaysPaying(Next(db, StartPayment(code, intent)), actions, code, db.now, db.settings.paymentGrace);
  }

  /** Opening one writes down its id and the minute, and nothing else. */
  lemma {:induction false} StartOnTheRow(db: Db, code: Code, intent: string)
    requires code in db.bookings && !Blank(intent)
    ensures var db' := StartPaymentStep(db, code, intent);
      && OnlyRow(db, db', code) && db' == db.(bookings := db'.bookings)
      && db'.bookings[code].intent == intent && db'.bookings[code].paymentStartedAt == Some(db.now)
      && db'.bookings[code] == db.bookings[code].(intent := intent, paymentStartedAt := Some(db.now))
  {
  }

  // ---------------------------------------------------------------- the balance scans

  /** Nothing is to be taken from this stay on this day: it is not confirmed, nothing is
      scheduled or not yet, it is flagged, or it owes nothing. */
  predicate Spared(b: Booking, day: int) {
    || b.status != Confirmed
    || b.balanceChargeAt.None?
    || b.balanceChargeAt.value > day
    || b.chargeFailed
    || b.paid >= b.total
  }

  /** Whom the two scans list on a day: for a charge, everybody whose date has come and
      who still owes; for a warning, those of tomorrow as well, unless they were told. */
  lemma {:induction false} ScanListsExactly(db: Db, on: int, due: seq<Code>, code: Code)
    ensures IsAnswer(db, ChargesDue, on, due) ==>
      (code in due <==> code in db.bookings && !Spared(db.bookings[code], on))
    ensures IsAnswer(db, WarningsDue, on, due) ==>
      (code in due <==> code in db.bookings && !Spared(db.bookings[code], on + 1) && !db.bookings[code].warned)
  {
  }

  /** A scan works from the earliest date on, and lists nobody twice. */
  lemma {:induction false} ScanGoesByDate(db: Db, q: Query, on: int, due: seq<Code>, i: nat, j: nat)
    requires IsAnswer(db, q, on, due) && i < j < |due|
    ensures due[i] != due[j] && due[i] in db.bookings && due[j] in db.bookings
    ensures var early, late := db.bookings[due[i]].balanceChargeAt, db.bookings[due[j]].balanceChargeAt;
      early.Some? && late.Some? && early.value <= late.value
  {
  }

  /** Whoever is charged on a day was on the warning list the day before, or had been told
      already, as far as their stay then was as it is now. */
  lemma {:induction false} ChargedAreWarnedTheDayBefore(db: Db, on: int, warn: seq<Code>, charge: seq<Code>, code: Code)
    requires IsAnswer(db, WarningsDue, on, warn) && IsAnswer(db, ChargesDue, on + 1, charge)
    ensures code in charge ==> code in warn || db.bookings[code].warned
    ensures code in warn ==> code in charge
  {
    ScanListsExactly(db, on, warn, code);
    ScanListsExactly(db, on + 1, charge, code);
    hide Spared;
  }

  // ---------------------------------------------------------------- the owner

  /** A block goes in exactly where nobody has the room, and only a block comes out. */
  lemma {:induction false} BlocksOnTheCalendar(db: Db, s: Stay)
    ensures var (db', ok) := BlockStep(db, s);
      && (ok <==> s.checkin < s.checkout && RoomIsFree(db.occupied, s))
      && db' == (if ok then db.(occupied := db.occupied[s := Claim(Block, None, None)]) else db)
    ensures var (db', ok) := UnblockStep(db, s);
      && (ok <==> s in db.occupied && db.occupied[s].kind == Block)
      && db' == (if ok then db.(occupied := db.occupied - {s}) else db)
  {
    FreeOrTaken(db.occupied, s);
  }
}
