/** Every step keeps the invariant, and moves each booking only forward. */
module ProtocolSteps {
  import opened Common
  import opened Ledger
  import opened Inn
  import opened Protocol

  lemma {:induction false} SameTables(db: Db, db': Db)
    requires Inv(db)
    requires db'.bookings == db.bookings && db'.occupied == db.occupied
    requires db'.payments == db.payments && db'.outbox == db.outbox && db.events <= db'.events
    ensures StepOk(db, db')
  {
    forall code | code in db.bookings ensures BookingOk(db', code) {
      assert BookingOk(db, code);
    }
  }

  lemma {:induction false} SameRowsEverywhere(o: Occupied, code: Code)
    ensures OthersKeepRows(o, o, code)
  {
  }

  // ---------------------------------------------------------------- a charge

  ghost function ChargeRow(c: Charge): Payment {
    Payment(c.code, c.stripeId, c.kind, c.amount, Succeeded)
  }

  /** The tables once the charge is on the ledger, its gross and its row; the room
      has not been looked at yet. */
  lemma {:induction false} MoneyTaken(db: Db, c: Charge)
    requires c.code in db.bookings && BookingOk(db, c.code) && Invalid(c).None? && c.kind != Refund
    requires !HasRow(db.payments, c.stripeId, Succeeded)
    ensures var paid := TakeMoney(NoteEvent(db, c), c);
      && paid.payments == db.payments + [ChargeRow(c)]
      && paid.occupied == db.occupied && paid.outbox == db.outbox && db.events <= paid.events
      && paid.bookings.Keys == db.bookings.Keys
      && (forall other :: other in db.bookings && other != c.code ==> paid.bookings[other] == db.bookings[other])
      && Evolves(db.bookings[c.code], paid.bookings[c.code])
      && paid.bookings[c.code].status == db.bookings[c.code].status
      && paid.bookings[c.code].paid == db.bookings[c.code].paid + c.amount == Gross(paid.payments, c.code)
      && paid.bookings[c.code].DueAtBooking() == db.bookings[c.code].DueAtBooking()
  {
    hide StatusMatchesRows, MailMatchesStatus, HasRow, Gross, RoomsOk;
    AppendRow(db.payments, ChargeRow(c), c.code);
  }

  /** Settling the stay, whichever way it goes, is a step of this booking alone. */
  lemma {:induction false} ChargeSettled(db: Db, c: Charge)
    requires Inv(db) && c.code in db.bookings && Invalid(c).None? && c.kind != Refund
    requires !HasRow(db.payments, c.stripeId, Succeeded)
    requires Shortfall(db.bookings[c.code], c.amount) == 0
    ensures StepOk(db, SettleStay(TakeMoney(NoteEvent(db, c), c), c, db.bookings[c.code]).0)
  {
    hide SecureRoom, StepOk, StatusMatchesRows, OccupancyOk, LedgerOk, MailMatchesStatus, TakeMoney, ConfirmStay;
    hide CloseOut, Gross, HasRow;
    var found := db.bookings[c.code];
    var paid := TakeMoney(NoteEvent(db, c), c);
    assert BookingOk(db, c.code);
    MoneyTaken(db, c);
    SecureRoomKeeps(db.occupied, db.bookings, c.code, found);
    var (secured, occupied) := SecureRoom(db.occupied, c.code, found.rooms);
    var held := paid.(occupied := occupied);
    if !secured || found.status == Cancelled {
      ClosedOut(db, held, c, found);
    } else {
      StayIsConfirmed(db, held, c, found);
    }
  }

  /** What both endings know: the money is taken and the rooms are as secured. */
  ghost predicate Secured(db: Db, held: Db, c: Charge, found: Booking) {
    && Inv(db) && c.code in db.bookings && found == db.bookings[c.code]
    && held.bookings.Keys == db.bookings.Keys
    && (forall other :: other in db.bookings && other != c.code ==> held.bookings[other] == db.bookings[other])
    && Evolves(found, held.bookings[c.code])
    && held.bookings[c.code].paid == found.paid + c.amount == Gross(held.payments, c.code)
    && held.payments == db.payments + [ChargeRow(c)]
    && c.amount > 0 && !HasRow(db.payments, c.stripeId, Succeeded)
    && held.outbox == db.outbox && db.events <= held.events
    && OccupancyOk(held.occupied, db.bookings)
    && OthersKeepRows(db.occupied, held.occupied, c.code)
  }

  lemma {:induction false} ClosedOut(db: Db, held: Db, c: Charge, found: Booking)
    requires Secured(db, held, c, found)
    ensures StepOk(db, CloseOut(held, c.code, found.paid + c.amount))
  {
    assert BookingOk(db, c.code);
    var db' := CloseOut(held, c.code, found.paid + c.amount);
    var mail := [CancellationRefund(c.code, found.paid + c.amount)];
    ReleaseKeeps(held.occupied, db.bookings, c.code);
    OthersKeepRowsTwice(db.occupied, held.occupied, db'.occupied, c.code);
    NoConfirmations(mail, c.code);
    ConfirmationsConcat(db.outbox, mail, c.code);
    OneBookingStep(db, db', c.code, [ChargeRow(c)], mail);
  }

  ghost function ConfirmedMail(c: Charge, found: Booking): seq<Message> {
    if found.status != Confirmed then ConfirmationMail(c.code, found, c.amount, c.ownerCopy)
    else if c.kind == Balance then [BalanceReceipt(c.code, c.amount)]
    else []
  }

  lemma {:induction false} ConfirmedMailCount(c: Charge, found: Booking)
    ensures Confirmations(ConfirmedMail(c, found), c.code) == if found.status != Confirmed then 1 else 0
    ensures forall m :: m in ConfirmedMail(c, found) ==> m.code == c.code
  {
    var mail := ConfirmedMail(c, found);
    if found.status != Confirmed {
      OneConfirmation(c.code, found, c.amount, c.ownerCopy, []);
      assert mail + [] == mail;
    } else {
      NoConfirmations(mail, c.code);
    }
  }

  lemma {:induction false} ConfirmedMailAdds(outbox: seq<Message>, c: Charge, found: Booking)
    requires found.status != Cancelled && MailMatchesStatus(outbox, c.code, found)
    ensures Confirmations(outbox + ConfirmedMail(c, found), c.code) == 1
  {
    ConfirmedMailCount(c, found);
    ConfirmationsConcat(outbox, ConfirmedMail(c, found), c.code);
  }

  lemma {:induction false} ConfirmStayTables(held: Db, c: Charge, found: Booking)
    requires c.code in held.bookings
    ensures var db' := ConfirmStay(held, c, found);
      && db' == SetStatus(held, c.code, Confirmed).(outbox := held.outbox + ConfirmedMail(c, found))
  {
    assert held.outbox + [] == held.outbox;
  }

  lemma {:induction false} StayIsConfirmed(db: Db, held: Db, c: Charge, found: Booking)
    requires Secured(db, held, c, found)
    requires found.status != Cancelled && Shortfall(found, c.amount) == 0
    requires Holds(held.occupied, c.code, found.rooms, Booked, None)
    ensures StepOk(db, ConfirmStay(held, c, found))
  {
    var mail := ConfirmedMail(c, found);
    var db' := SetStatus(held, c.code, Confirmed).(outbox := held.outbox + mail);
    ConfirmStayTables(held, c, found);
    ConfirmedMailCount(c, found);
    assert BookingOk(db, c.code);
    ConfirmedMailAdds(db.outbox, c, found);
    assert BookingOk(db', c.code);
    OneBookingStep(db, db', c.code, [ChargeRow(c)], mail);
  }

  lemma {:induction false} ChargeKeeps(db: Db, c: Charge)
    requires Inv(db) && c.kind != Refund
    ensures StepOk(db, ChargeStep(db, c).0)
  {
    if Invalid(c).Some? || c.code !in db.bookings || EventSeen(db, c) {
      SameTables(db, db);
    } else if HasRow(db.payments, c.stripeId, Succeeded) {
      SameTables(db, NoteEvent(db, c));
    } else if Shortfall(db.bookings[c.code], c.amount) > 0 {
      var paid := TakeMoney(NoteEvent(db, c), c);
      assert BookingOk(db, c.code);
      MoneyTaken(db, c);
      SameRowsEverywhere(db.occupied, c.code);
      NoConfirmations([], c.code);
      assert db.outbox + [] == db.outbox;
      OneBookingStep(db, paid, c.code, [ChargeRow(c)], []);
    } else {
      ChargeSettled(db, c);
    }
  }

  // ---------------------------------------------------------------- the other steps

  /** A step that rewrites one booking's row, adds mail and perhaps one ledger row
      that is not a charge, and leaves its status and rooms alone. */
  lemma {:induction false} RowEdited(db: Db, db': Db, code: Code, rows: seq<Payment>, mail: seq<Message>)
    requires Inv(db) && code in db.bookings && TouchesOnly(db, db', code, rows, mail)
    requires db'.occupied == db.occupied
    requires forall p :: p in rows ==> !IsCharge(p, code)
    requires forall m :: m in mail ==> !m.GuestConfirmation?
    requires Evolves(db.bookings[code], db'.bookings[code])
    requires db'.bookings[code].status == db.bookings[code].status
    requires db'.bookings[code].paid == db.bookings[code].paid
    ensures StepOk(db, db')
  {
    assert BookingOk(db, code);
    assert db.bookings.Keys + {code} == db.bookings.Keys;
    NoConfirmations(mail, code);
    ConfirmationsConcat(db.outbox, mail, code);
    if |rows| == 1 {
      assert rows == [rows[0]] && rows[0] in rows;
      AppendRow(db.payments, rows[0], code);
    } else {
      assert db.payments + rows == db.payments;
    }
    OneBookingStep(db, db', code, rows, mail);
  }

  lemma {:induction false} FailureKeeps(db: Db, c: Charge)
    requires Inv(db)
    ensures StepOk(db, FailureStep(db, c).0)
  {
    if Invalid(c).Some? || c.code !in db.bookings || EventSeen(db, c) {
      SameTables(db, db);
    } else if HasRow(db.payments, c.stripeId, Failed) {
      SameTables(db, NoteEvent(db, c));
    } else {
      FailureNoted(db, c);
    }
  }

  lemma {:induction false} FailureNoted(db: Db, c: Charge)
    requires Inv(db) && c.code in db.bookings && Invalid(c).None? && !EventSeen(db, c)
    requires !HasRow(db.payments, c.stripeId, Failed)
    ensures StepOk(db, FailureStep(db, c).0)
  {
    var db' := FailureStep(db, c).0;
    var rows := [Payment(c.code, c.stripeId, c.kind, c.amount, Failed)];
    var b := db.bookings[c.code];
    var mail := if c.kind == Balance then [BalanceFailed(c.code, b.total - b.paid)] else [];
    SameRowsEverywhere(db.occupied, c.code);
    assert db'.outbox == db.outbox + mail by {
      assert db.outbox + [] == db.outbox;
    }
    assert TouchesOnly(db, db', c.code, rows, mail);
    RowEdited(db, db', c.code, rows, mail);
  }

  /** A step that gives the rooms up and cancels the stay. */
  lemma {:induction false} GivenUp(db: Db, db': Db, code: Code, rows: seq<Payment>, mail: seq<Message>)
    requires Inv(db) && code in db.bookings
    requires db'.bookings == db.bookings[code := db.bookings[code].(status := Cancelled)]
    requires db'.occupied == Release(db.occupied, code)
    requires db'.payments == db.payments + rows && |rows| <= 1
    requires forall p :: p in rows ==>
        p.code == code && p.amount > 0 && !HasRow(db.payments, p.stripeId, p.outcome) && !IsCharge(p, code)
    requires db'.outbox == db.outbox + mail && forall m :: m in mail ==> m.code == code && !m.GuestConfirmation?
    requires db.events <= db'.events
    ensures StepOk(db, db')
  {
    assert BookingOk(db, code);
    ReleaseKeeps(db.occupied, db.bookings, code);
    NoConfirmations(mail, code);
    ConfirmationsConcat(db.outbox, mail, code);
    if |rows| == 1 {
      assert rows == [rows[0]] && rows[0] in rows;
      AppendRow(db.payments, rows[0], code);
    } else {
      assert db.payments + rows == db.payments;
    }
    OneBookingStep(db, db', code, rows, mail);
  }

  lemma {:induction false} RefundKeeps(db: Db, c: Charge)
    requires Inv(db)
    ensures StepOk(db, RefundStep(db, c).0)
  {
    if Invalid(c).Some? || c.code !in db.bookings || EventSeen(db, c) {
      SameTables(db, db);
    } else if HasRow(db.payments, c.stripeId, Succeeded) {
      SameTables(db, NoteEvent(db, c));
    } else {
      assert db.outbox + [] == db.outbox;
      GivenUp(db, RefundStep(db, c).0, c.code, [Payment(c.code, c.stripeId, Refund, c.amount, Succeeded)], []);
    }
  }

  lemma {:induction false} CancelKeeps(db: Db, code: Code, on: int)
    requires Inv(db)
    ensures StepOk(db, CancelStep(db, code, on).0)
  {
    var (db', r) := CancelStep(db, code, on);
    if r.Cancellation? {
      assert db.payments + [] == db.payments;
      GivenUp(db, db', code, [], [CancellationRefund(code, r.refund)]);
    } else {
      SameTables(db, db);
    }
  }

  /** What a booking that was made has changed. */
  lemma {:induction false} CreateMade(db: Db, r: Request)
    requires CreateStep(db, r).1.Made?
    ensures r.offer.Some? && QuoteAccepted(r.offer.value) && r.stay.checkin < r.stay.checkout
    ensures var (db', made) := CreateStep(db, r); var b := NewBooking(db, r, r.offer.value);
      && made.code !in db.bookings && !Taken(db.occupied, r.stay)
      && db' == db.(bookings := db.bookings[made.code := b],
                    occupied := db.occupied[r.stay := NewClaim(db, r, made.code)],
                    outbox := db.outbox + if r.manual then PhoneMail(made.code, b, r) else [])
  {
    hide NewBooking, PhoneMail, NewClaim;
  }

  lemma {:induction false} CreateRefused(db: Db, r: Request)
    ensures CreateStep(db, r).1.NotMade? ==> CreateStep(db, r).0 == db
  {
  }

  lemma {:induction false} CreateKeeps(db: Db, r: Request)
    requires Inv(db)
    ensures StepOk(db, CreateStep(db, r).0)
  {
    hide CreateStep, PhoneMail, StepOk, ConfirmationMail;
    var (db', made) := CreateStep(db, r);
    if made.NotMade? {
      CreateRefused(db, r);
      SameTables(db, db);
    } else {
      CreateMade(db, r);
      var code := made.code;
      var b := NewBooking(db, r, r.offer.value);
      var mail := if r.manual then PhoneMail(code, b, r) else [];
      assert db'.outbox == db.outbox + mail && db'.payments == db.payments + [];
      NewCodeIsUnused(db, code);
      NewStayMail(db, r, code, mail);
      forall s | s in db.occupied
        ensures RowOk(s, db.occupied[s], db'.bookings) && db.occupied[s].booking != Some(code)
      {
      }
      ClaimKeeps(db.occupied, db'.bookings, r.stay, NewClaim(db, r, code));
      NewStayHolds(db, r, code);
      ConfirmationsConcat(db.outbox, mail, code);
      assert BookingOk(db', code);
      assert TouchesOnly(db, db', code, [], mail);
      OneBookingStep(db, db', code, [], mail);
    }
  }

  lemma {:induction false} NewCodeIsUnused(db: Db, code: Code)
    requires Inv(db) && code !in db.bookings
    ensures Gross(db.payments, code) == 0 && Confirmations(db.outbox, code) == 0
  {
    forall i | 0 <= i < |db.payments| ensures db.payments[i].code != code {
    }
    NothingOnLedger(db.payments, code);
    NoConfirmations(db.outbox, code);
  }

  lemma {:induction false} NewStayMail(db: Db, r: Request, code: Code, mail: seq<Message>)
    requires r.offer.Some?
    requires mail == if r.manual then PhoneMail(code, NewBooking(db, r, r.offer.value), r) else []
    ensures Confirmations(mail, code) == if r.manual then 1 else 0
    ensures forall m :: m in mail ==> m.code == code
  {
    if r.manual {
      var b := NewBooking(db, r, r.offer.value);
      OneConfirmation(code, b, 0, r.ownerCopy, if r.byLink then [PaymentRequest(code, b.total - b.paid)] else []);
    } else {
      NoConfirmations(mail, code);
    }
  }

  lemma {:induction false} NothingOnLedger(rows: seq<Payment>, code: Code)
    requires forall i :: 0 <= i < |rows| ==> rows[i].code != code
    ensures Charges(rows, code) == [] && Gross(rows, code) == 0
  {
    assert Amounts([]) == [];
    if |rows| > 0 {
      NothingOnLedger(rows[..|rows| - 1], code);
    }
  }

  lemma {:induction false} NewStayHolds(db: Db, r: Request, code: Code)
    requires forall s :: s in db.occupied ==> db.occupied[s].booking != Some(code)
    requires r.offer.Some?
    ensures StatusMatchesRows(db.occupied[r.stay := NewClaim(db, r, code)], code, NewBooking(db, r, r.offer.value))
  {
    var c := NewClaim(db, r, code);
    assert Holds(db.occupied[r.stay := c], code, [r.stay], c.kind, c.expiresAt);
  }

  /** A sweep takes a booking's holds all together or not at all: they share one expiry. */
  lemma {:induction false} SweepKeeps(db: Db)
    requires Inv(db)
    ensures StepOk(db, SweepHoldsStep(db))
  {
    var o' := WithoutExpiredHolds(db.occupied, db.now);
    forall code | code in db.bookings ensures BookingOk(SweepHoldsStep(db), code) {
      assert BookingOk(db, code);
      SweptMatches(db.occupied, db.now, code, db.bookings[code]);
    }
  }

  lemma {:induction false} SweptMatches(o: Occupied, now: int, code: Code, b: Booking)
    requires StatusMatchesRows(o, code, b)
    ensures StatusMatchesRows(WithoutExpiredHolds(o, now), code, b)
  {
    if b.status == Pending && !HoldsNothing(o, code) {
      var e :| Holds(o, code, b.rooms, Hold, Some(e));
      if e <= now {
        assert HoldsNothing(WithoutExpiredHolds(o, now), code);
      } else {
        assert Holds(WithoutExpiredHolds(o, now), code, b.rooms, Hold, Some(e));
      }
    }
  }

  lemma {:induction false} ExpireKeeps(db: Db)
    requires Inv(db)
    ensures StepOk(db, ExpireStep(db))
  {
    forall code | code in db.bookings ensures BookingOk(ExpireStep(db), code) {
      assert BookingOk(db, code);
    }
  }

  lemma {:induction false} OwnerRowsOnly(db: Db, o': Occupied)
    requires Inv(db) && OccupancyOk(o', db.bookings) && AllKeepRows(db.occupied, o')
    ensures StepOk(db, db.(occupied := o'))
  {
    forall code | code in db.bookings ensures BookingOk(db.(occupied := o'), code) {
      assert BookingOk(db, code);
      SameRowsSameMatch(db.occupied, o', code, db.bookings[code]);
    }
  }

  lemma {:induction false} BlockKeeps(db: Db, s: Stay)
    requires Inv(db)
    ensures StepOk(db, BlockStep(db, s).0)
    ensures StepOk(db, UnblockStep(db, s).0)
  {
    if BlockStep(db, s).1 {
      ClaimKeeps(db.occupied, db.bookings, s, Claim(Block, None, None));
      OwnerRowsOnly(db, db.occupied[s := Claim(Block, None, None)]);
    } else {
      SameTables(db, db);
    }
    if UnblockStep(db, s).1 {
      OwnerRowsOnly(db, db.occupied - {s});
    } else {
      SameTables(db, db);
    }
  }

  lemma {:induction false} StartPaymentKeeps(db: Db, code: Code, intent: string)
    requires Inv(db)
    ensures StepOk(db, StartPaymentStep(db, code, intent))
  {
    if Blank(intent) || code !in db.bookings {
      SameTables(db, db);
    } else {
      assert db.payments + [] == db.payments && db.outbox + [] == db.outbox;
      SameRowsEverywhere(db.occupied, code);
      RowEdited(db, StartPaymentStep(db, code, intent), code, [], []);
    }
  }

  lemma {:induction false} WarnKeeps(db: Db, code: Code, amount: int)
    requires Inv(db)
    ensures StepOk(db, WarnStep(db, code, amount))
  {
    if code !in db.bookings {
      SameTables(db, db);
    } else {
      assert db.payments + [] == db.payments;
      SameRowsEverywhere(db.occupied, code);
      RowEdited(db, WarnStep(db, code, amount), code, [], [BalanceWarning(code, amount)]);
    }
  }

  lemma {:induction false} UncollectableKeeps(db: Db, code: Code)
    requires Inv(db)
    ensures StepOk(db, UncollectableStep(db, code))
  {
    if code !in db.bookings {
      SameTables(db, db);
    } else {
      var b := db.bookings[code];
      assert db.payments + [] == db.payments;
      SameRowsEverywhere(db.occupied, code);
      RowEdited(db, UncollectableStep(db, code), code, [], [BalanceFailed(code, b.total - b.paid)]);
    }
  }

  /** Every action, refused or not, is a legal step. */
  lemma {:induction false} EveryStep(db: Db, a: Action)
    requires Inv(db) && Genuine(a)
    ensures StepOk(db, Next(db, a))
  {
    match a
    case Create(r) => CreateKeeps(db, r);
    case StartPayment(code, intent) => StartPaymentKeeps(db, code, intent);
    case DeliverCharge(c) => ChargeKeeps(db, c);
    case DeliverFailure(c) => FailureKeeps(db, c);
    case DeliverRefund(c) => RefundKeeps(db, c);
    case Cancel(code, on) => CancelKeeps(db, code, on);
    case SweepHolds => SweepKeeps(db);
    case ExpireAbandoned => ExpireKeeps(db);
    case BlockRoom(s) => BlockKeeps(db, s);
    case UnblockRoom(s) => BlockKeeps(db, s);
    case WarnBalance(code, amount) => WarnKeeps(db, code, amount);
    case FlagUncollectable(code) => UncollectableKeeps(db, code);
    case AskForRefund(code, target) => SameTables(db, Next(db, a));
    case FinishRefundJob(code) => SameTables(db, Next(db, a));
    case ChangeSettings(settings) => SameTables(db, Next(db, a));
    case Tick(minutes, days) => SameTables(db, Next(db, a));
  }
}
