/** The database as the server drives it: each method is one transaction that
    updates the tables in place, statement by statement, and is proved to be the
    step of the same name. */
module Store {
  import opened Common
  import opened Ledger
  import opened Inn
  import Pricing

  /** ORDER BY the charge date. */
  function Insert(bookings: map<Code, Booking>, due: seq<Code>, code: Code): seq<Code>
    requires code in bookings && forall i :: 0 <= i < |due| ==> due[i] in bookings
  {
    var n := |due| - 1;
    if n < 0 || ChargeDate(bookings[due[n]]) <= ChargeDate(bookings[code]) then due + [code]
    else Insert(bookings, due[..n], code) + [due[n]]
  }

  /** A list in order, with one more at the end of it that is not before any other. */
  lemma {:induction false} AppendKeepsOrder(bookings: map<Code, Booking>, due: seq<Code>, code: Code)
    requires code in bookings && (forall i :: 0 <= i < |due| ==> due[i] in bookings)
    requires DistinctCodes(due) && ByChargeDate(bookings, due)
    requires forall c :: c in due ==> c != code && ChargeDate(bookings[c]) <= ChargeDate(bookings[code])
    ensures forall c :: c in due + [code] <==> c in due || c == code
    ensures (forall i :: 0 <= i < |due + [code]| ==> (due + [code])[i] in bookings)
    ensures DistinctCodes(due + [code]) && ByChargeDate(bookings, due + [code])
  {
    forall i | 0 <= i < |due| ensures due[i] != code && ChargeDate(bookings[due[i]]) <= ChargeDate(bookings[code]) {
      assert due[i] in due;
    }
  }

  lemma {:induction false} LastIsLatest(bookings: map<Code, Booking>, due: seq<Code>)
    requires |due| > 0 && forall i :: 0 <= i < |due| ==> due[i] in bookings
    requires DistinctCodes(due) && ByChargeDate(bookings, due)
    ensures forall c :: c in due ==> c in bookings && ChargeDate(bookings[c]) <= ChargeDate(bookings[due[|due| - 1]])
    ensures forall c :: c in due[..|due| - 1] ==> c in due && c != due[|due| - 1]
    ensures forall c :: c in due ==> c in due[..|due| - 1] || c == due[|due| - 1]
    ensures DistinctCodes(due[..|due| - 1]) && ByChargeDate(bookings, due[..|due| - 1])
  {
    assert due == due[..|due| - 1] + [due[|due| - 1]];
  }

  lemma {:induction false} InsertKeepsOrder(bookings: map<Code, Booking>, due: seq<Code>, code: Code)
    requires code in bookings && (forall i :: 0 <= i < |due| ==> due[i] in bookings)
    requires DistinctCodes(due) && code !in due && ByChargeDate(bookings, due)
    ensures var r := Insert(bookings, due, code);
      && (forall c :: c in r <==> c in due || c == code)
      && (forall i :: 0 <= i < |r| ==> r[i] in bookings)
      && DistinctCodes(r) && ByChargeDate(bookings, r)
  {
    hide DistinctCodes, ByChargeDate, ChargeDate;
    var n := |due| - 1;
    if n < 0 {
      NothingInOrder(bookings);
      AppendKeepsOrder(bookings, due, code);
    } else {
      LastIsLatest(bookings, due);
      if ChargeDate(bookings[due[n]]) <= ChargeDate(bookings[code]) {
        AppendKeepsOrder(bookings, due, code);
      } else {
        InsertKeepsOrder(bookings, due[..n], code);
        AppendKeepsOrder(bookings, Insert(bookings, due[..n], code), due[n]);
      }
    }
  }

  lemma {:induction false} NothingInOrder(bookings: map<Code, Booking>)
    ensures DistinctCodes([]) && ByChargeDate(bookings, [])
  {
  }

  class Tables {
    var bookings: map<Code, Booking>
    var occupied: Occupied
    var payments: seq<Payment>
    var events: set<string>
    var refundJobs: map<Code, int>
    var outbox: seq<Message>
    var settings: Settings
    var now: int
    var today: int

    ghost function State(): Db
      reads this
    {
      Db(bookings, occupied, payments, events, refundJobs, outbox, settings, now, today)
    }

    constructor (settings: Settings, now: int, today: int)
      ensures State() == Empty(settings, now, today)
    {
      bookings, occupied, payments, events, refundJobs, outbox := map[], map[], [], {}, map[], [];
      this.settings, this.now, this.today := settings, now, today;
    }

    // ---------------------------------------------------------------- statements

    /** noteEvent: true when the event had been recorded before. */
    method NoteEvent(c: Charge) returns (seen: bool)
      modifies this`events
      ensures seen == EventSeen(old(State()), c)
      ensures State() == if seen then old(State()) else Inn.NoteEvent(old(State()), c)
    {
      if Blank(c.event) {
        return false;
      }
      seen := c.event in events;
      events := events + {c.event};
      if seen {
        assert events == old(events);
      }
    }

    /** RecordPayment: false when the key was already there and nothing was inserted. */
    method RecordPayment(p: Payment) returns (inserted: bool)
      modifies this`payments
      ensures inserted == !HasRow(old(payments), p.stripeId, p.outcome)
      ensures payments == Record(old(payments), p)
    {
      inserted := !HasRow(payments, p.stripeId, p.outcome);
      if inserted {
        payments := payments + [p];
      }
    }

    /** One room at a time, each under its own savepoint: the claim that loses is
        undone and the ones before it stand. */
    method SecureRoom(code: Code, rooms: seq<Stay>) returns (secured: bool)
      modifies this`occupied
      ensures (secured, occupied) == Inn.SecureRoom(old(occupied), code, rooms)
    {
      if HasHold(occupied, code) {
        occupied := Promote(occupied, code);
        return true;
      }
      if HasRows(occupied, code) {
        return true;
      }
      if rooms == [] {
        return false;
      }
      for i := 0 to |rooms|
        invariant Reclaim(occupied, code, rooms[i..]) == Reclaim(old(occupied), code, rooms)
      {
        assert rooms[i..][0] == rooms[i] && rooms[i..][1..] == rooms[i + 1..];
        match ClaimRoom(occupied, rooms[i], Claim(Booked, Some(code), None))
        case None =>
          return false;
        case Some(claimed) =>
          occupied := claimed;
      }
      return true;
    }

    method QueueRefund(code: Code, target: int)
      modifies this`refundJobs
      ensures State() == Inn.QueueRefund(old(State()), code, target)
    {
      if code !in refundJobs {
        refundJobs := refundJobs[code := target];
      }
    }

    method ReleaseAndCancel(code: Code)
      requires code in bookings
      modifies this`occupied, this`bookings
      ensures State() == SetStatus(old(State()).(occupied := Release(old(occupied), code)), code, Cancelled)
    {
      occupied := Release(occupied, code);
      bookings := bookings[code := bookings[code].(status := Cancelled)];
    }

    // ---------------------------------------------------------------- money

    method RecordCharge(c: Charge) returns (r: Reply)
      modifies this
      ensures (State(), r) == ChargeStep(old(State()), c)
    {
      var invalid := Invalid(c);
      if invalid.Some? {
        return Rejected(invalid.value);
      }
      if c.code !in bookings {
        return Rejected(BookingNotFound);
      }
      var found := bookings[c.code];
      var seen := NoteEvent(c);
      if seen {
        return AlreadyApplied;
      }
      var inserted := RecordPayment(Payment(c.code, c.stripeId, c.kind, c.amount, Succeeded));
      if !inserted {
        return AlreadyApplied;
      }
      bookings := bookings[c.code := found.(paid := found.paid + c.amount)];
      if c.customer != "" && c.paymentMethod != "" {
        bookings := bookings[c.code := bookings[c.code].(customer := c.customer, paymentMethod := c.paymentMethod)];
      }
      assert State() == TakeMoney(Inn.NoteEvent(old(State()), c), c);

      var short := Shortfall(found, c.amount);
      if short > 0 {
        return Underpaid(short);
      }
      r := Settle(c, found);
    }

    method Settle(c: Charge, found: Booking) returns (r: Reply)
      requires c.code in bookings
      modifies this
      ensures (State(), r) == SettleStay(old(State()), c, found)
    {
      var secured := SecureRoom(c.code, found.rooms);
      if !secured || found.status == Cancelled {
        ReleaseAndCancel(c.code);
        QueueRefund(c.code, 0);
        outbox := outbox + [CancellationRefund(c.code, found.paid + c.amount)];
        return RefundDue(found.paid + c.amount);
      }
      var newlyConfirmed := found.status != Confirmed;
      bookings := bookings[c.code := bookings[c.code].(status := Confirmed)];
      if newlyConfirmed {
        outbox := outbox + ConfirmationMail(c.code, found, c.amount, c.ownerCopy);
      } else if c.kind == Balance {
        outbox := outbox + [BalanceReceipt(c.code, c.amount)];
      }
      return StayConfirmed;
    }

    method RecordFailure(c: Charge) returns (r: Reply)
      modifies this
      ensures (State(), r) == FailureStep(old(State()), c)
    {
      var invalid := Invalid(c);
      if invalid.Some? {
        return Rejected(invalid.value);
      }
      if c.code !in bookings {
        return Rejected(BookingNotFound);
      }
      var found := bookings[c.code];
      var seen := NoteEvent(c);
      if seen {
        return AlreadyApplied;
      }
      var inserted := RecordPayment(Payment(c.code, c.stripeId, c.kind, c.amount, Failed));
      if inserted && c.kind == Balance {
        bookings := bookings[c.code := found.(chargeFailed := true)];
        outbox := outbox + [BalanceFailed(c.code, found.total - found.paid)];
      }
      return AlreadyApplied;
    }

    method RecordRefund(c: Charge) returns (r: Reply)
      modifies this
      ensures (State(), r) == RefundStep(old(State()), c)
    {
      var invalid := Invalid(c);
      if invalid.Some? {
        return Rejected(invalid.value);
      }
      if c.code !in bookings {
        return Rejected(BookingNotFound);
      }
      var seen := NoteEvent(c);
      if seen {
        return AlreadyApplied;
      }
      var inserted := RecordPayment(Payment(c.code, c.stripeId, Refund, c.amount, Succeeded));
      if !inserted {
        return AlreadyApplied;
      }
      ReleaseAndCancel(c.code);
      return RefundDue(c.amount);
    }

    // ---------------------------------------------------------------- stays

    /** The insert and its retry. A collision aborts the transaction, and every
        statement after that is refused, so the loop never reaches a third code. */
    method InsertBooking(codes: Candidates, b: Booking) returns (code: Option<Code>)
      modifies this`bookings
      ensures code == AllocateCode(old(bookings), codes)
      ensures bookings == if code.Some? then old(bookings)[code.value := b] else old(bookings)
    {
      var aborted := false;
      for attempt := 0 to CODE_ATTEMPTS
        invariant bookings == old(bookings)
        invariant attempt == 0 <==> !aborted
        invariant aborted ==> codes[0] in bookings
      {
        if aborted {
          return None;
        }
        if codes[attempt] !in bookings {
          bookings := bookings[codes[attempt] := b];
          return Some(codes[attempt]);
        }
        aborted := true;
      }
      return None;
    }

    method CreateBooking(r: Request) returns (made: Created)
      modifies this
      ensures (State(), made) == CreateStep(old(State()), r)
    {
      if r.stay.checkout <= r.stay.checkin || r.stay.checkin < today {
        return NotMade(BadDates);
      }
      if r.offer.None? {
        return NotMade(RoomUnavailable);
      }
      if r.expectedTotal != 0 && r.expectedTotal != r.offer.value.total {
        return NotMade(PriceChanged);
      }
      if !QuoteAccepted(r.offer.value) {
        return NotMade(RowRefused);
      }
      ghost var before := State();
      var savedBookings := bookings;
      var b := NewBooking(Db(bookings, occupied, payments, events, refundJobs, outbox, settings, now, today), r,
        r.offer.value);
      var code := InsertBooking(r.codes, b);
      if code.None? {
        return NotMade(TransactionAborted);
      }
      var claim := if r.manual then Claim(Booked, code, None) else Claim(Hold, code, Some(now + settings.holdTtl));
      match ClaimRoom(occupied, r.stay, claim)
      case None =>
        bookings := savedBookings;
        return NotMade(RoomTaken);
      case Some(claimed) =>
        if r.manual && r.byLink && b.total <= 0 {
          bookings := savedBookings;
          return NotMade(NothingOutstanding);
        }
        occupied := claimed;
        if r.manual {
          outbox := outbox + PhoneMail(code.value, b, r);
        } else {
          assert before.outbox + [] == outbox;
        }
        return Made(code.value);
    }

    method Cancel(code: Code, on: int) returns (r: CancelReply)
      modifies this
      ensures (State(), r) == CancelStep(old(State()), code, on)
    {
      if code !in bookings {
        return NoBooking;
      }
      var found := bookings[code];
      if found.status != Confirmed {
        return NotCancellable;
      }
      if on >= found.checkin {
        return StayUnderway;
      }
      var quote := Pricing.Quote(found.total, found.total, 0, found.total, found.deposit, found.balance);
      var late := Pricing.IsLateCancellation(on, found.checkin);
      var refund := quote.Refund(found.paid, late, settings.processingRate);
      ReleaseAndCancel(code);
      if refund > 0 {
        QueueRefund(code, refund);
      }
      outbox := outbox + [CancellationRefund(code, refund)];
      return Cancellation(late, quote.Retained(found.paid, late, settings.processingRate), refund);
    }

    /** StartPayment: what keeps the sweeper off a guest who is mid-payment. */
    method StartPayment(code: Code, intent: string)
      modifies this`bookings
      ensures State() == StartPaymentStep(old(State()), code, intent)
    {
      if !Blank(intent) && code in bookings {
        bookings := bookings[code := bookings[code].(intent := intent, paymentStartedAt := Some(now))];
      }
    }

    /** open: the amount and its kind come from the row, the processor is asked, and the
        intent's id is written down once there is one. `intent` is the processor's
        answer, None when it could not be reached. */
    method OpenPayment(code: Code, intent: Option<string>) returns (r: Opened)
      modifies this`bookings
      ensures r ==
        if intent.None? && OpenFor(old(State()), code).Open? then NotOpened(ProcessorFailed)
        else OpenFor(old(State()), code)
      ensures State() == if r.Open? then StartPaymentStep(old(State()), code, intent.value) else old(State())
    {
      if code !in bookings {
        return NotOpened(NoSuchBooking);
      }
      var found := bookings[code];
      var payable := found.status == Pending || (found.status == Confirmed && found.balanceChargeAt.None?);
      if !payable {
        return NotOpened(NotPayable);
      }
      var quote := Pricing.Quote(found.total, found.total, 0, found.total, found.deposit, found.balance);
      var amount := quote.ChargeAtBooking(found.balanceChargeAt.None?) - found.paid;
      if amount <= 0 {
        return NotOpened(NothingToPay);
      }
      var saveCard := found.balanceChargeAt.Some?;
      var kind := Deposit;
      if !saveCard {
        kind := Full;
      }
      if found.status == Confirmed {
        kind := Balance;
      }
      if intent.None? {
        return NotOpened(ProcessorFailed);
      }
      StartPayment(code, intent.value);
      return Open(Opening(amount, kind, saveCard));
    }

    /** Two statements in an order that matters; another transaction may come between
        them, which is why a run has an action for each. */
    method Sweep()
      modifies this`occupied, this`bookings
      ensures State() == ExpireStep(SweepHoldsStep(old(State())))
    {
      occupied := WithoutExpiredHolds(occupied, now);
      label swept:
      var held := set s | s in occupied && occupied[s].kind == Hold && occupied[s].booking.Some? ::
        occupied[s].booking.value;
      ghost var db := State();
      bookings := map code | code in bookings ::
        if bookings[code].status == Pending && code !in held
           && (bookings[code].paymentStartedAt.None?
                || bookings[code].paymentStartedAt.value <= now - settings.paymentGrace)
        then bookings[code].(status := Expired) else bookings[code];
      forall code | code in bookings
        ensures code in held <==> HasHold(occupied, code)
      {
      }
      assert bookings == ExpireStep(db).bookings;
    }

    method BlockRoom(s: Stay) returns (ok: bool)
      modifies this`occupied
      ensures (State(), ok) == BlockStep(old(State()), s)
    {
      if s.checkout <= s.checkin {
        return false;
      }
      match ClaimRoom(occupied, s, Claim(Block, None, None))
      case None =>
        return false;
      case Some(claimed) =>
        occupied := claimed;
        return true;
    }

    method UnblockRoom(s: Stay) returns (ok: bool)
      modifies this`occupied
      ensures (State(), ok) == UnblockStep(old(State()), s)
    {
      ok := s in occupied && occupied[s].kind == Block;
      if ok {
        occupied := occupied - {s};
      }
    }

    /** The scan: every booking is looked at, and the matching ones put in their place. */
    method ListDue(q: Query, on: int) returns (due: seq<Code>)
      ensures IsAnswer(State(), q, on, due)
    {
      due := [];
      var left := bookings.Keys;
      while left != {}
        invariant left <= bookings.Keys
        invariant DistinctCodes(due)
        invariant forall i :: 0 <= i < |due| ==> due[i] in bookings && Matches(bookings[due[i]], q, on)
        invariant forall code :: code in due <==> code in bookings && code !in left && Matches(bookings[code], q, on)
        invariant ByChargeDate(bookings, due)
        decreases |left|
      {
        var code :| code in left;
        left := left - {code};
        if Matches(bookings[code], q, on) {
          InsertKeepsOrder(bookings, due, code);
          due := Insert(bookings, due, code);
        }
      }
    }

    /** warnOne. */
    method WarnOne(code: Code, amount: int)
      modifies this`bookings, this`outbox
      ensures State() == WarnStep(old(State()), code, amount)
    {
      if code in bookings {
        outbox := outbox + [BalanceWarning(code, amount)];
        bookings := bookings[code := bookings[code].(warned := true)];
      }
    }

    /** flagUncollectable. */
    method FlagUncollectable(code: Code)
      modifies this`bookings, this`outbox
      ensures State() == UncollectableStep(old(State()), code)
    {
      if code in bookings {
        var found := bookings[code];
        bookings := bookings[code := found.(chargeFailed := true)];
        outbox := outbox + [BalanceFailed(code, found.total - found.paid)];
      }
    }
  }
}
