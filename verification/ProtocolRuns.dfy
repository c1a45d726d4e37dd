/** What the protocol promises over whole runs. */
module ProtocolRuns {
  import opened Common
  import opened Ledger
  import opened Inn
  import opened Protocol
  import ProtocolSteps

  ghost predicate AllGenuine(actions: seq<Action>) {
    forall i :: 0 <= i < |actions| ==> Genuine(actions[i])
  }

  /** How the tables may differ after any number of steps. */
  ghost predicate Grows(db: Db, db': Db) {
    && db.bookings.Keys <= db'.bookings.Keys
    && db.payments <= db'.payments
    && db.events <= db'.events
    && forall code :: code in db.bookings ==> Evolves(db.bookings[code], db'.bookings[code])
  }

  /** The invariant holds in every reachable state, and no run undoes anything. */
  lemma {:induction false} EveryRun(db: Db, actions: seq<Action>)
    requires Inv(db) && AllGenuine(actions)
    ensures Inv(Run(db, actions)) && Grows(db, Run(db, actions))
  {
    if |actions| > 0 {
      var init := actions[..|actions| - 1];
      EveryRun(db, init);
      ProtocolSteps.EveryStep(Run(db, init), actions[|actions| - 1]);
      GrowsFurther(db, Run(db, init), Run(db, actions));
    }
  }

  lemma {:induction false} GrowsFurther(db: Db, mid: Db, db': Db)
    requires Grows(db, mid) && StepOk(mid, db')
    ensures Grows(db, db')
  {
    hide Inv;
    forall code | code in db.bookings ensures Evolves(db.bookings[code], db'.bookings[code]) {
      assert BookingStep(mid, db', code);
    }
  }

  lemma {:induction false} RunConcat(db: Db, xs: seq<Action>, ys: seq<Action>)
    ensures Run(db, xs + ys) == Run(Run(db, xs), ys)
  {
    if |ys| == 0 {
      assert xs + ys == xs;
    } else {
      assert (xs + ys)[..|xs + ys| - 1] == xs + ys[..|ys| - 1];
      RunConcat(db, xs, ys[..|ys| - 1]);
    }
  }

  // ---------------------------------------------------------------- rooms

  ghost predicate Sleeps(s: Stay, room: int, night: int) {
    s.room == room && s.checkin <= night < s.checkout
  }

  /** Status and occupancy agree in every reachable state, so no two confirmed
      stays share a room-night, and an owner's block never covers one either. */
  lemma {:induction false} NoRoomNightIsSoldTwice(settings: Settings, now: int, today: int, actions: seq<Action>,
        a: Code, b: Code, s: Stay, t: Stay, room: int, night: int)
    requires AllGenuine(actions)
    requires var db := Run(Empty(settings, now, today), actions);
      && a in db.bookings && b in db.bookings && a != b
      && db.bookings[a].status == Confirmed && db.bookings[b].status == Confirmed
      && s in db.bookings[a].rooms && t in db.bookings[b].rooms
    ensures !(Sleeps(s, room, night) && Sleeps(t, room, night))
    ensures var db := Run(Empty(settings, now, today), actions);
      forall u :: u in db.occupied && db.occupied[u].kind == Block ==>
        !(Sleeps(u, room, night) && Sleeps(s, room, night))
  {
    var db := Run(Empty(settings, now, today), actions);
    EmptyIsFine(settings, now, today);
    EveryRun(Empty(settings, now, today), actions);
    assert BookingOk(db, a) && BookingOk(db, b);
    assert db.occupied[s].booking == Some(a) && db.occupied[t].booking == Some(b);
    assert !Overlap(s, t);
    forall u | u in db.occupied && db.occupied[u].kind == Block
      ensures !(Sleeps(u, room, night) && Sleeps(s, room, night))
    {
      assert !Overlap(u, s);
    }
  }

  ghost predicate NoneOverlap(rooms: seq<Stay>) {
    forall i, j :: 0 <= i < j < |rooms| ==> !Overlap(rooms[i], rooms[j])
  }

  ghost predicate AllFree(o: Occupied, rooms: seq<Stay>) {
    forall i :: 0 <= i < |rooms| ==> !Taken(o, rooms[i])
  }

  lemma {:induction false} ReclaimSucceedsWhenFree(o: Occupied, code: Code, rooms: seq<Stay>)
    requires forall s :: s in rooms ==> s.checkin < s.checkout
    ensures Reclaim(o, code, rooms).0 <==> AllFree(o, rooms) && NoneOverlap(rooms)
    decreases |rooms|
  {
    if rooms != [] {
      var first, rest := rooms[0], rooms[1..];
      assert first in rooms;
      if Taken(o, first) {
        assert !AllFree(o, rooms);
      } else {
        var claimed := o[first := Claim(Booked, Some(code), None)];
        ReclaimSucceedsWhenFree(claimed, code, rest);
        forall i | 0 <= i < |rest|
          ensures Taken(claimed, rest[i]) <==> Taken(o, rest[i]) || Overlap(first, rest[i])
        {
          if Taken(claimed, rest[i]) {
            var t :| t in claimed && Overlap(t, rest[i]);
            assert t == first || t in o;
          }
          if Taken(o, rest[i]) {
            var t :| t in o && Overlap(t, rest[i]);
            assert t in claimed;
          }
          if Overlap(first, rest[i]) {
            assert first in claimed;
          }
        }
        forall i | 0 <= i < |rest| ensures rest[i] == rooms[i + 1] {
        }
        FreeRestIsFree(o, claimed, rooms);
      }
    }
  }

  lemma {:induction false} FreeRestIsFree(o: Occupied, claimed: Occupied, rooms: seq<Stay>)
    requires rooms != [] && !Taken(o, rooms[0])
    requires forall i :: 0 <= i < |rooms[1..]| ==>
      (Taken(claimed, rooms[1..][i]) <==> Taken(o, rooms[1..][i]) || Overlap(rooms[0], rooms[1..][i]))
    ensures AllFree(claimed, rooms[1..]) && NoneOverlap(rooms[1..]) <==> AllFree(o, rooms) && NoneOverlap(rooms)
  {
    var rest := rooms[1..];
    if AllFree(claimed, rest) && NoneOverlap(rest) {
      forall i | 0 <= i < |rooms| ensures !Taken(o, rooms[i]) {
        if i > 0 {
          assert rooms[i] == rest[i - 1];
        }
      }
      forall i, j | 0 <= i < j < |rooms| ensures !Overlap(rooms[i], rooms[j]) {
        assert rooms[j] == rest[j - 1];
        if i > 0 {
          assert rooms[i] == rest[i - 1];
        }
      }
    }
    if AllFree(o, rooms) && NoneOverlap(rooms) {
      forall i | 0 <= i < |rest| ensures !Taken(claimed, rest[i]) {
        assert rest[i] == rooms[i + 1];
      }
      forall i, j | 0 <= i < j < |rest| ensures !Overlap(rest[i], rest[j]) {
        assert rest[i] == rooms[i + 1] && rest[j] == rooms[j + 1];
      }
    }
  }

  /** Money that arrives after the hold was swept: it confirms the stay exactly when
      every room is still free, and otherwise it is all due back. */
  lemma {:induction false} LatePaymentConfirmsExactlyWhenRoomsAreFree(db: Db, c: Charge)
    requires Inv(db) && c.code in db.bookings && c.kind != Refund
    requires Invalid(c).None? && !EventSeen(db, c) && !HasRow(db.payments, c.stripeId, Succeeded)
    requires var b := db.bookings[c.code];
      && (b.status == Pending || b.status == Expired) && HoldsNothing(db.occupied, c.code)
      && Shortfall(b, c.amount) == 0
    ensures var b := db.bookings[c.code]; var r := ChargeStep(db, c).1;
      && (r == StayConfirmed <==> AllFree(db.occupied, b.rooms) && NoneOverlap(b.rooms))
      && (r != StayConfirmed ==> r == RefundDue(b.paid + c.amount))
  {
    var b := db.bookings[c.code];
    assert BookingOk(db, c.code);
    ReclaimSucceedsWhenFree(db.occupied, c.code, b.rooms);
  }

  // ---------------------------------------------------------------- status

  predicate IsConfirmed(db: Db, code: Code) {
    code in db.bookings && db.bookings[code].status == Confirmed
  }

  /** How many steps of a run turned this booking into a confirmed one. */
  function TimesConfirmed(db: Db, actions: seq<Action>, code: Code): nat {
    if |actions| == 0 then 0
    else
      var init := actions[..|actions| - 1];
      TimesConfirmed(db, init, code)
      + if !IsConfirmed(Run(db, init), code) && IsConfirmed(Run(db, actions), code) then 1 else 0
  }

  lemma {:induction false} ConfirmationsCountTheConfirming(db: Db, actions: seq<Action>, code: Code)
    requires db == Empty(db.settings, db.now, db.today) && AllGenuine(actions)
    ensures Inv(Run(db, actions))
    ensures TimesConfirmed(db, actions, code) == Confirmations(Run(db, actions).outbox, code)
  {
    if |actions| == 0 {
      EmptyIsFine(db.settings, db.now, db.today);
    } else {
      var init, a := actions[..|actions| - 1], actions[|actions| - 1];
      ConfirmationsCountTheConfirming(db, init, code);
      ProtocolSteps.EveryStep(Run(db, init), a);
      StepCountsTheConfirming(Run(db, init), Run(db, actions), code);
    }
  }

  lemma {:induction false} StepCountsTheConfirming(before: Db, after: Db, code: Code)
    requires Inv(before) && StepOk(before, after)
    ensures Confirmations(after.outbox, code)
         == Confirmations(before.outbox, code) + if !IsConfirmed(before, code) && IsConfirmed(after, code) then 1 else 0
  {
    if code in before.bookings {
      assert BookingStep(before, after, code);
    } else {
      ProtocolSteps.NewCodeIsUnused(before, code);
      if code in after.bookings {
        assert BookingOk(after, code);
      } else {
        ProtocolSteps.NewCodeIsUnused(after, code);
      }
    }
  }

  /** A booking becomes confirmed at most once, whatever happens to it, and the
      guest is sent exactly as many confirmations as that. */
  lemma {:induction false} ConfirmedAtMostOnce(settings: Settings, now: int, today: int, actions: seq<Action>,
        code: Code)
    requires AllGenuine(actions)
    ensures var db := Empty(settings, now, today);
      TimesConfirmed(db, actions, code) == Confirmations(Run(db, actions).outbox, code) <= 1
  {
    var db := Empty(settings, now, today);
    ConfirmationsCountTheConfirming(db, actions, code);
    var final := Run(db, actions);
    if code in final.bookings {
      assert BookingOk(final, code);
    } else {
      ProtocolSteps.NewCodeIsUnused(final, code);
    }
  }

  /** A cancelled stay stays cancelled and holds no room, whatever is delivered to it. */
  lemma {:induction false} CancelledIsTerminal(db: Db, actions: seq<Action>, code: Code)
    requires Inv(db) && AllGenuine(actions)
    requires code in db.bookings && db.bookings[code].status == Cancelled
    ensures code in Run(db, actions).bookings && Run(db, actions).bookings[code].status == Cancelled
    ensures HoldsNothing(Run(db, actions).occupied, code)
  {
    EveryRun(db, actions);
    assert BookingOk(Run(db, actions), code);
  }

  // ---------------------------------------------------------------- booking

  /** A booking that is made holds the room it asked for, and one that is refused
      changes nothing: no row, no claim, no message. */
  lemma {:induction false} CreateTakesTheRoomOrNothing(db: Db, r: Request)
    requires Inv(db)
    ensures var (db', made) := CreateStep(db, r);
      && (made.NotMade? ==> db' == db)
      && (made.Made? ==>
           && made.code !in db.bookings && made.code in db'.bookings
           && db'.bookings[made.code].rooms == [r.stay]
           && !Taken(db.occupied, r.stay) && r.stay in db'.occupied
           && db'.occupied[r.stay].booking == Some(made.code)
           && (db'.occupied[r.stay].kind == Hold <==> db'.bookings[made.code].status == Pending)
           && (r.manual <==> db'.bookings[made.code].status == Confirmed))
  {
  }

  // ---------------------------------------------------------------- sweeping

  function Swept(db: Db): Db {
    ExpireStep(SweepHoldsStep(db))
  }

  predicate HasLiveHold(db: Db, code: Code) {
    exists s :: s in db.occupied && db.occupied[s].kind == Hold && db.occupied[s].booking == Some(code)
      && db.occupied[s].expiresAt.Some? && db.occupied[s].expiresAt.value > db.now
  }

  predicate PaymentUnderWay(db: Db, b: Booking) {
    b.paymentStartedAt.Some? && b.paymentStartedAt.value > db.now - db.settings.paymentGrace
  }

  /** A sweep takes back exactly the holds that have lapsed and expires exactly the
      pending bookings nothing protects any more: no live hold, and no payment opened
      within the grace. A guest who is paying is left alone, whoever else is swept. */
  lemma {:induction false} SweepExpiresExactlyTheAbandoned(db: Db, code: Code)
    requires Inv(db) && code in db.bookings
    ensures var b := db.bookings[code]; var b' := Swept(db).bookings[code];
      && b' == b.(status := b'.status)
      && (b'.status != b.status <==> b.status == Pending && !HasLiveHold(db, code) && !PaymentUnderWay(db, b))
      && (b'.status != b.status ==> b'.status == Expired && HoldsNothing(Swept(db).occupied, code))
      && (HasHold(Swept(db).occupied, code) <==> HasLiveHold(db, code))
  {
    var held := SweepHoldsStep(db);
    LiveHoldSurvives(db, code);
    if Abandoned(held, code) {
      assert BookingOk(db, code);
      ProtocolSteps.SweptMatches(db.occupied, db.now, code, db.bookings[code]);
      PendingHoldsByHoldOrNotAtAll(held.occupied, code, db.bookings[code]);
    }
  }

  lemma {:induction false} LiveHoldSurvives(db: Db, code: Code)
    requires Inv(db)
    ensures HasHold(SweepHoldsStep(db).occupied, code) <==> HasLiveHold(db, code)
  {
    var o := SweepHoldsStep(db).occupied;
    if HasHold(o, code) {
      var s :| s in o && o[s].kind == Hold && o[s].booking == Some(code);
      assert RowOk(s, db.occupied[s], db.bookings);
    }
    if HasLiveHold(db, code) {
      var s :| s in db.occupied && db.occupied[s].kind == Hold && db.occupied[s].booking == Some(code)
        && db.occupied[s].expiresAt.Some? && db.occupied[s].expiresAt.value > db.now;
      assert s in o && o[s] == db.occupied[s];
    }
  }

  lemma {:induction false} PendingHoldsByHoldOrNotAtAll(o: Occupied, code: Code, b: Booking)
    requires b.status == Pending && RoomsOk(b.rooms) && StatusMatchesRows(o, code, b)
    ensures HoldsNothing(o, code) || HasHold(o, code)
  {
    if e :| Holds(o, code, b.rooms, Hold, Some(e)) {
      assert b.rooms[0] in b.rooms;
      assert o[b.rooms[0]].kind == Hold;
    }
  }

  /** Running it twice at once is running it once. */
  lemma {:induction false} SweepIsIdempotent(db: Db)
    ensures Swept(Swept(db)) == Swept(db)
  {
    var once := Swept(db);
    assert SweepHoldsStep(once).occupied == once.occupied;
    forall code | code in once.bookings ensures !Abandoned(SweepHoldsStep(once), code) {
      assert SweepHoldsStep(once) == once;
      assert HasHold(once.occupied, code) == HasHold(SweepHoldsStep(db).occupied, code);
    }
    assert Swept(once).bookings == once.bookings;
  }

  // ---------------------------------------------------------------- money

  /** The gross follows the ledger exactly when the charge is not labelled a refund:
      RecordCharge accepts that label, and then grows the gross without a charge row. */
  lemma {:induction false} GrossFollowsTheLedgerExactlyForCharges(db: Db, c: Charge)
    requires Inv(db) && c.code in db.bookings && Invalid(c).None?
    requires !EventSeen(db, c) && !HasRow(db.payments, c.stripeId, Succeeded)
    ensures var db' := ChargeStep(db, c).0;
      && c.code in db'.bookings
      && (db'.bookings[c.code].paid == Gross(db'.payments, c.code) <==> c.kind != Refund)
  {
    assert BookingOk(db, c.code);
    ChargeRecords(db, c);
    AppendRow(db.payments, ProtocolSteps.ChargeRow(c), c.code);
  }

  /** In every reachable state the gross is the sum of the succeeded charges, and
      no later step lowers it. */
  lemma {:induction false} GrossIsTheLedger(settings: Settings, now: int, today: int, actions: seq<Action>,
        more: seq<Action>, code: Code)
    requires AllGenuine(actions) && AllGenuine(more)
    requires code in Run(Empty(settings, now, today), actions).bookings
    ensures var db := Run(Empty(settings, now, today), actions);
      var later := Run(Empty(settings, now, today), actions + more);
      && db.bookings[code].paid == Gross(db.payments, code)
      && code in later.bookings && later.bookings[code].paid == Gross(later.payments, code) >= Gross(db.payments, code)
  {
    var empty := Empty(settings, now, today);
    EmptyIsFine(settings, now, today);
    EveryRun(empty, actions);
    RunConcat(empty, actions, more);
    EveryRun(Run(empty, actions), more);
    assert BookingOk(Run(empty, actions), code);
    assert BookingOk(Run(empty, actions + more), code);
  }

  datatype Delivery = ChargeReport | FailureReport | RefundReport

  function Deliver(d: Delivery, c: Charge): Action {
    match d
    case ChargeReport => DeliverCharge(c)
    case FailureReport => DeliverFailure(c)
    case RefundReport => DeliverRefund(c)
  }

  /** Delivering it again, at any later point of any run, changes nothing but the
      event log: at-least-once delivery is exactly once in its effects. */
  lemma {:induction false} RedeliveryIsInert(db: Db, d: Delivery, c: Charge, between: seq<Action>)
    requires Inv(db) && AllGenuine(between) && Genuine(Deliver(d, c))
    requires Invalid(c).None? && c.code in db.bookings
    ensures var later := Run(Next(db, Deliver(d, c)), between);
      Next(later, Deliver(d, c)) == later.(events := Next(later, Deliver(d, c)).events)
  {
    var first := Next(db, Deliver(d, c));
    ProtocolSteps.EveryStep(db, Deliver(d, c));
    EveryRun(first, between);
    var later := Run(first, between);
    DeliveryLeavesItsMark(db, d, c);
    if HasRow(first.payments, c.stripeId, RowOutcome(d)) {
      RowsStay(first.payments, later.payments, c.stripeId, RowOutcome(d));
    }
    MarkedIsInert(later, d, c);
  }

  function RowOutcome(d: Delivery): Outcome {
    if d == FailureReport then Failed else Succeeded
  }

  ghost predicate Marked(db: Db, d: Delivery, c: Charge) {
    EventSeen(db, c) || HasRow(db.payments, c.stripeId, RowOutcome(d))
  }

  lemma {:induction false} DeliveryLeavesItsMark(db: Db, d: Delivery, c: Charge)
    requires Invalid(c).None? && c.code in db.bookings
    ensures Marked(Next(db, Deliver(d, c)), d, c)
  {
    if !Marked(db, d, c) {
      match d
      case ChargeReport => ChargeRecords(db, c);
      case FailureReport => FailureRecords(db, c);
      case RefundReport => RefundRecords(db, c);
    }
  }

  lemma {:induction false} MarkedIsInert(db: Db, d: Delivery, c: Charge)
    requires Invalid(c).None? && c.code in db.bookings && Marked(db, d, c)
    ensures Next(db, Deliver(d, c)) == db.(events := Next(db, Deliver(d, c)).events)
  {
  }

  lemma {:induction false} RowsStay(rows: seq<Payment>, later: seq<Payment>, id: string, outcome: Outcome)
    requires rows <= later && HasRow(rows, id, outcome)
    ensures HasRow(later, id, outcome)
  {
    var i :| 0 <= i < |rows| && rows[i].stripeId == id && rows[i].outcome == outcome;
    assert later[i] == rows[i];
  }

  /** A decline and the retry that went through share one intent. Both rows are
      kept and the money is counted once, whichever is delivered first. */
  lemma {:induction false} FailureAndSuccessBothKept(db: Db, failed: Charge, paid: Charge)
    requires Inv(db) && paid.kind != Refund
    requires failed.code == paid.code && paid.code in db.bookings && failed.stripeId == paid.stripeId
    requires Invalid(failed).None? && Invalid(paid).None?
    requires !EventSeen(db, failed) && !EventSeen(db, paid) && (failed.event == paid.event ==> Blank(paid.event))
    requires !HasRow(db.payments, paid.stripeId, Succeeded)
    ensures var x := Run(db, [DeliverFailure(failed), DeliverCharge(paid)]);
      var y := Run(db, [DeliverCharge(paid), DeliverFailure(failed)]);
      && HasRow(x.payments, paid.stripeId, Failed) && HasRow(x.payments, paid.stripeId, Succeeded)
      && HasRow(y.payments, paid.stripeId, Failed) && HasRow(y.payments, paid.stripeId, Succeeded)
      && paid.code in x.bookings && paid.code in y.bookings
      && x.bookings[paid.code].paid == y.bookings[paid.code].paid == db.bookings[paid.code].paid + paid.amount
  {
    RunTwo(db, DeliverFailure(failed), DeliverCharge(paid));
    RunTwo(db, DeliverCharge(paid), DeliverFailure(failed));
    FailureThenCharge(db, failed, paid);
    ChargeThenFailure(db, failed, paid);
  }

  lemma {:induction false} RunTwo(db: Db, a: Action, b: Action)
    ensures Run(db, [a, b]) == Next(Next(db, a), b)
  {
    assert [a, b][..1] == [a] && [a][..0] == [];
    assert Run(db, [a]) == Next(Run(db, []), a);
  }

  lemma {:induction false} ChargeRecords(db: Db, c: Charge)
    requires c.code in db.bookings && Invalid(c).None? && !EventSeen(db, c)
    requires !HasRow(db.payments, c.stripeId, Succeeded)
    ensures var db' := ChargeStep(db, c).0;
      && db'.payments == db.payments + [ProtocolSteps.ChargeRow(c)]
      && HasRow(db'.payments, c.stripeId, Succeeded)
      && db'.events == NoteEvent(db, c).events
      && c.code in db'.bookings && db'.bookings[c.code].paid == db.bookings[c.code].paid + c.amount
  {
    SettlingKeepsTheMoney(TakeMoney(NoteEvent(db, c), c), c, db.bookings[c.code]);
    assert ChargeStep(db, c).0.payments[|db.payments|].stripeId == c.stripeId;
  }

  lemma {:induction false} SettlingKeepsTheMoney(db: Db, c: Charge, found: Booking)
    requires c.code in db.bookings
    ensures var db' := SettleStay(db, c, found).0;
      && db'.payments == db.payments && db'.events == db.events
      && c.code in db'.bookings && db'.bookings[c.code].paid == db.bookings[c.code].paid
  {
    hide SecureRoom, ConfirmationMail;
  }

  lemma {:induction false} RefundRecords(db: Db, c: Charge)
    requires c.code in db.bookings && Invalid(c).None? && !EventSeen(db, c)
    requires !HasRow(db.payments, c.stripeId, Succeeded)
    ensures HasRow(RefundStep(db, c).0.payments, c.stripeId, Succeeded)
  {
    hide Release;
    assert RefundStep(db, c).0.payments[|db.payments|].stripeId == c.stripeId;
  }

  lemma {:induction false} FailureRecords(db: Db, c: Charge)
    requires c.code in db.bookings && Invalid(c).None? && !EventSeen(db, c)
    ensures var db' := FailureStep(db, c).0;
      && HasRow(db'.payments, c.stripeId, Failed)
      && db.payments <= db'.payments
      && (forall i :: |db.payments| <= i < |db'.payments| ==> db'.payments[i].outcome == Failed)
      && db'.events == NoteEvent(db, c).events
      && c.code in db'.bookings && db'.bookings[c.code].paid == db.bookings[c.code].paid
  {
    var db' := FailureStep(db, c).0;
    if !HasRow(db.payments, c.stripeId, Failed) {
      assert db'.payments[|db.payments|].stripeId == c.stripeId;
    }
  }

  lemma {:induction false} FailureThenCharge(db: Db, failed: Charge, paid: Charge)
    requires failed.code == paid.code && paid.code in db.bookings && failed.stripeId == paid.stripeId
    requires Invalid(failed).None? && Invalid(paid).None?
    requires !EventSeen(db, failed) && !EventSeen(db, paid) && (failed.event == paid.event ==> Blank(paid.event))
    requires !HasRow(db.payments, paid.stripeId, Succeeded)
    ensures var x := ChargeStep(FailureStep(db, failed).0, paid).0;
      && HasRow(x.payments, paid.stripeId, Failed) && HasRow(x.payments, paid.stripeId, Succeeded)
      && paid.code in x.bookings && x.bookings[paid.code].paid == db.bookings[paid.code].paid + paid.amount
  {
    var mid := FailureStep(db, failed).0;
    FailureRecords(db, failed);
    assert !HasRow(mid.payments, paid.stripeId, Succeeded) by {
      forall i | 0 <= i < |mid.payments|
        ensures !(mid.payments[i].stripeId == paid.stripeId && mid.payments[i].outcome == Succeeded)
      {
        if i < |db.payments| {
          assert mid.payments[i] == db.payments[i];
        }
      }
    }
    ChargeRecords(mid, paid);
    RowsStay(mid.payments, ChargeStep(mid, paid).0.payments, paid.stripeId, Failed);
  }

  lemma {:induction false} ChargeThenFailure(db: Db, failed: Charge, paid: Charge)
    requires failed.code == paid.code && paid.code in db.bookings && failed.stripeId == paid.stripeId
    requires Invalid(failed).None? && Invalid(paid).None?
    requires !EventSeen(db, failed) && !EventSeen(db, paid) && (failed.event == paid.event ==> Blank(paid.event))
    requires !HasRow(db.payments, paid.stripeId, Succeeded)
    ensures var y := FailureStep(ChargeStep(db, paid).0, failed).0;
      && HasRow(y.payments, paid.stripeId, Failed) && HasRow(y.payments, paid.stripeId, Succeeded)
      && paid.code in y.bookings && y.bookings[paid.code].paid == db.bookings[paid.code].paid + paid.amount
  {
    var mid := ChargeStep(db, paid).0;
    ChargeRecords(db, paid);
    FailureRecords(mid, failed);
    RowsStay(mid.payments, FailureStep(mid, failed).0.payments, paid.stripeId, Succeeded);
  }

  /** Every confirmed stay that was not taken by phone has collected at least what
      was due at booking. */
  lemma {:induction false} ConfirmedMeansPaid(settings: Settings, now: int, today: int, actions: seq<Action>,
        code: Code)
    requires AllGenuine(actions)
    requires var db := Run(Empty(settings, now, today), actions); IsConfirmed(db, code) && !db.bookings[code].phone
    ensures var db := Run(Empty(settings, now, today), actions);
      Gross(db.payments, code) >= db.bookings[code].DueAtBooking()
  {
    EmptyIsFine(settings, now, today);
    EveryRun(Empty(settings, now, today), actions);
    assert BookingOk(Run(Empty(settings, now, today), actions), code);
  }

  /** A payment opened here and captured in full is never Underpaid, whatever is
      recorded between opening it and the webhook. */
  lemma {:induction false} OpenedPaymentIsNeverShort(db: Db, code: Code, between: seq<Action>, c: Charge)
    requires Inv(db) && AllGenuine(between)
    requires OpenFor(db, code).Open?
    requires c.code == code && c.amount == OpenFor(db, code).opening.amount
    ensures !ChargeStep(Run(db, between), c).1.Underpaid?
  {
    EveryRun(db, between);
  }

  /** A confirmed stay's payment is never answered RefundDue. */
  lemma {:induction false} ConfirmedStayNeverLosesItsRoom(db: Db, c: Charge)
    requires Inv(db) && IsConfirmed(db, c.code)
    ensures !ChargeStep(db, c).1.RefundDue?
  {
    assert BookingOk(db, c.code);
    SecureRoomKeeps(db.occupied, db.bookings, c.code, db.bookings[c.code]);
  }

  /** RefundDue cancels the stay, gives back every room and leaves a job queued, in
      one step; the amount it names is the whole gross. The job returns everything
      exactly when no job with an amount of its own was waiting already. */
  lemma {:induction false} RefundDueClosesOut(db: Db, c: Charge)
    requires Inv(db) && c.kind != Refund && ChargeStep(db, c).1.RefundDue?
    ensures var (db', r) := ChargeStep(db, c);
      && db'.bookings[c.code].status == Cancelled && HoldsNothing(db'.occupied, c.code)
      && r.refund == db'.bookings[c.code].paid == Gross(db'.payments, c.code)
      && Owed(Charges(db'.payments, c.code), 0) == r.refund
      && c.code in db'.refundJobs
      && (db'.refundJobs[c.code] == 0 <==> c.code !in db.refundJobs || db.refundJobs[c.code] == 0)
      && db'.outbox == db.outbox + [CancellationRefund(c.code, r.refund)]
  {
    ProtocolSteps.ChargeKeeps(db, c);
    var db' := ChargeStep(db, c).0;
    SettlingToRefund(TakeMoney(NoteEvent(db, c), c), c, db.bookings[c.code]);
    assert BookingOk(db', c.code);
    CancelledHoldsNothing(db', c.code);
    hide Inv, BookingOk, StatusMatchesRows, SettleStay, HasRow;
  }

  lemma {:induction false} CancelledHoldsNothing(db: Db, code: Code)
    requires code in db.bookings && BookingOk(db, code) && db.bookings[code].status == Cancelled
    ensures HoldsNothing(db.occupied, code) && db.bookings[code].paid == Gross(db.payments, code)
  {
  }

  lemma {:induction false} SettlingToRefund(db: Db, c: Charge, found: Booking)
    requires c.code in db.bookings && SettleStay(db, c, found).1.RefundDue?
    ensures var (db', r) := SettleStay(db, c, found);
      && c.code in db'.bookings && db'.bookings[c.code].status == Cancelled
      && db'.bookings[c.code].paid == db.bookings[c.code].paid
      && r.refund == found.paid + c.amount
      && db'.refundJobs == (if c.code in db.refundJobs then db.refundJobs else db.refundJobs[c.code := 0])
      && db'.outbox == db.outbox + [CancellationRefund(c.code, r.refund)]
  {
    hide SecureRoom, Release, ConfirmStay;
  }

  /** The other side of that: a guest cancels, and while the job for their share is
      still waiting the balance lands. The guest is told the whole gross is coming
      back, but the job that will run still carries the smaller amount. */
  lemma {:induction false} LateChargeAfterCancelIsAbsorbed(db: Db, on: int, c: Charge)
    requires Inv(db) && IsConfirmed(db, c.code) && c.code !in db.refundJobs
    requires CancelStep(db, c.code, on).1.Cancellation? && CancelStep(db, c.code, on).1.refund > 0
    requires c.kind != Refund && Invalid(c).None? && !EventSeen(db, c) && !HasRow(db.payments, c.stripeId, Succeeded)
    requires Shortfall(db.bookings[c.code], c.amount) == 0
    ensures var (cancelled, share) := CancelStep(db, c.code, on); var (db', r) := ChargeStep(cancelled, c);
      && r == RefundDue(db.bookings[c.code].paid + c.amount)
      && c.code in db'.refundJobs && db'.refundJobs[c.code] == share.refund < r.refund
  {
    assert BookingOk(db, c.code);
  }
}
