/** What every step of the booking protocol keeps, and what follows over whole runs. */
module Protocol {
  import opened Common
  import opened Ledger
  import opened Inn

  // ---------------------------------------------------------------- occupancy

  ghost predicate Exclusive(o: Occupied) {
    forall s, t :: s in o && t in o && s != t ==> !Overlap(s, t)
  }

  /** The constraints on one row of room_occupancy. */
  ghost predicate RowOk(s: Stay, c: Claim, bookings: map<Code, Booking>) {
    && s.checkin < s.checkout
    && (c.kind == Hold <==> c.expiresAt.Some?)
    && (c.kind == Block <==> c.booking.None?)
    && (c.booking.Some? ==> c.booking.value in bookings)
  }

  ghost predicate OccupancyOk(o: Occupied, bookings: map<Code, Booking>) {
    && Exclusive(o)
    && forall s :: s in o ==> RowOk(s, o[s], bookings)
  }

  /** The booking holds exactly these rooms, each with the same claim. */
  ghost predicate Holds(o: Occupied, code: Code, rooms: seq<Stay>, kind: ClaimKind, expires: Option<int>) {
    && (forall s :: s in rooms ==> s in o && o[s] == Claim(kind, Some(code), expires))
    && (forall s :: s in o && o[s].booking == Some(code) ==> s in rooms)
  }

  ghost predicate HoldsNothing(o: Occupied, code: Code) {
    forall s :: s in o ==> o[s].booking != Some(code)
  }

  /** Every row of this booking is the same in both tables. */
  ghost predicate SameRows(o: Occupied, o': Occupied, code: Code) {
    && (forall s :: s in o && o[s].booking == Some(code) ==> s in o' && o'[s] == o[s])
    && (forall s :: s in o' && o'[s].booking == Some(code) ==> s in o && o'[s] == o[s])
  }

  ghost predicate OthersKeepRows(o: Occupied, o': Occupied, code: Code) {
    forall other :: other != code ==> SameRows(o, o', other)
  }

  ghost predicate AllKeepRows(o: Occupied, o': Occupied) {
    forall code :: SameRows(o, o', code)
  }

  /** The status a booking shows and the rows it has agree. */
  ghost predicate StatusMatchesRows(o: Occupied, code: Code, b: Booking) {
    match b.status
    case Pending => HoldsNothing(o, code) || exists e :: Holds(o, code, b.rooms, Hold, Some(e))
    case Confirmed => Holds(o, code, b.rooms, Booked, None)
    case Cancelled => HoldsNothing(o, code)
    case Expired => HoldsNothing(o, code)
  }

  ghost predicate RoomsOk(rooms: seq<Stay>) {
    |rooms| > 0 && forall s :: s in rooms ==> s.checkin < s.checkout
  }

  lemma {:induction false} ClaimKeeps(o: Occupied, bookings: map<Code, Booking>, s: Stay, c: Claim)
    requires OccupancyOk(o, bookings) && RowOk(s, c, bookings) && !Taken(o, s)
    ensures s !in o
    ensures OccupancyOk(o[s := c], bookings)
    ensures c.booking.Some? ==> OthersKeepRows(o, o[s := c], c.booking.value)
    ensures c.booking.None? ==> AllKeepRows(o, o[s := c])
  {
    if s in o {
      assert Overlap(s, s);
    }
    forall t | t in o ensures !Overlap(t, s) && !Overlap(s, t) {
    }
  }

  lemma {:induction false} PromoteKeeps(o: Occupied, bookings: map<Code, Booking>, code: Code, rooms: seq<Stay>, e: int)
    requires OccupancyOk(o, bookings) && Holds(o, code, rooms, Hold, Some(e))
    ensures OccupancyOk(Promote(o, code), bookings)
    ensures Holds(Promote(o, code), code, rooms, Booked, None)
    ensures OthersKeepRows(o, Promote(o, code), code)
  {
  }

  lemma {:induction false} ReleaseKeeps(o: Occupied, bookings: map<Code, Booking>, code: Code)
    requires OccupancyOk(o, bookings)
    ensures OccupancyOk(Release(o, code), bookings)
    ensures HoldsNothing(Release(o, code), code)
    ensures OthersKeepRows(o, Release(o, code), code)
  {
  }

  lemma {:induction false} OthersKeepRowsTwice(o: Occupied, o': Occupied, o'': Occupied, code: Code)
    requires OthersKeepRows(o, o', code) && OthersKeepRows(o', o'', code)
    ensures OthersKeepRows(o, o'', code)
  {
    forall other | other != code ensures SameRows(o, o'', other) {
      assert SameRows(o, o', other) && SameRows(o', o'', other);
    }
  }

  /** Taking rooms back one by one: all of them or a prefix, and nobody else's. */
  lemma {:induction false} ReclaimKeeps(o: Occupied, bookings: map<Code, Booking>, code: Code, before: seq<Stay>,
        rooms: seq<Stay>)
    requires OccupancyOk(o, bookings) && code in bookings
    requires Holds(o, code, before, Booked, None)
    requires forall s :: s in rooms ==> s.checkin < s.checkout
    ensures OccupancyOk(Reclaim(o, code, rooms).1, bookings)
    ensures OthersKeepRows(o, Reclaim(o, code, rooms).1, code)
    ensures Reclaim(o, code, rooms).0 ==> Holds(Reclaim(o, code, rooms).1, code, before + rooms, Booked, None)
    decreases |rooms|
  {
    if rooms == [] {
      assert before + rooms == before;
    } else if !Taken(o, rooms[0]) {
      var c := Claim(Booked, Some(code), None);
      assert rooms[0] in rooms;
      ClaimKeeps(o, bookings, rooms[0], c);
      var claimed := o[rooms[0] := c];
      assert Holds(claimed, code, before + [rooms[0]], Booked, None);
      ReclaimKeeps(claimed, bookings, code, before + [rooms[0]], rooms[1..]);
      OthersKeepRowsTwice(o, claimed, Reclaim(o, code, rooms).1, code);
      assert before + [rooms[0]] + rooms[1..] == before + rooms;
    }
  }

  /** Securing a room ends with the stay holding all of its rooms as bookings, or
      reports that it could not. A confirmed stay always succeeds. */
  lemma {:induction false} SecureRoomKeeps(o: Occupied, bookings: map<Code, Booking>, code: Code, b: Booking)
    requires OccupancyOk(o, bookings) && code in bookings
    requires RoomsOk(b.rooms) && StatusMatchesRows(o, code, b)
    ensures OccupancyOk(SecureRoom(o, code, b.rooms).1, bookings)
    ensures OthersKeepRows(o, SecureRoom(o, code, b.rooms).1, code)
    ensures SecureRoom(o, code, b.rooms).0 ==> Holds(SecureRoom(o, code, b.rooms).1, code, b.rooms, Booked, None)
    ensures b.status == Confirmed ==> SecureRoom(o, code, b.rooms) == (true, o)
  {
    assert b.rooms[0] in b.rooms;
    if b.status == Confirmed {
      assert o[b.rooms[0]].booking == Some(code);
    } else if HoldsNothing(o, code) {
      assert Holds(o, code, [], Booked, None);
      ReclaimKeeps(o, bookings, code, [], b.rooms);
      assert [] + b.rooms == b.rooms;
    } else {
      var e :| Holds(o, code, b.rooms, Hold, Some(e));
      assert o[b.rooms[0]].kind == Hold;
      PromoteKeeps(o, bookings, code, b.rooms, e);
    }
  }

  // ---------------------------------------------------------------- messages

  function Confirmations(outbox: seq<Message>, code: Code): nat {
    if |outbox| == 0 then 0
    else
      Confirmations(outbox[..|outbox| - 1], code)
      + if outbox[|outbox| - 1].GuestConfirmation? && outbox[|outbox| - 1].code == code then 1 else 0
  }

  lemma {:induction false} ConfirmationsConcat(xs: seq<Message>, ys: seq<Message>, code: Code)
    ensures Confirmations(xs + ys, code) == Confirmations(xs, code) + Confirmations(ys, code)
  {
    if |ys| == 0 {
      assert xs + ys == xs;
    } else {
      assert (xs + ys)[..|xs + ys| - 1] == xs + ys[..|ys| - 1];
      ConfirmationsConcat(xs, ys[..|ys| - 1], code);
    }
  }

  lemma {:induction false} NoConfirmations(xs: seq<Message>, code: Code)
    requires forall m :: m in xs ==> !m.GuestConfirmation? || m.code != code
    ensures Confirmations(xs, code) == 0
  {
    if |xs| > 0 {
      assert xs[|xs| - 1] in xs;
      NoConfirmations(xs[..|xs| - 1], code);
    }
  }

  lemma {:induction false} OneConfirmation(code: Code, b: Booking, paidNow: int, ownerCopy: bool, extra: seq<Message>)
    requires forall m :: m in extra ==> !m.GuestConfirmation?
    ensures Confirmations(ConfirmationMail(code, b, paidNow, ownerCopy) + extra, code) == 1
  {
    var mail := ConfirmationMail(code, b, paidNow, ownerCopy);
    assert mail == [mail[0]] + mail[1..];
    ConfirmationsConcat([mail[0]], mail[1..], code);
    assert Confirmations([mail[0]], code) == 1 by {
      assert [mail[0]][..0] == [];
    }
    NoConfirmations(mail[1..], code);
    NoConfirmations(extra, code);
    ConfirmationsConcat(mail, extra, code);
  }

  // ---------------------------------------------------------------- the invariant

  /** A stay that was ever confirmed has its one confirmation; no other has any. */
  ghost predicate MailMatchesStatus(outbox: seq<Message>, code: Code, b: Booking) {
    match b.status
    case Pending => Confirmations(outbox, code) == 0
    case Expired => Confirmations(outbox, code) == 0
    case Confirmed => Confirmations(outbox, code) == 1
    case Cancelled => Confirmations(outbox, code) <= 1
  }

  ghost predicate BookingOk(db: Db, code: Code)
    requires code in db.bookings
  {
    var b := db.bookings[code];
    && RoomsOk(b.rooms)
    && StatusMatchesRows(db.occupied, code, b)
    && b.paid == Gross(db.payments, code)
    && MailMatchesStatus(db.outbox, code, b)
    // a stay booked on the website was confirmed by its money
    && (b.status == Confirmed && !b.phone ==> b.paid >= b.DueAtBooking())
    && 0 <= b.deposit <= b.total
  }

  ghost predicate LedgerOk(payments: seq<Payment>, bookings: map<Code, Booking>) {
    && KeysUnique(payments)
    && AmountsPositive(payments)
    && forall i :: 0 <= i < |payments| ==> payments[i].code in bookings
  }

  ghost predicate Inv(db: Db) {
    && OccupancyOk(db.occupied, db.bookings)
    && LedgerOk(db.payments, db.bookings)
    && (forall m :: m in db.outbox ==> m.code in db.bookings)
    && forall code {:trigger BookingOk(db, code)} :: code in db.bookings ==> BookingOk(db, code)
  }

  /** RecordCharge is only ever asked to record money coming in: the webhook's kind
      is the one the server put on the intent, and the balance job's is its own. */
  predicate Genuine(a: Action) {
    a.DeliverCharge? ==> a.charge.kind != Refund
  }

  lemma {:induction false} EmptyIsFine(settings: Settings, now: int, today: int)
    ensures Inv(Empty(settings, now, today))
  {
  }

  predicate Moves(from: Status, to: Status) {
    || to == from
    || to == Cancelled
    || (from == Pending && to != Pending)
    || (from == Expired && to == Confirmed)
  }

  /** How one booking may differ after any run: its terms are fixed, its gross
      only grows and its status only moves forward. */
  ghost predicate Evolves(b: Booking, b': Booking) {
    && b'.rooms == b.rooms && b'.checkin == b.checkin && b'.checkout == b.checkout
    && b'.total == b.total && b'.deposit == b.deposit && b'.balance == b.balance
    && b'.balanceChargeAt == b.balanceChargeAt && b'.phone == b.phone
    && b'.paid >= b.paid
    && Moves(b.status, b'.status)
  }

  predicate NewStatus(s: Status) {
    s == Pending || s == Confirmed
  }

  /** One step: bookings evolve, ledger and outbox are appended to, and exactly
      the steps that confirm a stay confirm it to the guest. */
  ghost predicate StepOk(db: Db, db': Db) {
    && Inv(db')
    && db.bookings.Keys <= db'.bookings.Keys
    && db.payments <= db'.payments
    && db.events <= db'.events
    && (forall code :: code in db'.bookings && code !in db.bookings ==> NewStatus(db'.bookings[code].status))
    && forall code {:trigger BookingStep(db, db', code)} :: code in db.bookings ==> BookingStep(db, db', code)
  }

  ghost predicate BookingStep(db: Db, db': Db, code: Code)
    requires code in db.bookings && code in db'.bookings
  {
    && Evolves(db.bookings[code], db'.bookings[code])
    && ConfirmsOnce(db, db', code, Confirmations(db'.outbox, code) - Confirmations(db.outbox, code))
  }

  /** Everything about the other bookings survives a step that touches only this one. */
  ghost predicate TouchesOnly(db: Db, db': Db, code: Code, rows: seq<Payment>, mail: seq<Message>) {
    && db'.bookings.Keys == db.bookings.Keys + {code}
    && (forall other :: other in db.bookings && other != code ==> db'.bookings[other] == db.bookings[other])
    && OthersKeepRows(db.occupied, db'.occupied, code)
    && db'.payments == db.payments + rows && |rows| <= 1
    && (forall p :: p in rows ==> p.code == code && p.amount > 0 && !HasRow(db.payments, p.stripeId, p.outcome))
    && db'.outbox == db.outbox + mail
    && (forall m :: m in mail ==> m.code == code)
    && db.events <= db'.events
  }

  ghost predicate ConfirmsOnce(db: Db, db': Db, code: Code, added: int)
    requires code in db.bookings && code in db'.bookings
  {
    added == if db.bookings[code].status != Confirmed && db'.bookings[code].status == Confirmed then 1 else 0
  }

  lemma {:induction false} OneBookingStep(db: Db, db': Db, code: Code, rows: seq<Payment>, mail: seq<Message>)
    requires Inv(db) && TouchesOnly(db, db', code, rows, mail)
    requires OccupancyOk(db'.occupied, db'.bookings)
    requires BookingOk(db', code)
    requires code !in db.bookings ==> NewStatus(db'.bookings[code].status)
    requires code in db.bookings ==> Evolves(db.bookings[code], db'.bookings[code])
    requires code in db.bookings ==> ConfirmsOnce(db, db', code, Confirmations(mail, code))
    ensures StepOk(db, db')
  {
    LedgerGrows(db, db', code, rows, mail);
    OthersStayOk(db, db', code, rows, mail);
    assert Inv(db');
    forall other | other in db.bookings
      ensures Evolves(db.bookings[other], db'.bookings[other])
      ensures ConfirmsOnce(db, db', other, Confirmations(db'.outbox, other) - Confirmations(db.outbox, other))
    {
      ConfirmationsConcat(db.outbox, mail, other);
      if other != code {
        NoConfirmations(mail, other);
      }
    }
  }

  lemma {:induction false} OthersStayOk(db: Db, db': Db, code: Code, rows: seq<Payment>, mail: seq<Message>)
    requires Inv(db) && TouchesOnly(db, db', code, rows, mail)
    ensures forall other :: other in db.bookings && other != code ==> BookingOk(db', other)
  {
    forall other | other in db.bookings && other != code ensures BookingOk(db', other) {
      OtherBookingOk(db, db', other, rows, mail);
    }
  }

  lemma {:induction false} LedgerGrows(db: Db, db': Db, code: Code, rows: seq<Payment>, mail: seq<Message>)
    requires Inv(db) && TouchesOnly(db, db', code, rows, mail)
    ensures LedgerOk(db'.payments, db'.bookings) && db.payments <= db'.payments
    ensures forall m :: m in db'.outbox ==> m.code in db'.bookings
  {
    if |rows| == 1 {
      assert rows == [rows[0]] && rows[0] in rows;
      RecordKeepsKeys(db.payments, rows[0]);
    } else {
      assert db.payments + rows == db.payments;
    }
  }

  lemma {:induction false} OtherBookingOk(db: Db, db': Db, other: Code, rows: seq<Payment>, mail: seq<Message>)
    requires other in db.bookings && other in db'.bookings && db'.bookings[other] == db.bookings[other]
    requires BookingOk(db, other)
    requires SameRows(db.occupied, db'.occupied, other)
    requires db'.payments == db.payments + rows && |rows| <= 1
    requires forall p :: p in rows ==> p.code != other
    requires db'.outbox == db.outbox + mail && forall m :: m in mail ==> m.code != other
    ensures BookingOk(db', other)
  {
    ConfirmationsConcat(db.outbox, mail, other);
    NoConfirmations(mail, other);
    if |rows| == 1 {
      assert rows == [rows[0]] && rows[0] in rows;
      AppendRow(db.payments, rows[0], other);
    } else {
      assert db.payments + rows == db.payments;
    }
    SameRowsSameMatch(db.occupied, db'.occupied, other, db.bookings[other]);
  }

  lemma {:induction false} SameRowsSameMatch(o: Occupied, o': Occupied, code: Code, b: Booking)
    requires SameRows(o, o', code) && StatusMatchesRows(o, code, b)
    ensures StatusMatchesRows(o', code, b)
  {
    if b.status == Pending && !HoldsNothing(o, code) {
      var e :| Holds(o, code, b.rooms, Hold, Some(e));
      assert Holds(o', code, b.rooms, Hold, Some(e));
    }
  }
}
