/** The balance taken a week before arrival (internal/payments/balance.go), against
    a processor that keeps one answer per booking. Scans repeat, attempts overlap
    and die anywhere, and the webhook may report the charge before, after or
    instead of the attempt that made it. */
module BalanceRuns {
  import opened Common
  import opened Ledger
  import opened Inn
  import opened Protocol
  import ProtocolSteps
  import ProtocolRuns
  import RefundRuns

  /** The card is charged for this much; the processor compares the whole request
      when a key comes back. */
  datatype OffSession = OffSession(amount: int, customer: string, paymentMethod: string)

  datatype Verdict = Charged(id: string) | Declined(id: string)

  /** What the processor keeps under the key "balance:" + code. */
  datatype Kept = Kept(request: OffSession, verdict: Verdict)

  /** A booking taken from the scan, on its way to the processor or back from it. */
  datatype Attempt = Attempt(code: Code, request: OffSession, verdict: Option<Verdict>)

  datatype World = World(db: Db, kept: map<Code, Kept>, attempts: map<int, Attempt>)

  datatype Step =
    | Scan(attempt: int, code: Code, on: int)
    | CallProcessor(attempt: int, verdict: Verdict)
    | RecordVerdict(attempt: int)
    | FlagNoCard(attempt: int)
    | Die(attempt: int)
    | Webhook(code: Code, event: string, customer: string, paymentMethod: string, ownerCopy: bool)
    | Elsewhere(action: Action)

  predicate HasCard(r: OffSession) {
    r.customer != "" && r.paymentMethod != ""
  }

  function RequestFor(b: Booking): OffSession {
    OffSession(b.total - b.paid, b.customer, b.paymentMethod)
  }

  /** The same key with the same request gets the kept answer; with another request
      it is an error, and nothing is charged. */
  function AskProcessor(kept: map<Code, Kept>, code: Code, r: OffSession, verdict: Verdict): (map<Code, Kept>,
        Option<Verdict>) {
    if code !in kept then (kept[code := Kept(r, verdict)], Some(verdict))
    else if kept[code].request == r then (kept, Some(kept[code].verdict))
    else (kept, None)
  }

  /** The report of a verdict, from the attempt itself or from the webhook. A decline
      the processor could not name an attempt for is given an id of its own. */
  function Report(code: Code, amount: int, v: Verdict, event: string, customer: string, paymentMethod: string,
        ownerCopy: bool): Action {
    match v
    case Charged(id) => DeliverCharge(Charge(code, id, event, Balance, amount, customer, paymentMethod, ownerCopy))
    case Declined(id) =>
      var named := if id == "" then "declined:" + code else id;
      DeliverFailure(Charge(code, named, event, Balance, amount, customer, paymentMethod, ownerCopy))
  }

  function OwnReport(a: Attempt): Action
    requires a.verdict.Some?
  {
    Report(a.code, a.request.amount, a.verdict.value, "", "", "", false)
  }

  function Advance(w: World, s: Step): World {
    match s
    case Scan(x, code, on) =>
      if x in w.attempts || code !in w.db.bookings || !BalanceDue(w.db.bookings[code], on) then w
      else w.(attempts := w.attempts[x := Attempt(code, RequestFor(w.db.bookings[code]), None)])
    case CallProcessor(x, verdict) =>
      if x !in w.attempts || w.attempts[x].verdict.Some? || !HasCard(w.attempts[x].request) then w
      else
        var a := w.attempts[x];
        var (kept, answer) := AskProcessor(w.kept, a.code, a.request, verdict);
        w.(kept := kept, attempts := if answer.None? then w.attempts - {x} else w.attempts[x := a.(verdict := answer)])
    case RecordVerdict(x) =>
      if x !in w.attempts || w.attempts[x].verdict.None? then w
      else w.(db := Next(w.db, OwnReport(w.attempts[x])), attempts := w.attempts - {x})
    case FlagNoCard(x) =>
      if x !in w.attempts || HasCard(w.attempts[x].request) then w
      else w.(db := UncollectableStep(w.db, w.attempts[x].code), attempts := w.attempts - {x})
    case Die(x) => w.(attempts := w.attempts - {x})
    case Webhook(code, event, customer, paymentMethod, ownerCopy) =>
      if code !in w.kept then w
      else
        w.(db := Next(w.db,
          Report(code, w.kept[code].request.amount, w.kept[code].verdict, event, customer, paymentMethod, ownerCopy)))
    case Elsewhere(a) => w.(db := Next(w.db, a))
  }

  function RunWorld(w: World, steps: seq<Step>): World {
    if |steps| == 0 then w else Advance(RunWorld(w, steps[..|steps| - 1]), steps[|steps| - 1])
  }

  // ---------------------------------------------------------------- what is assumed

  ghost predicate IdUsed(w: World, id: string) {
    (exists code :: code in w.kept && w.kept[code].verdict.id == id) || HasRow(w.db.payments, id, Succeeded)
  }

  /** A new charge gets a new id, and no other report bears an id the processor gave a
      balance charge. Everything else may happen, to this booking and to any other. */
  ghost predicate Proper(w: World, s: Step) {
    match s
    case CallProcessor(_, v) => v.Charged? ==> !IdUsed(w, v.id) && !Blank(v.id)
    case Elsewhere(a) =>
      && Genuine(a)
      && (RefundRuns.Reported(a).Some? ==> NotKept(w.kept, RefundRuns.Reported(a).value.stripeId))
    case _ => true
  }

  ghost predicate AllProper(w: World, steps: seq<Step>) {
    forall i :: 0 <= i < |steps| ==> Proper(RunWorld(w, steps[..i]), steps[i])
  }

  /** A charge of this booking delivered from elsewhere is one its ledger has already:
      its deposit may be redelivered at any time, and nothing new is paid on it. */
  ghost predicate NothingNewLands(w: World, s: Step, code: Code) {
    (s.Elsewhere? && s.action.DeliverCharge? && s.action.charge.code == code) ==>
      HasRow(w.db.payments, s.action.charge.stripeId, Succeeded)
  }

  ghost predicate Allowed(w: World, s: Step, code: Code) {
    Proper(w, s) && NothingNewLands(w, s, code)
  }

  ghost predicate NotKept(kept: map<Code, Kept>, id: string) {
    forall code :: code in kept && kept[code].verdict.Charged? ==> kept[code].verdict.id != id
  }

  ghost predicate AllAllowed(w: World, steps: seq<Step>, code: Code) {
    forall i :: 0 <= i < |steps| ==> Allowed(RunWorld(w, steps[..i]), steps[i], code)
  }

  // ---------------------------------------------------------------- the invariant

  ghost predicate ChargesDistinct(kept: map<Code, Kept>) {
    forall a, b :: a in kept && b in kept && a != b && kept[a].verdict.Charged? && kept[b].verdict.Charged?
      ==> kept[a].verdict.id != kept[b].verdict.id
  }

  /** The balance as it stood before anything was asked of the card, and the price. */
  datatype Due = Due(owing: int, total: int)

  ghost predicate AttemptOk(w: World, x: int, code: Code, due: Due)
    requires x in w.attempts
  {
    var a := w.attempts[x];
    && (a.verdict.Some? ==> a.code in w.kept && w.kept[a.code] == Kept(a.request, a.verdict.value))
    && (a.code == code ==> a.request.amount == due.owing)
  }

  /** Where the one balance charge of this booking stands. */
  ghost predicate Standing(db: Db, kept: map<Code, Kept>, code: Code, due: Due)
    requires code in db.bookings
  {
    var b := db.bookings[code];
    && b.total == due.total
    && (code in kept ==> kept[code].request.amount == due.owing)
    && b.paid ==
         if code in kept && kept[code].verdict.Charged? && HasRow(db.payments, kept[code].verdict.id, Succeeded)
         then due.total
         else due.total - due.owing
  }

  ghost predicate BalanceInv(w: World, code: Code, due: Due) {
    && Inv(w.db) && code in w.db.bookings && due.owing > 0
    && ChargesDistinct(w.kept)
    && (forall c :: c in w.kept && w.kept[c].verdict.Charged? ==> !Blank(w.kept[c].verdict.id))
    && Standing(w.db, w.kept, code, due)
    && forall x {:trigger AttemptOk(w, x, code, due)} :: x in w.attempts ==> AttemptOk(w, x, code, due)
  }

  // ---------------------------------------------------------------- one action of the tables

  /** What an action adds to a booking's gross is what it adds to its ledger. */
  lemma {:induction false} GrossOnlyFromCharges(db: Db, a: Action, code: Code)
    requires Inv(db) && Genuine(a) && code in db.bookings
    ensures var db' := Next(db, a);
      && Inv(db') && code in db'.bookings && db'.bookings[code].total == db.bookings[code].total
      && (db'.payments == db.payments ==> db'.bookings[code].paid == db.bookings[code].paid)
      && (db'.payments != db.payments ==>
           && RefundRuns.Reported(a).Some?
           && var row := RefundRuns.RowOf(RefundRuns.Reported(a).value, a);
              && db'.payments == db.payments + [row]
              && db'.bookings[code].paid == db.bookings[code].paid + if IsCharge(row, code) then row.amount else 0)
  {
    var db' := Next(db, a);
    ProtocolSteps.EveryStep(db, a);
    assert BookingStep(db, db', code);
    assert BookingOk(db, code) && BookingOk(db', code);
    if db'.payments != db.payments {
      RefundRuns.NextLedger(db, a);
      AppendRow(db.payments, RefundRuns.RowOf(RefundRuns.Reported(a).value, a), code);
    }
    hide Next, StatusMatchesRows, MailMatchesStatus, OccupancyOk, LedgerOk, Gross;
  }

  lemma {:induction false} RecordedChargeAddsNothing(db: Db, c: Charge)
    requires HasRow(db.payments, c.stripeId, Succeeded)
    ensures Next(db, DeliverCharge(c)).payments == db.payments
  {
  }

  /** A report that is not this booking's charge leaves its balance where it stands. */
  lemma {:induction false} StandingKept(db: Db, a: Action, kept: map<Code, Kept>, code: Code, due: Due)
    requires Inv(db) && Genuine(a) && code in db.bookings && Standing(db, kept, code, due)
    requires a.DeliverCharge? && a.charge.code == code ==> HasRow(db.payments, a.charge.stripeId, Succeeded)
    requires a.DeliverCharge? || a.DeliverRefund? ==>
      code in kept && kept[code].verdict.Charged? ==> RefundRuns.Reported(a).value.stripeId != kept[code].verdict.id
    ensures Inv(Next(db, a)) && code in Next(db, a).bookings && Standing(Next(db, a), kept, code, due)
  {
    hide Next, Inv;
    var db' := Next(db, a);
    GrossOnlyFromCharges(db, a, code);
    if a.DeliverCharge? && a.charge.code == code {
      RecordedChargeAddsNothing(db, a.charge);
    }
    if db'.payments != db.payments && code in kept {
      RefundRuns.RowAddedOnlyThere(db.payments, RefundRuns.RowOf(RefundRuns.Reported(a).value, a),
        kept[code].verdict.id);
    }
  }

  predicate IsReportOf(a: Action, code: Code, k: Kept) {
    && a.DeliverCharge? && a.charge.code == code && a.charge.kind == Balance
    && a.charge.amount == k.request.amount && k.verdict == Charged(a.charge.stripeId)
  }

  /** The report of this booking's charge moves it to fully paid, the first time,
      and leaves it there, every other time. */
  lemma {:induction false} StandingReported(db: Db, a: Action, kept: map<Code, Kept>, code: Code, due: Due)
    requires Inv(db) && code in db.bookings && Standing(db, kept, code, due) && due.owing > 0
    requires code in kept && !Blank(kept[code].verdict.id) && IsReportOf(a, code, kept[code])
    ensures Inv(Next(db, a)) && code in Next(db, a).bookings && Standing(Next(db, a), kept, code, due)
    ensures Blank(a.charge.event) ==> Next(db, a).bookings[code].paid == Next(db, a).bookings[code].total
  {
    var c, db' := a.charge, Next(db, a);
    GrossOnlyFromCharges(db, a, code);
    if !EventSeen(db, c) && !HasRow(db.payments, c.stripeId, Succeeded) {
      ProtocolRuns.ChargeRecords(db, c);
      assert db'.payments[|db.payments|] == ProtocolSteps.ChargeRow(c);
    } else {
      assert db'.payments == db.payments;
    }
    hide Inv, ChargeStep;
  }

  // ---------------------------------------------------------------- every step keeps it

  /** A step that leaves every surviving attempt, and what is kept, as they were. */
  lemma {:induction false} AttemptsKept(w: World, w': World, code: Code, due: Due)
    requires BalanceInv(w, code, due)
    requires w'.kept == w.kept && w'.attempts.Keys <= w.attempts.Keys
    requires forall x :: x in w'.attempts ==> w'.attempts[x] == w.attempts[x]
    requires Inv(w'.db) && code in w'.db.bookings && Standing(w'.db, w'.kept, code, due)
    ensures BalanceInv(w', code, due)
  {
    hide Inv, Standing, ChargesDistinct;
    forall x | x in w'.attempts ensures AttemptOk(w', x, code, due) {
      assert AttemptOk(w, x, code, due);
    }
  }

  lemma {:induction false} ReportKeeps(db: Db, kept: map<Code, Kept>, code: Code, due: Due, other: Code,
                    event: string, customer: string, paymentMethod: string, ownerCopy: bool)
    requires Inv(db) && code in db.bookings && Standing(db, kept, code, due) && due.owing > 0
    requires ChargesDistinct(kept) && other in kept && (kept[other].verdict.Charged? ==> !Blank(kept[other].verdict.id))
    ensures var a := Report(other, kept[other].request.amount, kept[other].verdict, event, customer, paymentMethod,
        ownerCopy);
      && Inv(Next(db, a)) && code in Next(db, a).bookings && Standing(Next(db, a), kept, code, due)
      && (kept[other].verdict.Charged? && other == code && Blank(event) ==>
           Next(db, a).bookings[code].paid == Next(db, a).bookings[code].total)
  {
    hide Next, Inv;
    var a := Report(other, kept[other].request.amount, kept[other].verdict, event, customer, paymentMethod, ownerCopy);
    if kept[other].verdict.Charged? && other == code {
      StandingReported(db, a, kept, code, due);
    } else {
      StandingKept(db, a, kept, code, due);
    }
  }

  lemma {:induction false} CallKeeps(w: World, x: int, v: Verdict, code: Code, due: Due)
    requires BalanceInv(w, code, due) && Allowed(w, CallProcessor(x, v), code)
    ensures BalanceInv(Advance(w, CallProcessor(x, v)), code, due)
  {
    hide Inv;
    if x in w.attempts && w.attempts[x].verdict.None? && HasCard(w.attempts[x].request) {
      var w', a := Advance(w, CallProcessor(x, v)), w.attempts[x];
      assert AttemptOk(w, x, code, due);
      if a.code !in w.kept {
        assert forall c :: c in w.kept ==> w'.kept[c] == w.kept[c];
        assert v.Charged? ==> forall c :: c in w.kept ==> w.kept[c].verdict.id != v.id;
      }
      forall y | y in w'.attempts ensures AttemptOk(w', y, code, due) {
        assert AttemptOk(w, y, code, due);
      }
    }
  }

  lemma {:induction false} ScanKeeps(w: World, x: int, c: Code, on: int, code: Code, due: Due)
    requires BalanceInv(w, code, due)
    ensures BalanceInv(Advance(w, Scan(x, c, on)), code, due)
  {
    hide Inv;
    var w' := Advance(w, Scan(x, c, on));
    forall y | y in w'.attempts ensures AttemptOk(w', y, code, due) {
      if y in w.attempts {
        assert AttemptOk(w, y, code, due);
      }
    }
  }

  lemma {:induction false} RecordKeeps(w: World, x: int, code: Code, due: Due)
    requires BalanceInv(w, code, due)
    ensures BalanceInv(Advance(w, RecordVerdict(x)), code, due)
    ensures (x in w.attempts && w.attempts[x].code == code
             && w.attempts[x].verdict.Some? && w.attempts[x].verdict.value.Charged?) ==>
      var b := Advance(w, RecordVerdict(x)).db.bookings[code]; b.paid == b.total
  {
    if x in w.attempts && w.attempts[x].verdict.Some? {
      assert AttemptOk(w, x, code, due);
      ReportKeeps(w.db, w.kept, code, due, w.attempts[x].code, "", "", "", false);
      hide Inv, Next, Standing, ChargesDistinct;
      AttemptsKept(w, Advance(w, RecordVerdict(x)), code, due);
    }
  }

  lemma {:induction false} EveryStepKeeps(w: World, s: Step, code: Code, due: Due)
    requires BalanceInv(w, code, due) && Allowed(w, s, code)
    ensures BalanceInv(Advance(w, s), code, due)
  {
    hide Inv, Next, Standing, ChargesDistinct;
    match s
    case Scan(x, c, on) => ScanKeeps(w, x, c, on, code, due);
    case CallProcessor(x, v) => CallKeeps(w, x, v, code, due);
    case RecordVerdict(x) => RecordKeeps(w, x, code, due);
    case FlagNoCard(x) =>
      if x in w.attempts {
        FlagIsAnAction(w.db, w.attempts[x].code);
        StandingKept(w.db, FlagUncollectable(w.attempts[x].code), w.kept, code, due);
        AttemptsKept(w, Advance(w, s), code, due);
      }
    case Die(x) => AttemptsKept(w, Advance(w, s), code, due);
    case Webhook(c, event, customer, paymentMethod, ownerCopy) =>
      if c in w.kept {
        ReportKeeps(w.db, w.kept, code, due, c, event, customer, paymentMethod, ownerCopy);
        AttemptsKept(w, Advance(w, s), code, due);
      }
    case Elsewhere(a) =>
      StandingKept(w.db, a, w.kept, code, due);
      AttemptsKept(w, Advance(w, s), code, due);
  }

  lemma {:induction false} FlagIsAnAction(db: Db, code: Code)
    ensures Next(db, FlagUncollectable(code)) == UncollectableStep(db, code)
  {
  }

  lemma {:induction false} EveryWorldRun(w: World, steps: seq<Step>, code: Code, due: Due)
    requires BalanceInv(w, code, due) && AllAllowed(w, steps, code)
    ensures BalanceInv(RunWorld(w, steps), code, due)
  {
    if |steps| > 0 {
      var init, last := steps[..|steps| - 1], steps[|steps| - 1];
      forall i | 0 <= i < |init| ensures Allowed(RunWorld(w, init[..i]), init[i], code) {
        assert init[..i] == steps[..i];
      }
      EveryWorldRun(w, init, code, due);
      assert Allowed(RunWorld(w, steps[..|steps| - 1]), steps[|steps| - 1], code);
      EveryStepKeeps(RunWorld(w, init), last, code, due);
    }
  }

  // ---------------------------------------------------------------- what it means

  /** A stay that owes its balance, before anything was asked of its card. */
  ghost predicate NothingAsked(w: World, code: Code) {
    && Inv(w.db) && code in w.db.bookings && w.db.bookings[code].paid < w.db.bookings[code].total
    && code !in w.kept
    && ChargesDistinct(w.kept)
    && (forall c :: c in w.kept && w.kept[c].verdict.Charged? ==> !Blank(w.kept[c].verdict.id))
    && forall x :: x in w.attempts ==>
         && w.attempts[x].code != code
         && (w.attempts[x].verdict.Some? ==>
              w.attempts[x].code in w.kept
                && w.kept[w.attempts[x].code] == Kept(w.attempts[x].request, w.attempts[x].verdict.value))
  }

  function Owing(w: World, code: Code): int
    requires code in w.db.bookings
  {
    w.db.bookings[code].total - w.db.bookings[code].paid
  }

  /** What the processor has taken from the card for this balance. */
  function TakenFromCard(w: World, code: Code): int {
    if code in w.kept && w.kept[code].verdict.Charged? then w.kept[code].request.amount else 0
  }

  /** How often a charge stands on the ledger. */
  function TimesCounted(rows: seq<Payment>, id: string): nat {
    if |rows| == 0 then 0
    else
      TimesCounted(rows[..|rows| - 1], id)
      + if rows[|rows| - 1].stripeId == id && rows[|rows| - 1].outcome == Succeeded then 1 else 0
  }

  lemma {:induction false} CountedOnce(rows: seq<Payment>, id: string)
    requires KeysUnique(rows)
    ensures TimesCounted(rows, id) == if HasRow(rows, id, Succeeded) then 1 else 0
  {
    if |rows| > 0 {
      var init, last := rows[..|rows| - 1], rows[|rows| - 1];
      CountedOnce(init, id);
      if HasRow(init, id, Succeeded) {
        var i :| 0 <= i < |init| && init[i].stripeId == id && init[i].outcome == Succeeded;
        assert rows[i] == init[i] && !SameKey(rows[i], rows[|rows| - 1]);
      }
      if last.stripeId == id && last.outcome == Succeeded {
        assert HasRow(rows, id, Succeeded);
      } else if HasRow(rows, id, Succeeded) {
        var i :| 0 <= i < |rows| && rows[i].stripeId == id && rows[i].outcome == Succeeded;
        assert init[i] == rows[i];
      }
    }
  }

  /** The balance is taken exactly once. Over every interleaving of scans, calls,
      crashes and webhooks, the card is charged nothing or the whole balance; what
      the booking has collected is what it had, or the total; and it is the total
      exactly when the charge stands on the ledger, where it stands once. */
  lemma {:induction false} BalanceTakenOnce(w: World, steps: seq<Step>, code: Code)
    requires NothingAsked(w, code) && AllAllowed(w, steps, code)
    ensures var end := RunWorld(w, steps);
      && code in end.db.bookings && end.db.bookings[code].total == w.db.bookings[code].total
      && (TakenFromCard(end, code) == 0 || TakenFromCard(end, code) == Owing(w, code))
      && (end.db.bookings[code].paid == w.db.bookings[code].paid
           || end.db.bookings[code].paid == end.db.bookings[code].total)
      && (end.db.bookings[code].paid == end.db.bookings[code].total <==>
            TakenFromCard(end, code) > 0 && TimesCounted(end.db.payments, end.kept[code].verdict.id) == 1)
  {
    EveryWorldRun(w, steps, code, Due(Owing(w, code), w.db.bookings[code].total));
    var end := RunWorld(w, steps);
    if code in end.kept {
      CountedOnce(end.db.payments, end.kept[code].verdict.id);
    }
    hide RunWorld, AllAllowed, ChargesDistinct, StatusMatchesRows;
  }

  // ---------------------------------------------------------------- once it is recorded

  lemma {:induction false} PaidOnlyGrows(w: World, s: Step, code: Code, due: Due)
    requires BalanceInv(w, code, due) && Allowed(w, s, code)
    ensures BalanceInv(Advance(w, s), code, due)
    ensures Advance(w, s).db.bookings[code].paid >= w.db.bookings[code].paid
  {
    EveryStepKeeps(w, s, code, due);
    hide Inv, Next, ChargesDistinct, AttemptOk;
    match s
    case RecordVerdict(x) =>
      if x in w.attempts && w.attempts[x].verdict.Some? {
        GrossGrows(w.db, OwnReport(w.attempts[x]), code);
      }
    case FlagNoCard(x) =>
      if x in w.attempts {
        FlagIsAnAction(w.db, w.attempts[x].code);
        GrossGrows(w.db, FlagUncollectable(w.attempts[x].code), code);
      }
    case Webhook(c, event, customer, paymentMethod, ownerCopy) =>
      if c in w.kept {
        GrossGrows(w.db,
          Report(c, w.kept[c].request.amount, w.kept[c].verdict, event, customer, paymentMethod, ownerCopy), code);
      }
    case Elsewhere(a) => GrossGrows(w.db, a, code);
    case _ =>
  }

  lemma {:induction false} GrossGrows(db: Db, a: Action, code: Code)
    requires Inv(db) && Genuine(a) && code in db.bookings
    ensures code in Next(db, a).bookings && Next(db, a).bookings[code].paid >= db.bookings[code].paid
  {
    ProtocolSteps.EveryStep(db, a);
    assert BookingStep(db, Next(db, a), code);
  }

  lemma {:induction false} SettledStaysSettled(w: World, steps: seq<Step>, code: Code, due: Due)
    requires BalanceInv(w, code, due) && AllAllowed(w, steps, code)
    requires w.db.bookings[code].paid == due.total
    ensures BalanceInv(RunWorld(w, steps), code, due) && RunWorld(w, steps).db.bookings[code].paid == due.total
  {
    if |steps| > 0 {
      var init, last := steps[..|steps| - 1], steps[|steps| - 1];
      forall i | 0 <= i < |init| ensures Allowed(RunWorld(w, init[..i]), init[i], code) {
        assert init[..i] == steps[..i];
      }
      SettledStaysSettled(w, init, code, due);
      assert Allowed(RunWorld(w, steps[..|steps| - 1]), steps[|steps| - 1], code);
      PaidOnlyGrows(RunWorld(w, init), last, code, due);
      hide Inv, ChargesDistinct, AttemptOk;
    }
  }

  lemma {:induction false} RunWorldConcat(w: World, xs: seq<Step>, ys: seq<Step>)
    ensures RunWorld(w, xs + ys) == RunWorld(RunWorld(w, xs), ys)
  {
    if |ys| == 0 {
      assert xs + ys == xs;
    } else {
      assert (xs + ys)[..|xs + ys| - 1] == xs + ys[..|ys| - 1];
      RunWorldConcat(w, xs, ys[..|ys| - 1]);
    }
  }

  /** An attempt that gets as far as recording its charge leaves the stay paid in
      full, and no later scan on any day takes it up again. */
  lemma {:induction false} RecordedBalanceIsNeverDueAgain(w: World, before: seq<Step>, x: int, after: seq<Step>,
        code: Code, on: int)
    requires NothingAsked(w, code)
    requires AllAllowed(w, before, code)
    requires var mid := RunWorld(w, before);
      && x in mid.attempts && mid.attempts[x].code == code
      && mid.attempts[x].verdict.Some? && mid.attempts[x].verdict.value.Charged?
    requires AllAllowed(RunWorld(w, before + [RecordVerdict(x)]), after, code)
    ensures var end := RunWorld(w, before + [RecordVerdict(x)] + after);
      && code in end.db.bookings
      && end.db.bookings[code].paid == end.db.bookings[code].total == w.db.bookings[code].total
      && !BalanceDue(end.db.bookings[code], on)
  {
    var due := Due(Owing(w, code), w.db.bookings[code].total);
    EveryWorldRun(w, before, code, due);
    RecordKeeps(RunWorld(w, before), x, code, due);
    assert (before + [RecordVerdict(x)])[..|before|] == before;
    SettledStaysSettled(RunWorld(w, before + [RecordVerdict(x)]), after, code, due);
    RunWorldConcat(w, before + [RecordVerdict(x)], after);
    hide Inv, ChargesDistinct, AttemptOk, AllAllowed, NothingAsked;
  }

  // ---------------------------------------------------------------- whatever else is paid

  /** What was asked under this key was no less than what is owed by now, and once the
      charge is on the ledger nothing is. */
  ghost predicate KeyStands(db: Db, kept: map<Code, Kept>, code: Code)
    requires code in kept
  {
    && code in db.bookings
    && Covers(db.bookings[code], kept[code].request)
    && (kept[code].verdict.Charged? ==>
         && !Blank(kept[code].verdict.id)
         && (HasRow(db.payments, kept[code].verdict.id, Succeeded) ==>
              db.bookings[code].paid >= db.bookings[code].total))
  }

  predicate Covers(b: Booking, r: OffSession) {
    r.amount > 0 && r.amount >= b.total - b.paid
  }

  ghost predicate AttemptStands(w: World, x: int)
    requires x in w.attempts
  {
    var a := w.attempts[x];
    && a.code in w.db.bookings && Covers(w.db.bookings[a.code], a.request)
    && (a.verdict.Some? ==> a.code in w.kept && w.kept[a.code] == Kept(a.request, a.verdict.value))
  }

  /** Every key and every attempt stands. It holds from the empty tables on, in every
      run, whatever is paid on any booking from anywhere. */
  ghost predicate BooksStand(w: World) {
    && Inv(w.db) && ChargesDistinct(w.kept)
    && (forall c {:trigger KeyStands(w.db, w.kept, c)} :: c in w.kept ==> KeyStands(w.db, w.kept, c))
    && forall x {:trigger AttemptStands(w, x)} :: x in w.attempts ==> AttemptStands(w, x)
  }

  lemma {:induction false} EmptyBooksStand(settings: Settings, now: int, today: int)
    ensures BooksStand(World(Empty(settings, now, today), map[], map[]))
  {
    EmptyIsFine(settings, now, today);
  }

  lemma {:induction false} KeyStandsAfter(db: Db, a: Action, kept: map<Code, Kept>, code: Code)
    requires Inv(db) && Genuine(a) && code in kept && KeyStands(db, kept, code)
    requires (a.DeliverCharge? || a.DeliverRefund?) && kept[code].verdict.Charged? ==>
      RefundRuns.Reported(a).value.stripeId != kept[code].verdict.id || IsReportOf(a, code, kept[code])
    ensures KeyStands(Next(db, a), kept, code)
  {
    hide Next, Inv;
    var db' := Next(db, a);
    GrossOnlyFromCharges(db, a, code);
    GrossGrows(db, a, code);
    if db'.payments != db.payments {
      RefundRuns.RowAddedOnlyThere(db.payments, RefundRuns.RowOf(RefundRuns.Reported(a).value, a),
        kept[code].verdict.id);
    }
  }

  lemma {:induction false} RequestStillCovers(db: Db, a: Action, code: Code, r: OffSession)
    requires Inv(db) && Genuine(a) && code in db.bookings && Covers(db.bookings[code], r)
    ensures code in Next(db, a).bookings && Covers(Next(db, a).bookings[code], r)
  {
    hide Next, Inv;
    GrossOnlyFromCharges(db, a, code);
    GrossGrows(db, a, code);
  }

  /** A step of the tables that leaves what is kept, and every surviving attempt. */
  lemma {:induction false} TablesMove(w: World, w': World, a: Action)
    requires BooksStand(w) && Genuine(a) && w'.db == Next(w.db, a) && w'.kept == w.kept
    requires w'.attempts.Keys <= w.attempts.Keys && forall x :: x in w'.attempts ==> w'.attempts[x] == w.attempts[x]
    requires forall c :: c in w.kept && w.kept[c].verdict.Charged? && (a.DeliverCharge? || a.DeliverRefund?) ==>
      RefundRuns.Reported(a).value.stripeId != w.kept[c].verdict.id || IsReportOf(a, c, w.kept[c])
    ensures BooksStand(w') && w.db.payments <= w'.db.payments
  {
    hide Next, Inv, ChargesDistinct, StepOk;
    StepKeepsTheBooks(w.db, a);
    forall c | c in w'.kept ensures KeyStands(w'.db, w'.kept, c) {
      assert KeyStands(w.db, w.kept, c);
      KeyStandsAfter(w.db, a, w.kept, c);
    }
    forall x | x in w'.attempts ensures AttemptStands(w', x) {
      assert AttemptStands(w, x);
      RequestStillCovers(w.db, a, w.attempts[x].code, w.attempts[x].request);
    }
  }

  lemma {:induction false} StepKeepsTheBooks(db: Db, a: Action)
    requires Inv(db) && Genuine(a)
    ensures Inv(Next(db, a)) && db.payments <= Next(db, a).payments
  {
    ProtocolSteps.EveryStep(db, a);
  }

  lemma {:induction false} ReportMoves(w: World, w': World, code: Code, event: string, customer: string,
        paymentMethod: string, ownerCopy: bool)
    requires BooksStand(w) && code in w.kept && w'.kept == w.kept
    requires w'.db == Next(w.db,
          Report(code, w.kept[code].request.amount, w.kept[code].verdict, event, customer, paymentMethod, ownerCopy))
    requires w'.attempts.Keys <= w.attempts.Keys && forall x :: x in w'.attempts ==> w'.attempts[x] == w.attempts[x]
    ensures BooksStand(w') && w.db.payments <= w'.db.payments
  {
    hide Next, Inv, KeyStands, AttemptStands;
    TablesMove(w, w',
      Report(code, w.kept[code].request.amount, w.kept[code].verdict, event, customer, paymentMethod, ownerCopy));
  }

  /** What is kept is kept for good, and the ledger only grows. */
  ghost predicate Lasts(w: World, w': World) {
    && w.db.payments <= w'.db.payments
    && forall c :: c in w.kept ==> c in w'.kept && w'.kept[c] == w.kept[c]
  }

  lemma {:induction false} EveryProperStepStands(w: World, s: Step)
    requires BooksStand(w) && Proper(w, s)
    ensures BooksStand(Advance(w, s)) && Lasts(w, Advance(w, s))
  {
    hide Next, Inv, KeyStands, ChargesDistinct;
    var w' := Advance(w, s);
    match s
    case Scan(x, code, on) => ScanStands(w, x, code, on);
    case CallProcessor(x, v) => CallStands(w, x, v);
    case RecordVerdict(x) =>
      if x in w.attempts && w.attempts[x].verdict.Some? {
        assert AttemptStands(w, x);
        ReportMoves(w, w', w.attempts[x].code, "", "", "", false);
      }
    case FlagNoCard(x) =>
      if x in w.attempts {
        FlagIsAnAction(w.db, w.attempts[x].code);
        if !HasCard(w.attempts[x].request) {
          TablesMove(w, w', FlagUncollectable(w.attempts[x].code));
        }
      }
    case Die(x) => FewerAttempts(w, x);
    case Webhook(code, event, customer, paymentMethod, ownerCopy) =>
      if code in w.kept {
        ReportMoves(w, w', code, event, customer, paymentMethod, ownerCopy);
      }
    case Elsewhere(a) => TablesMove(w, w', a);
  }

  lemma {:induction false} FewerAttempts(w: World, x: int)
    requires BooksStand(w)
    ensures BooksStand(w.(attempts := w.attempts - {x}))
  {
    hide Inv, KeyStands, ChargesDistinct;
    var w' := w.(attempts := w.attempts - {x});
    forall y | y in w'.attempts ensures AttemptStands(w', y) {
      assert AttemptStands(w, y);
    }
    forall c | c in w'.kept ensures KeyStands(w'.db, w'.kept, c) {
      assert KeyStands(w.db, w.kept, c);
    }
  }

  lemma {:induction false} ScanStands(w: World, x: int, code: Code, on: int)
    requires BooksStand(w)
    ensures BooksStand(Advance(w, Scan(x, code, on)))
  {
    hide Inv, KeyStands, ChargesDistinct;
    var w' := Advance(w, Scan(x, code, on));
    forall y | y in w'.attempts ensures AttemptStands(w', y) {
      if y in w.attempts {
        assert AttemptStands(w, y);
      }
    }
    forall c | c in w'.kept ensures KeyStands(w'.db, w'.kept, c) {
      assert KeyStands(w.db, w.kept, c);
    }
  }

  lemma {:induction false} CallStands(w: World, x: int, v: Verdict)
    requires BooksStand(w) && Proper(w, CallProcessor(x, v))
    ensures BooksStand(Advance(w, CallProcessor(x, v))) && Lasts(w, Advance(w, CallProcessor(x, v)))
  {
    hide Inv;
    if x in w.attempts && w.attempts[x].verdict.None? && HasCard(w.attempts[x].request) {
      var w', a := Advance(w, CallProcessor(x, v)), w.attempts[x];
      assert AttemptStands(w, x);
      if a.code !in w.kept && v.Charged? {
        assert forall c :: c in w.kept ==> w.kept[c].verdict.id != v.id;
      }
      forall c | c in w'.kept ensures KeyStands(w'.db, w'.kept, c) {
        if c in w.kept {
          assert KeyStands(w.db, w.kept, c);
        }
      }
      forall y | y in w'.attempts ensures AttemptStands(w', y) {
        assert AttemptStands(w, y);
      }
    }
  }

  lemma {:induction false} EveryProperRunStands(w: World, steps: seq<Step>)
    requires BooksStand(w) && AllProper(w, steps)
    ensures BooksStand(RunWorld(w, steps)) && Lasts(w, RunWorld(w, steps))
  {
    hide BooksStand, Proper, Advance;
    if |steps| > 0 {
      var init, last := steps[..|steps| - 1], steps[|steps| - 1];
      forall i | 0 <= i < |init| ensures Proper(RunWorld(w, init[..i]), init[i]) {
        assert init[..i] == steps[..i];
      }
      EveryProperRunStands(w, init);
      assert Proper(RunWorld(w, steps[..|steps| - 1]), steps[|steps| - 1]);
      EveryProperStepStands(RunWorld(w, init), last);
    }
  }

  lemma {:induction false} RecordedIsPaid(w: World, x: int)
    requires BooksStand(w) && x in w.attempts && w.attempts[x].verdict.Some? && w.attempts[x].verdict.value.Charged?
    ensures var w', code := Advance(w, RecordVerdict(x)), w.attempts[x].code;
      code in w.kept && w'.kept == w.kept && HasRow(w'.db.payments, w.kept[code].verdict.id, Succeeded)
  {
    hide Inv, ChargeStep;
    var a := w.attempts[x];
    assert AttemptStands(w, x);
    assert KeyStands(w.db, w.kept, a.code);
    ChargeLeavesItsRow(w.db, OwnReport(a).charge);
  }

  lemma {:induction false} ChargeLeavesItsRow(db: Db, c: Charge)
    requires c.code in db.bookings && Invalid(c).None? && Blank(c.event)
    ensures HasRow(ChargeStep(db, c).0.payments, c.stripeId, Succeeded)
  {
    if !HasRow(db.payments, c.stripeId, Succeeded) {
      ProtocolRuns.ChargeRecords(db, c);
    }
  }

  /** Nothing is assumed of what else is paid. From the moment an attempt has recorded
      its charge the stay is covered for good: no scan on any day takes it up again, the
      card is never charged for it again, and the charge stands on the ledger once. */
  lemma {:induction false} RecordedChargeIsTheLast(w: World, before: seq<Step>, x: int, after: seq<Step>, on: int)
    requires BooksStand(w) && AllProper(w, before)
    requires var mid := RunWorld(w, before);
      x in mid.attempts && mid.attempts[x].verdict.Some? && mid.attempts[x].verdict.value.Charged?
    requires AllProper(RunWorld(w, before + [RecordVerdict(x)]), after)
    ensures var mid, end := RunWorld(w, before), RunWorld(w, before + [RecordVerdict(x)] + after);
      var code := mid.attempts[x].code;
      && code in end.db.bookings && end.db.bookings[code].paid >= end.db.bookings[code].total
      && !BalanceDue(end.db.bookings[code], on)
      && code in mid.kept && code in end.kept && end.kept[code] == mid.kept[code]
      && TimesCounted(end.db.payments, mid.attempts[x].verdict.value.id) == 1
  {
    hide Inv, Advance, ChargesDistinct, AllProper;
    var mid, recorded := RunWorld(w, before), RunWorld(w, before + [RecordVerdict(x)]);
    EveryProperRunStands(w, before);
    assert (before + [RecordVerdict(x)])[..|before|] == before;
    EveryProperStepStands(mid, RecordVerdict(x));
    RecordedIsPaid(mid, x);
    EveryProperRunStands(recorded, after);
    RunWorldConcat(w, before + [RecordVerdict(x)], after);
    var end, code, id := RunWorld(recorded, after), mid.attempts[x].code, mid.attempts[x].verdict.value.id;
    assert AttemptStands(mid, x);
    ProtocolRuns.RowsStay(recorded.db.payments, end.db.payments, id, Succeeded);
    assert KeyStands(end.db, end.kept, code);
    UniqueLedger(end.db);
    CountedOnce(end.db.payments, id);
  }

  lemma {:induction false} UniqueLedger(db: Db)
    requires Inv(db)
    ensures KeysUnique(db.payments)
  {
  }

  /** The crash the idempotency key is for: the card was charged and nothing was
      recorded. The next scan completes it without another charge exactly when the
      card on the booking is still the one that was charged; otherwise the processor
      refuses the key and the webhook is what is left to record it. */
  lemma {:induction false} RetryCompletesWithoutChargingAgain(w: World, code: Code, due: Due, x: int, on: int,
        v: Verdict)
    requires BalanceInv(w, code, due) && x !in w.attempts
    requires BalanceDue(w.db.bookings[code], on) && HasCard(RequestFor(w.db.bookings[code]))
    requires code in w.kept && w.kept[code].verdict.Charged?
    ensures var asked := Advance(Advance(w, Scan(x, code, on)), CallProcessor(x, v));
      var end := Advance(asked, RecordVerdict(x));
      && end.kept == w.kept
      && code in end.db.bookings
      && (end.db.bookings[code].paid == due.total <==>
            w.kept[code].request.customer == w.db.bookings[code].customer
            && w.kept[code].request.paymentMethod == w.db.bookings[code].paymentMethod)
  {
    var asked := Advance(Advance(w, Scan(x, code, on)), CallProcessor(x, v));
    ScanKeeps(w, x, code, on, code, due);
    hide Inv, Next, ChargesDistinct;
    if w.kept[code].request == RequestFor(w.db.bookings[code]) {
      assert asked.attempts[x].verdict == Some(w.kept[code].verdict);
      CallKeeps(Advance(w, Scan(x, code, on)), x, Declined(""), code, due);
      RecordKeeps(asked, x, code, due);
    }
  }

  /** Whatever else was paid in between: the retry settles the stay exactly when the whole
      request is the kept one, so when the card is the one that was charged and the sum
      owed is the sum it was charged. Otherwise it leaves the money where it was, and in
      neither case is the card charged again. */
  lemma {:induction false} RetrySettlesExactlyWhenTheRequestIsTheKeptOne(w: World, code: Code, x: int, on: int,
        v: Verdict)
    requires BooksStand(w) && x !in w.attempts && code in w.db.bookings
    requires BalanceDue(w.db.bookings[code], on) && HasCard(RequestFor(w.db.bookings[code]))
    requires code in w.kept && w.kept[code].verdict.Charged?
    ensures var end := RunWorld(w, [Scan(x, code, on), CallProcessor(x, v), RecordVerdict(x)]);
      var b, request := w.db.bookings[code], w.kept[code].request;
      && end.kept == w.kept && code in end.db.bookings
      && end.db.bookings[code].total == b.total
      && (end.db.bookings[code].paid == b.total <==>
            request.customer == b.customer && request.paymentMethod == b.paymentMethod
              && request.amount == b.total - b.paid)
      && (request != RequestFor(b) ==> end.db == w.db)
  {
    hide BooksStand, Next, Advance, BalanceDue;
    RunThree(w, Scan(x, code, on), CallProcessor(x, v), RecordVerdict(x));
    RetryAsks(w, code, x, on, v);
    if w.kept[code].request == RequestFor(w.db.bookings[code]) {
      KeptChargeSettles(w, code);
    }
  }

  /** The scan and the call, which leave the tables and the keys alone. */
  lemma {:induction false} RetryAsks(w: World, code: Code, x: int, on: int, v: Verdict)
    requires x !in w.attempts && code in w.db.bookings && code in w.kept
    requires BalanceDue(w.db.bookings[code], on) && HasCard(RequestFor(w.db.bookings[code]))
    ensures w.db.bookings[code].paid < w.db.bookings[code].total
    ensures var end := Advance(Advance(Advance(w, Scan(x, code, on)), CallProcessor(x, v)), RecordVerdict(x));
      && end.kept == w.kept
      && end.db == if w.kept[code].request != RequestFor(w.db.bookings[code]) then w.db
                   else Next(w.db, OwnReport(Attempt(code, w.kept[code].request, Some(w.kept[code].verdict))))
  {
    hide Next;
  }

  lemma {:induction false} KeptChargeSettles(w: World, code: Code)
    requires BooksStand(w) && code in w.kept && w.kept[code].verdict.Charged? && code in w.db.bookings
    requires var b := w.db.bookings[code]; w.kept[code].request == RequestFor(b) && b.paid < b.total
    ensures var db' := Next(w.db, OwnReport(Attempt(code, w.kept[code].request, Some(w.kept[code].verdict))));
      code in db'.bookings && db'.bookings[code].paid == db'.bookings[code].total == w.db.bookings[code].total
  {
    hide Inv, ChargeStep;
    var report := OwnReport(Attempt(code, w.kept[code].request, Some(w.kept[code].verdict)));
    assert KeyStands(w.db, w.kept, code);
    GrossOnlyFromCharges(w.db, report, code);
    ProtocolRuns.ChargeRecords(w.db, report.charge);
  }

  lemma {:induction false} RunThree(w: World, a: Step, b: Step, c: Step)
    ensures RunWorld(w, [a, b, c]) == Advance(Advance(Advance(w, a), b), c)
  {
    hide Advance;
    assert [a, b, c][..2] == [a, b] && [a, b][..1] == [a] && [a][..0] == [];
    assert RunWorld(w, [a]) == Advance(RunWorld(w, []), a);
    assert RunWorld(w, [a, b]) == Advance(RunWorld(w, [a]), b);
  }

  /** A decline leaves the stay confirmed and its money where it was. The first time
      it is recorded it flags the stay, which takes it out of every later scan, and
      tells the guest what is owed; recorded again it says nothing. */
  lemma {:induction false} DeclineFlagsOnce(db: Db, c: Charge, on: int)
    requires c.code in db.bookings && Invalid(c).None? && !EventSeen(db, c) && c.kind == Balance
    ensures var (db', r) := FailureStep(db, c); var b, b' := db.bookings[c.code], db'.bookings[c.code];
      && b' == b.(chargeFailed := b'.chargeFailed)
      && (b'.chargeFailed <==> b.chargeFailed || !HasRow(db.payments, c.stripeId, Failed))
      && (b'.chargeFailed ==> !BalanceDue(b', on))
      && db'.occupied == db.occupied
      && db'.outbox == db.outbox
           + (if HasRow(db.payments, c.stripeId, Failed) then [] else [BalanceFailed(c.code, b.total - b.paid)])
      && FailureStep(db', c).0 == db'.(events := FailureStep(db', c).0.events)
  {
    var db' := FailureStep(db, c).0;
    ProtocolRuns.FailureRecords(db, c);
    ProtocolRuns.MarkedIsInert(db', ProtocolRuns.FailureReport, c);
    assert Next(db', ProtocolRuns.Deliver(ProtocolRuns.FailureReport, c)) == FailureStep(db', c).0;
  }
}
