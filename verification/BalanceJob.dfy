/** The hourly balance run as it is written: one scan, then one guest after another,
    collecting failures instead of stopping at the first. */
module BalanceJob {
  import opened Common
  import opened Ledger
  import opened Inn
  import opened Protocol
  import opened BalanceRuns
  import ProtocolSteps
  import ProtocolRuns
  import RefundRuns
  import Store
  import Terms

  /** What the call to the processor comes to: a verdict if the key is new to it,
      or no answer at all. */
  datatype Line = Up(verdict: Verdict) | Down

  datatype Result = Collected | NotCollected | Broken

  /** chargeOne. A declined card is an outcome, not an error. */
  function ChargeOneStep(w: World, x: int, line: Line): (r: (World, Result))
    requires x in w.attempts
    ensures forall y :: y != x ==> (y in w.attempts <==> y in r.0.attempts)
    ensures forall y :: y != x && y in w.attempts ==> r.0.attempts[y] == w.attempts[y]
  {
    if !HasCard(w.attempts[x].request) then (Advance(w, FlagNoCard(x)), NotCollected)
    else
      match line
      case Down => (Advance(w, Die(x)), Broken)
      case Up(v) =>
        var asked := Advance(w, CallProcessor(x, v));
        if x !in asked.attempts || asked.attempts[x].verdict.None? then (asked, Broken)
        else (Advance(asked, RecordVerdict(x)), Outcome(asked.db, asked.attempts[x]))
  }

  function Outcome(db: Db, a: Attempt): Result
    requires a.verdict.Some?
  {
    match OwnReport(a)
    case DeliverCharge(c) => if ChargeStep(db, c).1.Rejected? then Broken else Collected
    case DeliverFailure(c) => if FailureStep(db, c).1.Rejected? then Broken else NotCollected
  }

  /** The scan: every listed booking with what it owed when the list was read. */
  function Listed(db: Db, due: seq<Code>): map<int, Attempt>
    requires forall i :: 0 <= i < |due| ==> due[i] in db.bookings
  {
    map i | 0 <= i < |due| :: Attempt(due[i], RequestFor(db.bookings[due[i]]), None)
  }

  /** The first n guests of the list, in order. */
  function Batch(w: World, n: nat, lines: seq<Line>): (r: (World, seq<Result>))
    requires n <= |lines| && forall i :: 0 <= i < n ==> i in w.attempts
    ensures |r.1| == n
    ensures forall x :: x >= n ==> (x in w.attempts <==> x in r.0.attempts)
    ensures forall x :: x >= n && x in w.attempts ==> r.0.attempts[x] == w.attempts[x]
  {
    hide ChargeOneStep;
    if n == 0 then (w, [])
    else
      var (before, results) := Batch(w, n - 1, lines);
      var (after, result) := ChargeOneStep(before, n - 1, lines[n - 1]);
      (after, results + [result])
  }

  function CountCollected(results: seq<Result>): nat {
    if |results| == 0 then 0
    else CountCollected(results[..|results| - 1]) + if results[|results| - 1] == Collected then 1 else 0
  }

  function BrokenCodes(due: seq<Code>, results: seq<Result>): seq<Code>
    requires |results| <= |due|
  {
    if |results| == 0 then []
    else
      var n := |results| - 1;
      BrokenCodes(due, results[..n]) + if results[n] == Broken then [due[n]] else []
  }

  lemma {:induction false} NoTurns(w: World, lines: seq<Line>, due: seq<Code>)
    ensures Batch(w, 0, lines) == (w, []) && CountCollected([]) == 0 && BrokenCodes(due, []) == []
  {
  }

  lemma {:induction false} OneMoreTurn(w: World, n: nat, lines: seq<Line>, due: seq<Code>)
    requires n < |lines| == |due| && forall i :: 0 <= i <= n ==> i in w.attempts
    ensures var (before, results) := Batch(w, n, lines); var (after, results') := Batch(w, n + 1, lines);
      && n in before.attempts && before.attempts[n] == w.attempts[n]
      && var (w', r) := ChargeOneStep(before, n, lines[n]);
         && after == w'
         && CountCollected(results') == CountCollected(results) + (if r == Collected then 1 else 0)
         && BrokenCodes(due, results') == BrokenCodes(due, results) + if r == Broken then [due[n]] else []
  {
    hide ChargeOneStep;
    assert Batch(w, n + 1, lines).1[..n] == Batch(w, n, lines).1;
  }

  // ---------------------------------------------------------------- the code

  class Terminal {
    var kept: map<Code, Kept>

    constructor ()
      ensures kept == map[]
    {
      kept := map[];
    }

    /** ChargeOffSession: None is an error that is not a decline. */
    method ChargeOffSession(code: Code, r: OffSession, line: Line) returns (verdict: Option<Verdict>)
      modifies this`kept
      ensures line.Down? ==> verdict.None? && kept == old(kept)
      ensures line.Up? ==> (kept, verdict) == AskProcessor(old(kept), code, r, line.verdict)
    {
      if line.Down? {
        return None;
      }
      if code !in kept {
        kept := kept[code := Kept(r, line.verdict)];
      }
      if kept[code].request == r {
        return Some(kept[code].verdict);
      }
      return None;
    }
  }

  method ChargeOne(db: Store.Tables, gw: Terminal, a: Attempt, line: Line, ghost w: World,
        ghost x: int) returns (result: Result)
    requires a.verdict.None? && w.db == db.State() && w.kept == gw.kept && x in w.attempts && w.attempts[x] == a
    modifies db, gw
    ensures var (after, r) := ChargeOneStep(w, x, line);
      db.State() == after.db && gw.kept == after.kept && result == r
  {
    hide ChargeStep, FailureStep;
    if a.request.customer == "" || a.request.paymentMethod == "" {
      db.FlagUncollectable(a.code);
      return NotCollected;
    }
    var verdict := gw.ChargeOffSession(a.code, a.request, line);
    if verdict.None? {
      return Broken;
    }
    var r;
    match verdict.value
    case Declined(id) =>
      var named := if id == "" then "declined:" + a.code else id;
      r := db.RecordFailure(Charge(a.code, named, "", Balance, a.request.amount, "", "", false));
      result := if r.Rejected? then Broken else NotCollected;
    case Charged(id) =>
      r := db.RecordCharge(Charge(a.code, id, "", Balance, a.request.amount, "", "", false));
      result := if r.Rejected? then Broken else Collected;
  }

  /** What the line to the processor is like for each guest; no entry is no answer. */
  function Lines(due: seq<Code>, answers: map<Code, Line>): (lines: seq<Line>)
    ensures |lines| == |due|
  {
    seq(|due|, i requires 0 <= i < |due| => if due[i] in answers then answers[due[i]] else Down)
  }

  lemma {:induction false} AnswerIsBooked(db: Db, on: int, due: seq<Code>)
    requires IsAnswer(db, ChargesDue, on, due)
    ensures DistinctCodes(due)
    ensures forall i :: 0 <= i < |due| ==> due[i] in db.bookings && BalanceDue(db.bookings[due[i]], on)
  {
  }

  /** What the scan reads with each booking on its list. */
  method ReadRows(db: Store.Tables, due: seq<Code>) returns (attempts: seq<Attempt>)
    requires forall i :: 0 <= i < |due| ==> due[i] in db.bookings
    ensures |attempts| == |due|
    ensures forall k :: 0 <= k < |due| ==> k in Listed(db.State(), due) && attempts[k] == Listed(db.State(), due)[k]
  {
    attempts := [];
    for i := 0 to |due|
      invariant |attempts| == i && forall k :: 0 <= k < i ==> attempts[k] == Listed(db.State(), due)[k]
    {
      attempts := attempts + [Attempt(due[i], RequestFor(db.bookings[due[i]]), None)];
    }
  }

  lemma {:induction false} ListedOnes(db: Db, due: seq<Code>)
    requires forall i :: 0 <= i < |due| ==> due[i] in db.bookings
    ensures forall i :: 0 <= i < |due| ==> i in Listed(db, due) && Listed(db, due)[i].verdict.None?
  {
  }

  /** ChargeBalances: the scan, read once before anything is charged, then every guest on
      it. `answers` is what the processor would say to each. On tables and keys that
      stand, which are all that any run leads to, those whose card is charged are paid in
      full and the others' money is where it was. */
  method ChargeBalances(db: Store.Tables, gw: Terminal, on: int, answers: map<Code, Line>)
    returns (collected: nat, failures: seq<Code>, ghost due: seq<Code>)
    modifies db, gw
    ensures IsAnswer(old(db.State()), ChargesDue, on, due)
    ensures var listed := World(old(db.State()), old(gw.kept), Listed(old(db.State()), due));
      var (after, results) := Batch(listed, |due|, Lines(due, answers));
      && db.State() == after.db && gw.kept == after.kept
      && collected == CountCollected(results) && failures == BrokenCodes(due, results)
    ensures Settles(World(old(db.State()), old(gw.kept), map[]), World(db.State(), gw.kept, map[]), due,
        Lines(due, answers))
    // whom it may touch on this day
    ensures forall code :: code in due <==> code in old(db.bookings) && !Terms.Spared(old(db.bookings)[code], on)
    ensures forall code :: code in old(db.bookings) && Terms.Spared(old(db.bookings)[code], on) ==>
        LeftAlone(World(old(db.State()), old(gw.kept), map[]), World(db.State(), gw.kept, map[]), code)
  {
    hide ChargeOneStep, Batch, BrokenCodes, CountCollected, IsAnswer, Settles, Listed, Lines, BalanceDue, DistinctCodes;
    var list := db.ListDue(ChargesDue, on);
    due := list;
    AnswerIsBooked(db.State(), on, list);
    ListedOnes(db.State(), list);
    var lines := Lines(list, answers);
    ghost var before := db.State();
    ghost var listed := World(db.State(), gw.kept, Listed(db.State(), due));
    var attempts := ReadRows(db, list);
    NoTurns(listed, lines, due);
    collected, failures := 0, [];
    for i := 0 to |list|
      invariant db.State() == Batch(listed, i, lines).0.db && gw.kept == Batch(listed, i, lines).0.kept
      invariant collected == CountCollected(Batch(listed, i, lines).1)
      invariant failures == BrokenCodes(due, Batch(listed, i, lines).1)
    {
      var result := ChargeOne(db, gw, attempts[i], lines[i], Batch(listed, i, lines).0, i);
      OneMoreTurn(listed, i, lines, due);
      match result
      case Broken => failures := failures + [list[i]];
      case Collected => collected := collected + 1;
      case NotCollected =>
    }
    BatchSettles(before, listed.kept, on, due, lines);
    forall code
      ensures code in due <==> code in before.bookings && !Terms.Spared(before.bookings[code], on)
      ensures code in before.bookings && code !in due ==>
        LeftAlone(World(before, listed.kept, map[]), World(db.State(), gw.kept, map[]), code)
    {
      Terms.ScanListsExactly(before, on, due, code);
      if code in before.bookings && code !in due {
        UnlistedIsLeftAlone(before, listed.kept, due, lines, code);
      }
    }
  }

  // ---------------------------------------------------------------- whom it leaves alone

  /** This stay's rows of the ledger, whatever became of them. */
  function RowsOf(rows: seq<Payment>, code: Code): seq<Payment> {
    if |rows| == 0 then []
    else
      RowsOf(rows[..|rows| - 1], code) + if rows[|rows| - 1].code == code then [rows[|rows| - 1]] else []
  }

  lemma {:induction false} RowsOfAppend(rows: seq<Payment>, p: Payment, code: Code)
    ensures RowsOf(rows + [p], code) == RowsOf(rows, code) + if p.code == code then [p] else []
  {
    assert (rows + [p])[..|rows|] == rows;
  }

  /** The stay's row, its ledger and the processor's answer for it are as they were. */
  ghost predicate LeftAlone(w: World, after: World, code: Code) {
    && code in w.db.bookings && code in after.db.bookings && after.db.bookings[code] == w.db.bookings[code]
    && RowsOf(after.db.payments, code) == RowsOf(w.db.payments, code)
    && (code in after.kept <==> code in w.kept) && (code in w.kept ==> after.kept[code] == w.kept[code])
  }

  lemma {:induction false} ReportLeavesOthersAlone(db: Db, a: Attempt, code: Code)
    requires a.verdict.Some? && a.code != code && code in db.bookings
    ensures var db' := Next(db, OwnReport(a));
      && code in db'.bookings && db'.bookings[code] == db.bookings[code]
      && RowsOf(db'.payments, code) == RowsOf(db.payments, code)
  {
    hide ChargeStep, FailureStep, RowsOf;
    match OwnReport(a)
    case DeliverCharge(c) => ChargeLeavesOthersAlone(db, c, code);
    case DeliverFailure(c) => FailureLeavesOthersAlone(db, c, code);
  }

  lemma {:induction false} ChargeLeavesOthersAlone(db: Db, c: Charge, code: Code)
    requires c.code != code && code in db.bookings
    ensures var db' := ChargeStep(db, c).0;
      && code in db'.bookings && db'.bookings[code] == db.bookings[code]
      && RowsOf(db'.payments, code) == RowsOf(db.payments, code)
  {
    hide ChargeStep, SettleStay, RowsOf;
    Terms.ChargeIsOneOf(db, c);
    RowsOfAppend(db.payments, Payment(c.code, c.stripeId, c.kind, c.amount, Succeeded), code);
    if c.code in db.bookings {
      Terms.SettlingMovesTheStatus(TakeMoney(NoteEvent(db, c), c), c, db.bookings[c.code]);
    }
  }

  lemma {:induction false} FailureLeavesOthersAlone(db: Db, c: Charge, code: Code)
    requires c.code != code && code in db.bookings
    ensures var db' := FailureStep(db, c).0;
      && code in db'.bookings && db'.bookings[code] == db.bookings[code]
      && RowsOf(db'.payments, code) == RowsOf(db.payments, code)
  {
    hide HasRow, RowsOf;
    RowsOfAppend(db.payments, Payment(c.code, c.stripeId, c.kind, c.amount, Failed), code);
  }

  lemma {:induction false} TurnLeavesOthersAlone(w: World, x: int, line: Line, code: Code)
    requires x in w.attempts && w.attempts[x].code != code && code in w.db.bookings
    ensures LeftAlone(w, ChargeOneStep(w, x, line).0, code)
  {
    hide Next, RowsOf;
    if HasCard(w.attempts[x].request) && line.Up? {
      var asked := Advance(w, CallProcessor(x, line.verdict));
      if x in asked.attempts && asked.attempts[x].verdict.Some? {
        ReportLeavesOthersAlone(w.db, asked.attempts[x], code);
      }
    }
  }

  lemma {:induction false} BatchLeavesOthersAlone(w: World, n: nat, lines: seq<Line>, code: Code)
    requires n <= |lines| && code in w.db.bookings
    requires forall i :: 0 <= i < n ==> i in w.attempts && w.attempts[i].code != code
    ensures LeftAlone(w, Batch(w, n, lines).0, code)
  {
    hide ChargeOneStep, RowsOf;
    if n > 0 {
      BatchLeavesOthersAlone(w, n - 1, lines, code);
      TurnLeavesOthersAlone(Batch(w, n - 1, lines).0, n - 1, lines[n - 1], code);
    }
  }

  lemma {:induction false} UnlistedIsLeftAlone(db: Db, kept: map<Code, Kept>, due: seq<Code>, lines: seq<Line>,
        code: Code)
    requires forall i :: 0 <= i < |due| ==> due[i] in db.bookings
    requires |lines| == |due| && code in db.bookings && code !in due
    ensures var after := Batch(World(db, kept, Listed(db, due)), |due|, lines).0;
      LeftAlone(World(db, kept, map[]), World(after.db, after.kept, map[]), code)
  {
    hide Batch;
    BatchLeavesOthersAlone(World(db, kept, Listed(db, due)), |due|, lines, code);
  }

  // ---------------------------------------------------------------- what a listed guest is asked

  /** A guest on the list is asked for what they still owe, of the card on their booking;
      with half a card or none nothing is asked, and the stay is flagged and told of it. */
  lemma {:induction false} AskedForExactlyWhatIsOwed(db: Db, kept: map<Code, Kept>, due: seq<Code>, k: nat, line: Line)
    requires forall i :: 0 <= i < |due| ==> due[i] in db.bookings
    requires k < |due|
    ensures var b, code := db.bookings[due[k]], due[k];
      var (after, result) := ChargeOneStep(World(db, kept, Listed(db, due)), k, line);
      && (b.customer == "" || b.paymentMethod == "" ==>
           && result == NotCollected && after.kept == kept
           && after.db == db.(bookings := db.bookings[code := b.(chargeFailed := true)],
                              outbox := db.outbox + [BalanceFailed(code, b.total - b.paid)]))
      && (b.customer != "" && b.paymentMethod != "" && line.Up? && code !in kept ==>
           after.kept == kept[code := Kept(OffSession(b.total - b.paid, b.customer, b.paymentMethod), line.verdict)])
      && (b.customer != "" && b.paymentMethod != "" && line.Down? ==>
           result == Broken && after.db == db && after.kept == kept)
  {
    hide Next;
  }

  /** A decline is written down and flags the stay, whatever the processor calls it. */
  lemma {:induction false} DeclinedGuestIsFlagged(w: World, x: int, id: string)
    requires x in w.attempts && w.attempts[x].verdict == Some(Declined(id)) && (id == "" || !Blank(id))
    requires w.attempts[x].code in w.db.bookings && w.attempts[x].request.amount > 0
    requires var named := if id == "" then "declined:" + w.attempts[x].code else id;
      !HasRow(w.db.payments, named, Failed)
    ensures var db', code := Next(w.db, OwnReport(w.attempts[x])), w.attempts[x].code; var b := w.db.bookings[code];
      && Outcome(w.db, w.attempts[x]) == NotCollected
      && db'.bookings == w.db.bookings[code := b.(chargeFailed := true)]
      && db'.outbox == w.db.outbox + [BalanceFailed(code, b.total - b.paid)]
  {
    var a := w.attempts[x];
    var named := if id == "" then "declined:" + a.code else id;
    assert !Blank(named) by {
      if id == "" {
        assert named[0] == 'd';
      }
    }
    hide HasRow;
  }

  // ---------------------------------------------------------------- what it comes to

  /** The processor's new charges bear ids nobody has used, each its own. */
  ghost predicate Unminted(w: World, lines: seq<Line>, from: nat) {
    && (forall i :: from <= i < |lines| && lines[i].Up? && lines[i].verdict.Charged? ==>
          !IdUsed(w, lines[i].verdict.id) && !Blank(lines[i].verdict.id))
    && forall i, j :: from <= i < j < |lines| && MayClash(lines[i], lines[j]) ==>
       lines[i].verdict.id != lines[j].verdict.id
  }

  predicate MayClash(a: Line, b: Line) {
    a.Up? && b.Up? && (a.verdict.Charged? || b.verdict.Charged?)
  }

  lemma {:induction false} CallLeavesUnminted(w: World, lines: seq<Line>, n: nat, x: int)
    requires n < |lines| && lines[n].Up? && Unminted(w, lines, n)
    ensures Unminted(Advance(w, CallProcessor(x, lines[n].verdict)), lines, n + 1)
  {
    var w' := Advance(w, CallProcessor(x, lines[n].verdict));
    forall i | n + 1 <= i < |lines| && lines[i].Up? && lines[i].verdict.Charged?
      ensures !IdUsed(w', lines[i].verdict.id)
    {
      assert !IdUsed(w, lines[i].verdict.id);
    }
  }

  lemma {:induction false} RecordLeavesUnminted(w: World, lines: seq<Line>, n: nat, x: int)
    requires Unminted(w, lines, n) && x in w.attempts && w.attempts[x].verdict.Some?
    requires var a := w.attempts[x]; a.code in w.kept && w.kept[a.code] == Kept(a.request, a.verdict.value)
    ensures Unminted(Advance(w, RecordVerdict(x)), lines, n)
  {
    var w', a := Advance(w, RecordVerdict(x)), OwnReport(w.attempts[x]);
    if w'.db.payments != w.db.payments {
      RefundRuns.NextLedger(w.db, a);
    }
    hide Next;
    forall i | n <= i < |lines| && lines[i].Up? && lines[i].verdict.Charged?
      ensures !IdUsed(w', lines[i].verdict.id)
    {
      var id := lines[i].verdict.id;
      assert !IdUsed(w, id) && w.kept[w.attempts[x].code].verdict.id != id;
      if w'.db.payments != w.db.payments {
        RefundRuns.RowAddedOnlyThere(w.db.payments, RefundRuns.RowOf(RefundRuns.Reported(a).value, a), id);
      }
    }
  }

  /** The card is charged: there is one, the line is up, and what the processor says under
      this guest's key is that it was. Nothing about any other guest comes into it. */
  ghost predicate CardCharged(kept: map<Code, Kept>, code: Code, r: OffSession, line: Line) {
    && HasCard(r) && line.Up?
    && AskProcessor(kept, code, r, line.verdict).1.Some? && AskProcessor(kept, code, r, line.verdict).1.value.Charged?
  }

  /** What the batch leaves of one listed booking's money. */
  ghost predicate OwnOutcome(db: Db, kept: map<Code, Kept>, after: Db, code: Code, line: Line) {
    && code in db.bookings && code in after.bookings
    && after.bookings[code].total == db.bookings[code].total
    && after.bookings[code].paid ==
         if CardCharged(kept, code, RequestFor(db.bookings[code]), line) then db.bookings[code].total
         else db.bookings[code].paid
  }

  lemma {:induction false} FlagLeavesLedger(db: Db, code: Code)
    ensures UncollectableStep(db, code).payments == db.payments
  {
  }

  lemma {:induction false} CallIsProper(w: World, lines: seq<Line>, n: nat)
    requires n < |lines| && lines[n].Up? && Unminted(w, lines, n)
    ensures Proper(w, CallProcessor(n, lines[n].verdict))
  {
  }

  lemma {:induction false} StillUnminted(w: World, w': World, lines: seq<Line>, n: nat)
    requires Unminted(w, lines, n) && n < |lines| && w'.kept == w.kept && w'.db.payments == w.db.payments
    ensures Unminted(w', lines, n + 1)
  {
    forall i | n + 1 <= i < |lines| && lines[i].Up? && lines[i].verdict.Charged?
      ensures !IdUsed(w', lines[i].verdict.id)
    {
      assert !IdUsed(w, lines[i].verdict.id);
    }
  }

  /** A guest's turn leaves everything standing. */
  lemma {:induction false} TurnStands(w: World, n: nat, lines: seq<Line>)
    requires n < |lines| && n in w.attempts && w.attempts[n].verdict.None?
    requires BooksStand(w) && Unminted(w, lines, n)
    ensures var after := ChargeOneStep(w, n, lines[n]).0; BooksStand(after) && Unminted(after, lines, n + 1)
  {
    hide Inv, Next, ChargeStep, FailureStep, BooksStand, Unminted, Proper, AttemptStands;
    if !HasCard(w.attempts[n].request) {
      FlagIsProper(w, n);
      EveryProperStepStands(w, FlagNoCard(n));
      FlagLeavesLedger(w.db, w.attempts[n].code);
      StillUnminted(w, Advance(w, FlagNoCard(n)), lines, n);
    } else if lines[n].Down? {
      FlagIsProper(w, n);
      EveryProperStepStands(w, Die(n));
      StillUnminted(w, Advance(w, Die(n)), lines, n);
    } else {
      var v := lines[n].verdict;
      CallIsProper(w, lines, n);
      EveryProperStepStands(w, CallProcessor(n, v));
      CallLeavesUnminted(w, lines, n, n);
      var asked := Advance(w, CallProcessor(n, v));
      if n in asked.attempts && asked.attempts[n].verdict.Some? {
        FlagIsProper(asked, n);
        EveryProperStepStands(asked, RecordVerdict(n));
        AnswerIsKept(asked, n);
        RecordLeavesUnminted(asked, lines, n + 1, n);
      }
    }
  }

  lemma {:induction false} FlagIsProper(w: World, x: int)
    ensures Proper(w, FlagNoCard(x)) && Proper(w, Die(x)) && Proper(w, RecordVerdict(x))
  {
  }

  lemma {:induction false} AnswerIsKept(w: World, x: int)
    requires BooksStand(w) && x in w.attempts && w.attempts[x].verdict.Some?
    ensures var a := w.attempts[x]; a.code in w.kept && w.kept[a.code] == Kept(a.request, a.verdict.value)
    ensures w.attempts[x].code in w.db.bookings && w.attempts[x].request.amount > 0
    ensures var a := w.attempts[x]; a.verdict.value.Charged? ==>
      && !Blank(a.verdict.value.id)
      && (HasRow(w.db.payments, a.verdict.value.id, Succeeded) ==>
           w.db.bookings[a.code].paid >= w.db.bookings[a.code].total)
  {
    assert AttemptStands(w, x);
    assert KeyStands(w.db, w.kept, w.attempts[x].code);
  }

  /** A turn leaves everybody else's money and key alone. */
  lemma {:induction false} TurnIsOwn(w: World, n: nat, line: Line, code: Code)
    requires BooksStand(w) && n in w.attempts && w.attempts[n].verdict.None?
    requires w.attempts[n].code != code && code in w.db.bookings
    ensures var after := ChargeOneStep(w, n, line).0;
      && code in after.db.bookings
      && after.db.bookings[code].paid == w.db.bookings[code].paid
      && after.db.bookings[code].total == w.db.bookings[code].total
      && (code in after.kept <==> code in w.kept) && (code in w.kept ==> after.kept[code] == w.kept[code])
  {
    hide Next, ChargeStep, FailureStep, KeyStands, AttemptStands, OccupancyOk, LedgerOk, BookingOk;
    if !HasCard(w.attempts[n].request) {
      FlagIsAnAction(w.db, w.attempts[n].code);
      FlagLeavesLedger(w.db, w.attempts[n].code);
      GrossOnlyFromCharges(w.db, FlagUncollectable(w.attempts[n].code), code);
    } else if line.Up? {
      var asked := Advance(w, CallProcessor(n, line.verdict));
      if n in asked.attempts && asked.attempts[n].verdict.Some? {
        GrossOnlyFromCharges(w.db, OwnReport(asked.attempts[n]), code);
      }
    }
  }

  predicate OwesItsRequest(db: Db, a: Attempt) {
    a.code in db.bookings && a.request.amount == db.bookings[a.code].total - db.bookings[a.code].paid > 0
  }

  /** And is what its own card, line and key make it. */
  lemma {:induction false} OwnTurn(w: World, n: nat, lines: seq<Line>)
    requires n < |lines| && n in w.attempts && w.attempts[n].verdict.None?
    requires BooksStand(w) && Unminted(w, lines, n)
    requires OwesItsRequest(w.db, w.attempts[n])
    ensures var a := w.attempts[n]; var (after, result) := ChargeOneStep(w, n, lines[n]);
      && (result == Collected <==> CardCharged(w.kept, a.code, a.request, lines[n]))
      && a.code in after.db.bookings && after.db.bookings[a.code].total == w.db.bookings[a.code].total
      && after.db.bookings[a.code].paid ==
           if result == Collected then w.db.bookings[a.code].total else w.db.bookings[a.code].paid
  {
    hide Inv, Next, ChargeStep, FailureStep, BooksStand, Unminted, Proper, AttemptStands;
    var a, code := w.attempts[n], w.attempts[n].code;
    StandingBooks(w);
    if !HasCard(a.request) {
      FlagIsAnAction(w.db, code);
      FlagLeavesLedger(w.db, code);
      GrossOnlyFromCharges(w.db, FlagUncollectable(code), code);
    } else if lines[n].Up? {
      CallIsProper(w, lines, n);
      EveryProperStepStands(w, CallProcessor(n, lines[n].verdict));
      var asked := Advance(w, CallProcessor(n, lines[n].verdict));
      if n in asked.attempts && asked.attempts[n].verdict.Some? {
        OwnReportCounts(asked, n);
      }
    }
  }

  lemma {:induction false} StandingBooks(w: World)
    requires BooksStand(w)
    ensures Inv(w.db)
  {
  }

  lemma {:induction false} OwnReportCounts(w: World, x: int)
    requires BooksStand(w) && x in w.attempts && w.attempts[x].verdict.Some?
    requires OwesItsRequest(w.db, w.attempts[x])
    ensures var a := w.attempts[x]; var db' := Next(w.db, OwnReport(a));
      && (Outcome(w.db, a) == Collected <==> a.verdict.value.Charged?)
      && a.code in db'.bookings && db'.bookings[a.code].total == w.db.bookings[a.code].total
      && db'.bookings[a.code].paid ==
           if a.verdict.value.Charged? then w.db.bookings[a.code].total else w.db.bookings[a.code].paid
  {
    hide Inv, BooksStand, AttemptStands;
    var a := w.attempts[x];
    StandingBooks(w);
    AnswerIsKept(w, x);
    GrossOnlyFromCharges(w.db, OwnReport(a), a.code);
    if a.verdict.value.Charged? {
      ProtocolRuns.ChargeRecords(w.db, OwnReport(a).charge);
      ValidIsNotRejected(w.db, OwnReport(a).charge);
    }
    hide ChargeStep, FailureStep;
  }

  lemma {:induction false} ValidIsNotRejected(db: Db, c: Charge)
    requires Invalid(c).None? && c.code in db.bookings
    ensures !ChargeStep(db, c).1.Rejected?
  {
    hide SecureRoom;
  }

  /** The whole batch, turn by turn: before theirs a guest is as they were listed, and
      after it as their own turn left them. */
  lemma {:induction false} TurnByTurn(w: World, n: nat, lines: seq<Line>, k: nat)
    requires n <= |lines| && k < |lines| && BooksStand(w) && Unminted(w, lines, 0)
    requires forall i :: 0 <= i < |lines| ==> i in w.attempts && AsListed(w, i)
    requires forall i :: 0 <= i < |lines| && i != k ==> w.attempts[i].code != w.attempts[k].code
    ensures var (after, results) := Batch(w, n, lines); var a := w.attempts[k];
      && a.code in w.db.bookings && a.code in after.db.bookings
      && after.db.bookings[a.code].total == w.db.bookings[a.code].total
      && (n <= k ==>
           (a.code in after.kept <==> a.code in w.kept) && (a.code in w.kept ==> after.kept[a.code] == w.kept[a.code]))
      && (n > k ==> (results[k] == Collected <==> CardCharged(w.kept, a.code, a.request, lines[k])))
      && after.db.bookings[a.code].paid ==
           if n > k && results[k] == Collected then w.db.bookings[a.code].total else w.db.bookings[a.code].paid
  {
    hide BooksStand, Unminted, ChargeOneStep, CardCharged, RequestFor, OwesItsRequest, AsListed;
    ListedOwes(w, k);
    if n > 0 {
      TurnByTurn(w, n - 1, lines, k);
      var before := Batch(w, n - 1, lines).0;
      forall i | 0 <= i < |lines| ensures w.attempts[i].verdict.None? {
        ListedOwes(w, i);
      }
      BatchStands(w, n - 1, lines);
      if n - 1 == k {
        StillOwes(w.db, before.db, w.attempts[k]);
        OwnTurn(before, k, lines);
        SameKeySameAnswer(before.kept, w.kept, w.attempts[k].code, w.attempts[k].request, lines[k]);
      } else {
        TurnIsOwn(before, n - 1, lines[n - 1], w.attempts[k].code);
      }
    }
  }

  lemma {:induction false} ListedOwes(w: World, i: int)
    requires i in w.attempts && AsListed(w, i)
    ensures w.attempts[i].verdict.None? && OwesItsRequest(w.db, w.attempts[i]) && w.attempts[i].code in w.db.bookings
  {
  }

  lemma {:induction false} StillOwes(db: Db, db': Db, a: Attempt)
    requires OwesItsRequest(db, a) && a.code in db'.bookings
    requires db'.bookings[a.code].total == db.bookings[a.code].total
    requires db'.bookings[a.code].paid == db.bookings[a.code].paid
    ensures OwesItsRequest(db', a)
  {
  }

  lemma {:induction false} SameKeySameAnswer(kept: map<Code, Kept>, kept': map<Code, Kept>, code: Code, r: OffSession,
        line: Line)
    requires (code in kept <==> code in kept') && (code in kept ==> kept[code] == kept'[code])
    ensures CardCharged(kept, code, r, line) <==> CardCharged(kept', code, r, line)
  {
  }

  predicate AsListed(w: World, i: int)
    requires i in w.attempts
  {
    var a := w.attempts[i];
    && a.verdict.None? && a.code in w.db.bookings
    && a.request == RequestFor(w.db.bookings[a.code]) && a.request.amount > 0
  }

  /** Nobody's trouble stops anybody else. Each guest on the list is reported collected
      exactly when their own card is charged, whatever the other lines are; they are paid
      in full by the end and on no later scan; and of the rest the money is where it was. */
  lemma {:induction false} EveryGuestStandsAlone(db: Db, kept: map<Code, Kept>, on: int, due: seq<Code>,
        lines: seq<Line>, k: nat, day: int)
    requires BooksStand(World(db, kept, map[])) && IsAnswer(db, ChargesDue, on, due)
    requires |lines| == |due| && k < |due| && Unminted(World(db, kept, map[]), lines, 0)
    ensures due[k] in db.bookings
    ensures var (after, results) := Batch(World(db, kept, Listed(db, due)), |due|, lines); var code := due[k];
      && (results[k] == Collected <==> CardCharged(kept, code, RequestFor(db.bookings[code]), lines[k]))
      && OwnOutcome(db, kept, after.db, code, lines[k])
      && (results[k] == Collected ==> !BalanceDue(after.db.bookings[code], day))
  {
    hide BooksStand, IsAnswer, Unminted, CardCharged;
    AnswerIsBooked(db, on, due);
    var w := World(db, kept, Listed(db, due));
    ListedBooksStand(db, kept, on, due, lines);
    forall i | 0 <= i < |due| ensures i in w.attempts && AsListed(w, i) {
    }
    TurnByTurn(w, |due|, lines, k);
    hide Batch;
  }

  lemma {:induction false} ListedBooksStand(db: Db, kept: map<Code, Kept>, on: int, due: seq<Code>, lines: seq<Line>)
    requires BooksStand(World(db, kept, map[])) && IsAnswer(db, ChargesDue, on, due)
    requires Unminted(World(db, kept, map[]), lines, 0)
    ensures var w := World(db, kept, Listed(db, due)); BooksStand(w) && Unminted(w, lines, 0)
  {
    hide Inv;
    var w, w0 := World(db, kept, Listed(db, due)), World(db, kept, map[]);
    forall c | c in w.kept ensures KeyStands(w.db, w.kept, c) {
      assert KeyStands(w0.db, w0.kept, c);
    }
    forall x | x in w.attempts ensures AttemptStands(w, x) {
    }
    forall i | 0 <= i < |lines| && lines[i].Up? && lines[i].verdict.Charged? ensures !IdUsed(w, lines[i].verdict.id) {
      assert !IdUsed(w0, lines[i].verdict.id);
    }
  }

  /** From tables and keys that stand to tables and keys that stand, with every listed
      booking's money as its own card, line and key make it. */
  ghost predicate Settles(w: World, after: World, due: seq<Code>, lines: seq<Line>)
    requires |lines| == |due|
  {
    BooksStand(w) && Unminted(w, lines, 0) ==>
      && BooksStand(after)
      && forall k :: 0 <= k < |due| ==> OwnOutcome(w.db, w.kept, after.db, due[k], lines[k])
  }

  lemma {:induction false} BatchSettles(db: Db, kept: map<Code, Kept>, on: int, due: seq<Code>, lines: seq<Line>)
    requires forall i :: 0 <= i < |due| ==> due[i] in db.bookings
    requires IsAnswer(db, ChargesDue, on, due) && |lines| == |due|
    ensures var after := Batch(World(db, kept, Listed(db, due)), |due|, lines).0;
      Settles(World(db, kept, map[]), World(after.db, after.kept, map[]), due, lines)
  {
    hide IsAnswer, Unminted, OwnOutcome, BooksStand, Batch;
    var w := World(db, kept, map[]);
    if BooksStand(w) && Unminted(w, lines, 0) {
      forall k | 0 <= k < |due|
        ensures OwnOutcome(db, kept, Batch(World(db, kept, Listed(db, due)), |due|, lines).0.db, due[k], lines[k])
      {
        EveryGuestStandsAlone(db, kept, on, due, lines, k, on);
      }
      ListedBooksStand(db, kept, on, due, lines);
      BatchStands(World(db, kept, Listed(db, due)), |due|, lines);
      WithoutAttempts(Batch(World(db, kept, Listed(db, due)), |due|, lines).0);
    }
  }

  lemma {:induction false} BatchStands(w: World, n: nat, lines: seq<Line>)
    requires n <= |lines| && BooksStand(w) && Unminted(w, lines, 0)
    requires forall i :: 0 <= i < |lines| ==> i in w.attempts && w.attempts[i].verdict.None?
    ensures var after := Batch(w, n, lines).0; BooksStand(after) && Unminted(after, lines, n)
  {
    hide BooksStand, Unminted, ChargeOneStep;
    if n > 0 {
      BatchStands(w, n - 1, lines);
      TurnStands(Batch(w, n - 1, lines).0, n - 1, lines);
    }
  }

  lemma {:induction false} WithoutAttempts(w: World)
    requires BooksStand(w)
    ensures BooksStand(World(w.db, w.kept, map[]))
  {
    hide Inv;
    forall c | c in w.kept ensures KeyStands(w.db, w.kept, c) {
    }
  }
}
