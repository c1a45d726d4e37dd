/** The refund job as it is written: read the ledger once, then ask and record
    slice by slice. It is proved to be a run of the world its steps belong to. */
module RefundJob {
  import opened Common
  import opened Ledger
  import opened Inn
  import opened Protocol
  import opened RefundRuns
  import Store

  /** The processor's side: refunds already made, each under its key. */
  class Processor {
    var sent: seq<Transfer>

    constructor ()
      ensures sent == []
    {
      sent := [];
    }

    method Refund(code: Code, part: Part, minted: string) returns (id: string)
      modifies this`sent
      ensures (sent, id) == Ask(old(sent), code, part, minted)
    {
      var made := AlreadyMade(sent, code, part);
      if made.Some? {
        return made.value;
      }
      sent := sent + [Transfer(code, part, minted)];
      return minted;
    }
  }

  datatype RefundError = UnknownBooking | GatewayUnreachable | NotRecorded(error: ChargeError)

  /** Everything a single run ever does. */
  predicate Own(s: Step, run: int, code: Code, target: int) {
    match s
    case Begin(r, c, t) => r == run && c == code && t == target
    case Send(r, _) => r == run
    case RecordSlice(r) => r == run
    case Die(r) => r == run
    case Elsewhere(_) => false
  }

  ghost predicate AllOwn(steps: seq<Step>, run: int, code: Code, target: int) {
    forall i :: 0 <= i < |steps| ==> Own(steps[i], run, code, target)
  }

  /** None of these ids is in use yet, and no two of them are the same. */
  ghost predicate Unminted(w: World, ids: seq<string>) {
    && (forall i :: 0 <= i < |ids| ==> !IdUsed(w, ids[i]) && !Blank(ids[i]))
    && forall i, j :: 0 <= i < j < |ids| ==> ids[i] != ids[j]
  }

  lemma {:induction false} RunOneMore(w: World, steps: seq<Step>, s: Step)
    ensures RunWorld(w, steps + [s]) == Advance(RunWorld(w, steps), s)
  {
    assert (steps + [s])[..|steps|] == steps;
  }

  lemma {:induction false} SendLeavesUnminted(w: World, run: int, ids: seq<string>)
    requires |ids| > 0 && Unminted(w, ids)
    ensures Unminted(Advance(w, Send(run, ids[0])), ids[1..])
  {
    hide AlreadyMade;
    var w' := Advance(w, Send(run, ids[0]));
    forall i | 0 <= i < |ids[1..]| ensures !IdUsed(w', ids[1..][i]) {
      assert ids[1..][i] == ids[i + 1] && ids[0] != ids[i + 1];
      assert !IdUsed(w, ids[i + 1]);
    }
  }

  lemma {:induction false} RecordLeavesUnminted(w: World, run: int, ids: seq<string>)
    requires Unminted(w, ids)
    requires run in w.runs && w.runs[run].answer.Some?
    requires WasSent(w.sent, w.runs[run].code, w.runs[run].answer.value)
    ensures Unminted(Advance(w, RecordSlice(run)), ids)
  {
    var w', r := Advance(w, RecordSlice(run)), w.runs[run];
    var k :| 0 <= k < |w.sent| && w.sent[k].code == r.code && w.sent[k].id == r.answer.value;
    if Active(w, run) {
      RefundLedger(w.db, RefundCharge(r.code, r.parts[r.next], r.answer.value));
    }
    hide RefundStep;
    forall i | 0 <= i < |ids| ensures !IdUsed(w', ids[i]) {
      assert !IdUsed(w, ids[i]) && ids[i] != w.sent[k].id;
      if HasRow(w'.db.payments, ids[i], Succeeded) {
        RowAddedOnlyThere(w.db.payments,
          Payment(r.code, r.answer.value, Kind.Refund, r.parts[r.next].amount, Succeeded), ids[i]);
      }
    }
  }

  /** The refund is on plan and the processor has these ids still to give. */
  ghost predicate OnTrack(w: World, code: Code, target: int, ids: seq<string>) {
    RefundInv(w, code, target) && Unminted(w, ids)
  }

  function SliceDone(w: World, run: int, minted: string): World {
    Advance(Advance(w, Send(run, minted)), RecordSlice(run))
  }

  lemma {:induction false} BeginStaysOnTrack(w: World, run: int, code: Code, target: int, ids: seq<string>)
    requires OnTrack(w, code, target, ids)
    ensures OnTrack(Advance(w, Begin(run, code, target)), code, target, ids)
  {
    EveryStepKeeps(w, Begin(run, code, target), code, target);
  }

  lemma {:induction false} SliceStaysOnTrack(w: World, run: int, code: Code, target: int, ids: seq<string>)
    requires OnTrack(w, code, target, ids) && |ids| > 0
    requires Active(w, run) && w.runs[run].answer.None? && w.runs[run].code == code
    ensures OnTrack(Advance(w, Send(run, ids[0])), code, target, ids[1..])
    ensures OnTrack(SliceDone(w, run, ids[0]), code, target, ids[1..])
    ensures Charges(SliceDone(w, run, ids[0]).db.payments, code) == Charges(w.db.payments, code)
    ensures var asked := Advance(w, Send(run, ids[0]));
      !RefundStep(asked.db,
        RefundCharge(code, w.runs[run].parts[w.runs[run].next], asked.runs[run].answer.value)).1.Rejected?
  {
    var asked := Advance(w, Send(run, ids[0]));
    SendLeavesUnminted(w, run, ids);
    EveryStepKeeps(w, Send(run, ids[0]), code, target);
    assert RunIsFine(asked, run, code, target);
    RecordLeavesUnminted(asked, run, ids[1..]);
    EveryStepKeeps(asked, RecordSlice(run), code, target);
    SliceIsRecorded(asked, run, code, target);
  }

  lemma {:induction false} SliceIsRecorded(w: World, run: int, code: Code, target: int)
    requires RefundInv(w, code, target) && Active(w, run) && RunIsFine(w, run, code, target)
    requires w.runs[run].answer.Some? && w.runs[run].code == code
    ensures var r := w.runs[run];
      var (db', reply) := RefundStep(w.db, RefundCharge(code, r.parts[r.next], r.answer.value));
      !reply.Rejected? && Charges(db'.payments, code) == Charges(w.db.payments, code)
  {
    hide Inv, RefundStep, HasRow, Charges, Refunds, SentParts, SentIds, Division, InStep, RunFollows;
    var r := w.runs[run];
    AnswerNotBlank(w, run);
    PlanShape(w.db, code, target);
    OnItsSlice(w.db, w.sent, r, Plan(w.db, code, target), target);
    RefundIsNoCharge(w.db, RefundCharge(code, r.parts[r.next], r.answer.value));
  }

  lemma {:induction false} RefundIsNoCharge(db: Db, c: Charge)
    requires Invalid(c).None? && c.code in db.bookings
    ensures var (db', reply) := RefundStep(db, c);
      !reply.Rejected? && Charges(db'.payments, c.code) == Charges(db.payments, c.code)
  {
    hide HasRow, Charges;
    RefundLedger(db, c);
    AppendRow(db.payments, Payment(c.code, c.stripeId, Kind.Refund, c.amount, Succeeded), c.code);
  }

  lemma {:induction false} SliceMovesTheRun(w: World, run: int, minted: string, steps: seq<Step>, start: World,
        code: Code, target: int)
    requires Active(w, run) && w.runs[run].answer.None? && w == RunWorld(start, steps)
    ensures SliceDone(w, run, minted).runs == w.runs[run := w.runs[run].(next := w.runs[run].next + 1, answer := None)]
    ensures SliceDone(w, run, minted) == RunWorld(start, steps + [Send(run, minted), RecordSlice(run)])
    ensures Advance(w, Send(run, minted)) == RunWorld(start, steps + [Send(run, minted)])
    ensures AllOwn(steps, run, code, target) ==>
      AllOwn(steps + [Send(run, minted)], run, code, target)
        && AllOwn(steps + [Send(run, minted), RecordSlice(run)], run, code, target)
  {
    hide Advance, RunWorld, AllOwn;
    SliceAdvances(w, run, minted);
    RunOneMore(start, steps, Send(run, minted));
    RunOneMore(start, steps + [Send(run, minted)], RecordSlice(run));
    assert steps + [Send(run, minted)] + [RecordSlice(run)] == steps + [Send(run, minted), RecordSlice(run)];
    if AllOwn(steps, run, code, target) {
      OneMoreOwn(steps, Send(run, minted), run, code, target);
      OneMoreOwn(steps + [Send(run, minted)], RecordSlice(run), run, code, target);
    }
  }

  lemma {:induction false} SliceAdvances(w: World, run: int, minted: string)
    requires Active(w, run) && w.runs[run].answer.None?
    ensures SliceDone(w, run, minted).runs == w.runs[run := w.runs[run].(next := w.runs[run].next + 1, answer := None)]
  {
    hide RefundStep, Ask;
  }

  lemma {:induction false} OneMoreOwn(steps: seq<Step>, s: Step, run: int, code: Code, target: int)
    requires AllOwn(steps, run, code, target) && Own(s, run, code, target)
    ensures AllOwn(steps + [s], run, code, target)
  {
  }

  lemma {:induction false} AllReturned(w: World, run: int, code: Code, target: int)
    requires RefundInv(w, code, target)
    requires run in w.runs && w.runs[run].code == code && w.runs[run].next == |w.runs[run].parts|
    requires Charges(w.db.payments, code) == w.runs[run].reading.charges
    ensures Sum(Refunds(w.db.payments, code)) == Owed(Charges(w.db.payments, code), target) == Moved(w, code)
  {
    assert RunIsFine(w, run, code, target);
    PlanShape(w.db, code, target);
    RunAtItsEnd(w, run, code, target);
    DivisionTotal(Charges(w.db.payments, code), target);
    hide Inv, InStep, RunIsFine, Charges, Refunds, Division;
  }

  lemma {:induction false} BeginMoves(w: World, run: int, code: Code, target: int)
    requires run !in w.runs
    ensures RunWorld(w, []) == w && AllOwn([], run, code, target)
    ensures var begun := Advance(w, Begin(run, code, target)); var reading := Read(w.db.payments, code);
      && RunWorld(w, [Begin(run, code, target)]) == begun && AllOwn([Begin(run, code, target)], run, code, target)
      && begun.db == w.db && begun.sent == w.sent
      && begun.runs == w.runs[run := RefundRun(code, reading, Allocation(reading, target), 0, None)]
  {
    RunOneMore(w, [], Begin(run, code, target));
    assert [] + [Begin(run, code, target)] == [Begin(run, code, target)];
  }

  /** One turn of the loop: ask the processor, then write the row. */
  method SendSlice(db: Store.Tables, gw: Processor, code: Code, part: Part, minted: string, ghost w: World,
        ghost run: int)
    returns (r: Reply)
    requires w.db == db.State() && w.sent == gw.sent
    requires Active(w, run) && w.runs[run].answer.None?
    requires w.runs[run].code == code && w.runs[run].parts[w.runs[run].next] == part
    modifies db, gw
    ensures var asked := Advance(w, Send(run, minted));
      && r == RefundStep(asked.db, RefundCharge(code, part, asked.runs[run].answer.value)).1
      && var after := if r.Rejected? then asked else SliceDone(w, run, minted);
         db.State() == after.db && gw.sent == after.sent
  {
    var id := gw.Refund(code, part, minted);
    r := db.RecordRefund(RefundCharge(code, part, id));
  }

  /** Sends what is owed on a booking, a slice at a time. The processor answers as
      many requests as there are ids in `minted` and is unreachable after that.

      Whatever happens, what was done is a run of the transition system. When it
      comes to its end on a booking whose refunds are on plan, the ledger has
      recorded exactly what was owed and the processor has moved exactly that. */
  method Refund(db: Store.Tables, gw: Processor, code: Code, target: int, minted: seq<string>,
                ghost run: int, ghost others: map<int, RefundRun>)
    returns (err: Option<RefundError>, ghost steps: seq<Step>, ghost end: World)
    requires run !in others
    modifies db, gw
    ensures var start := World(old(db.State()), old(gw.sent), others);
      && AllOwn(steps, run, code, target) && end == RunWorld(start, steps)
      && db.State() == end.db && gw.sent == end.sent
      && (err.None? ==> run in end.runs && end.runs[run].code == code && end.runs[run].next == |end.runs[run].parts|)
      && (err == Some(UnknownBooking) <==> code !in start.db.bookings)
      // it gives up only when the processor does, with every slice before that recorded
      && (err == Some(GatewayUnreachable) ==>
           && run in end.runs && end.runs[run].next == |minted| < |end.runs[run].parts|
           && end.runs[run].parts == Allocation(Read(start.db.payments, code), target))
    ensures var start := World(old(db.State()), old(gw.sent), others);
      OnTrack(start, code, target, minted) ==>
        && (err.Some? ==> err.value.GatewayUnreachable?)
        && (err.None? ==>
             Sum(Refunds(db.payments, code)) == Owed(Charges(db.payments, code), target) == Moved(end, code))
  {
    hide Charges, Refunds, Allocation, SliceDone, AlreadyMade, RunWorld, RefundStep, Inv, OnPlan, Unminted, Advance;
    hide AllOwn;
    ghost var start := World(db.State(), gw.sent, others);
    BeginMoves(start, run, code, target);
    steps, end := [], start;
    if code !in db.bookings {
      return Some(UnknownBooking), steps, end;
    }
    var reading := Read(db.payments, code);
    var parts := Allocate(reading, target);
    ghost var onTrack := OnTrack(start, code, target, minted);
    steps, end := [Begin(run, code, target)], Advance(start, Begin(run, code, target));
    if onTrack {
      BeginStaysOnTrack(start, run, code, target, minted);
    }
    assert minted[0..] == minted;
    for i := 0 to |parts|
      invariant end == RunWorld(start, steps) && AllOwn(steps, run, code, target)
      invariant db.State() == end.db && gw.sent == end.sent
      invariant run in end.runs && end.runs[run] == RefundRun(code, reading, parts, i, None)
      invariant i <= |minted|
      invariant onTrack ==> OnTrack(end, code, target, minted[i..]) && Charges(end.db.payments, code) == reading.charges
    {
      if i == |minted| {
        return Some(GatewayUnreachable), steps, end;
      }
      SliceMovesTheRun(end, run, minted[i], steps, start, code, target);
      if onTrack {
        SliceStaysOnTrack(end, run, code, target, minted[i..]);
        assert minted[i..][1..] == minted[i + 1..];
      }
      var r := SendSlice(db, gw, code, parts[i], minted[i], end, run);
      if r.Rejected? {
        return Some(NotRecorded(r.error)), steps + [Send(run, minted[i])], Advance(end, Send(run, minted[i]));
      }
      steps, end := steps + [Send(run, minted[i]), RecordSlice(run)], SliceDone(end, run, minted[i]);
    }
    if onTrack {
      AllReturned(end, run, code, target);
    }
    return None, steps, end;
  }
}
