/** The refund job against a processor that answers a repeated request with the
    refund it already made. Any number of runs overlap, each may die between any
    two steps, and the rest of the protocol goes on around them. */
module RefundRuns {
  import opened Common
  import opened Ledger
  import opened Inn
  import opened Protocol
  import ProtocolSteps
  import ProtocolRuns

  /** One refund the processor made: the key it was asked under, and its id. */
  datatype Transfer = Transfer(code: Code, part: Part, id: string)

  /** One run of the job: what it read, what it set out to send, and how far it
      got. `answer` is the refund id it was given for the slice it is on and has
      not yet recorded. */
  datatype RefundRun = RefundRun(code: Code, reading: Reading, parts: seq<Part>, next: nat, answer: Option<string>)

  datatype World = World(db: Db, sent: seq<Transfer>, runs: map<int, RefundRun>)

  datatype Step =
    | Begin(run: int, code: Code, target: int)
    | Send(run: int, minted: string)
    | RecordSlice(run: int)
    | Die(run: int)
    | Elsewhere(action: Action)

  // ---------------------------------------------------------------- the processor

  /** The transfers of one booking, in the order they were made. */
  function SentParts(sent: seq<Transfer>, code: Code): seq<Part> {
    if |sent| == 0 then []
    else
      var init, last := SentParts(sent[..|sent| - 1], code), sent[|sent| - 1];
      if last.code == code then init + [last.part] else init
  }

  function SentIds(sent: seq<Transfer>, code: Code): (ids: seq<string>)
    ensures |ids| == |SentParts(sent, code)|
  {
    if |sent| == 0 then []
    else
      var init, last := SentIds(sent[..|sent| - 1], code), sent[|sent| - 1];
      if last.code == code then init + [last.id] else init
  }

  /** The refund already made under this key, if any. */
  function AlreadyMade(sent: seq<Transfer>, code: Code, part: Part): Option<string> {
    if |sent| == 0 then None
    else
      var last := sent[|sent| - 1];
      if last.code == code && last.part == part then Some(last.id) else AlreadyMade(sent[..|sent| - 1], code, part)
  }

  /** gateway.Refund: the same key gets the same refund back, and money moves once. */
  function Ask(sent: seq<Transfer>, code: Code, part: Part, minted: string): (seq<Transfer>, string) {
    match AlreadyMade(sent, code, part)
    case Some(id) => (sent, id)
    case None => (sent + [Transfer(code, part, minted)], minted)
  }

  function RefundCharge(code: Code, part: Part, id: string): Charge {
    Charge(code, id, "", Refund, part.amount, "", "", false)
  }

  predicate Active(w: World, run: int) {
    run in w.runs && w.runs[run].next < |w.runs[run].parts|
  }

  function Advance(w: World, s: Step): World {
    match s
    case Begin(run, code, target) =>
      if run in w.runs then w
      else
        var reading := Read(w.db.payments, code);
        w.(runs := w.runs[run := RefundRun(code, reading, Allocation(reading, target), 0, None)])
    case Send(run, minted) =>
      if !Active(w, run) || w.runs[run].answer.Some? then w
      else
        var r := w.runs[run];
        var (sent, id) := Ask(w.sent, r.code, r.parts[r.next], minted);
        w.(sent := sent, runs := w.runs[run := r.(answer := Some(id))])
    case RecordSlice(run) =>
      if !Active(w, run) || w.runs[run].answer.None? then w
      else
        var r := w.runs[run];
        w.(db := RefundStep(w.db, RefundCharge(r.code, r.parts[r.next], r.answer.value)).0,
           runs := w.runs[run := r.(next := r.next + 1, answer := None)])
    case Die(run) => w.(runs := w.runs - {run})
    case Elsewhere(a) => w.(db := Next(w.db, a))
  }

  function RunWorld(w: World, steps: seq<Step>): World {
    if |steps| == 0 then w else Advance(RunWorld(w, steps[..|steps| - 1]), steps[|steps| - 1])
  }

  // ---------------------------------------------------------------- what is assumed

  ghost predicate IdUsed(w: World, id: string) {
    (exists i :: 0 <= i < |w.sent| && w.sent[i].id == id) || HasRow(w.db.payments, id, Succeeded)
  }

  /** The charge an action reports, if it reports one. */
  function Reported(a: Action): Option<Charge> {
    match a
    case DeliverCharge(c) => Some(c)
    case DeliverFailure(c) => Some(c)
    case DeliverRefund(c) => Some(c)
    case _ => None
  }

  /** What the world may do beside this booking's refund: the processor mints a new
      id for a new refund, a payment never carries a refund's id, all of the
      booking's jobs carry the one target, and its refunds are recorded by its
      jobs. Payments may land on it at any time. */
  ghost predicate Allowed(w: World, s: Step, code: Code, target: int) {
    match s
    case Begin(_, c, t) => c == code ==> t == target
    case Send(_, minted) => !IdUsed(w, minted) && !Blank(minted)
    case RecordSlice(_) => true
    case Die(_) => true
    case Elsewhere(a) =>
      && Genuine(a)
      && (a.DeliverRefund? ==> a.charge.code != code)
      && (Reported(a).Some? ==> forall i :: 0 <= i < |w.sent| ==> w.sent[i].id != Reported(a).value.stripeId)
  }

  ghost predicate AllAllowed(w: World, steps: seq<Step>, code: Code, target: int) {
    forall i :: 0 <= i < |steps| ==> Allowed(RunWorld(w, steps[..i]), steps[i], code, target)
  }

  // ---------------------------------------------------------------- the invariant

  /** The refund as it stands decided: what all runs agree on. */
  function Plan(db: Db, code: Code, target: int): seq<Part> {
    Division(Charges(db.payments, code), target)
  }

  ghost predicate IdsDistinct(sent: seq<Transfer>) {
    forall i, j :: 0 <= i < j < |sent| ==> sent[i].id != sent[j].id
  }

  ghost predicate NoneBlank(sent: seq<Transfer>) {
    forall i :: 0 <= i < |sent| ==> !Blank(sent[i].id)
  }

  ghost predicate WasSent(sent: seq<Transfer>, code: Code, id: string) {
    exists i :: 0 <= i < |sent| && sent[i].code == code && sent[i].id == id
  }

  /** Money has moved for a first stretch of the plan, in order, and the ledger has
      recorded all of it or all but the last slice. */
  ghost predicate InStep(db: Db, sent: seq<Transfer>, code: Code, plan: seq<Part>) {
    var moved, recorded := |SentParts(sent, code)|, |Refunds(db.payments, code)|;
    && recorded <= moved <= recorded + 1 && moved <= |plan|
    && SentParts(sent, code) == plan[..moved]
    && Refunds(db.payments, code) == Amounts(plan[..recorded])
    && forall i :: 0 <= i < moved ==> (HasRow(db.payments, SentIds(sent, code)[i], Succeeded) <==> i < recorded)
  }

  /** The slice of the plan a run's list starts at. */
  function Skipped(r: RefundRun, target: int): int {
    |Division(r.reading.charges, target)| - |r.parts|
  }

  /** A run follows the plan as it read it, and is never ahead of the records. */
  ghost predicate RunFollows(db: Db, sent: seq<Transfer>, r: RefundRun, plan: seq<Part>, target: int) {
    var own := Division(r.reading.charges, target);
    var at := Skipped(r, target) + r.next;
    && r.reading.charges <= Charges(db.payments, r.code)
    && own <= plan
    && |r.parts| <= |own| && r.parts == own[Skipped(r, target)..]
    && r.next <= |r.parts|
    && at <= |Refunds(db.payments, r.code)|
    && (r.answer.Some? ==>
         r.next < |r.parts| && at < |SentParts(sent, r.code)| && r.answer.value == SentIds(sent, r.code)[at])
  }

  ghost predicate RunIsFine(w: World, run: int, code: Code, target: int)
    requires run in w.runs
  {
    var r := w.runs[run];
    && (r.answer.Some? ==> WasSent(w.sent, r.code, r.answer.value))
    && (r.code == code ==> RunFollows(w.db, w.sent, r, Plan(w.db, code, target), target))
  }

  /** The part of the invariant that is about this refund alone. */
  ghost predicate OnPlan(w: World, code: Code, target: int) {
    && IdsDistinct(w.sent) && NoneBlank(w.sent)
    && InStep(w.db, w.sent, code, Plan(w.db, code, target))
    && forall run {:trigger RunIsFine(w, run, code, target)} :: run in w.runs ==> RunIsFine(w, run, code, target)
  }

  ghost predicate RefundInv(w: World, code: Code, target: int) {
    Inv(w.db) && code in w.db.bookings && target >= 0 && OnPlan(w, code, target)
  }

  // ---------------------------------------------------------------- small facts

  lemma {:induction false} SentAppend(sent: seq<Transfer>, t: Transfer, code: Code)
    ensures SentParts(sent + [t], code) ==
        if t.code == code then SentParts(sent, code) + [t.part] else SentParts(sent, code)
    ensures SentIds(sent + [t], code) == if t.code == code then SentIds(sent, code) + [t.id] else SentIds(sent, code)
  {
    assert (sent + [t])[..|sent|] == sent;
  }

  lemma {:induction false} SentIdsAreSent(sent: seq<Transfer>, code: Code, i: nat)
    requires i < |SentParts(sent, code)|
    ensures exists k :: 0 <= k < |sent| && sent[k] == Transfer(code, SentParts(sent, code)[i], SentIds(sent, code)[i])
  {
    var init := sent[..|sent| - 1];
    if i < |SentParts(init, code)| {
      SentIdsAreSent(init, code, i);
      var k :| 0 <= k < |init| && init[k] == Transfer(code, SentParts(init, code)[i], SentIds(init, code)[i]);
      assert sent[k] == init[k];
    } else {
      assert sent[|sent| - 1].code == code;
    }
  }

  lemma {:induction false} SentIdsDistinct(sent: seq<Transfer>, code: Code)
    requires IdsDistinct(sent)
    ensures forall i, j :: 0 <= i < j < |SentIds(sent, code)| ==> SentIds(sent, code)[i] != SentIds(sent, code)[j]
  {
    if |sent| > 0 {
      var init := sent[..|sent| - 1];
      SentIdsDistinct(init, code);
      forall i | 0 <= i < |SentIds(init, code)| ensures SentIds(init, code)[i] != sent[|sent| - 1].id {
        SentIdsAreSent(init, code, i);
        var k :| 0 <= k < |init| && init[k] == Transfer(code, SentParts(init, code)[i], SentIds(init, code)[i]);
        assert sent[k] == init[k];
      }
    }
  }

  /** With every slice a different intent, a key names its own transfer. */
  lemma {:induction false} MadeFinds(sent: seq<Transfer>, code: Code, part: Part)
    requires IntentsDistinct(SentParts(sent, code))
    ensures AlreadyMade(sent, code, part).None? <==> part !in SentParts(sent, code)
    ensures forall i :: 0 <= i < |SentParts(sent, code)| && SentParts(sent, code)[i] == part ==>
        AlreadyMade(sent, code, part) == Some(SentIds(sent, code)[i])
  {
    if |sent| > 0 {
      var init, last := sent[..|sent| - 1], sent[|sent| - 1];
      var parts := SentParts(sent, code);
      assert forall i :: 0 <= i < |SentParts(init, code)| ==> SentParts(init, code)[i] == parts[i];
      MadeFinds(init, code, part);
      if last.code == code && last.part == part {
        assert parts[|parts| - 1] == part;
        forall i | 0 <= i < |parts| - 1 ensures parts[i] != part {
          assert parts[i].intent != parts[|parts| - 1].intent;
        }
      } else if part in parts {
        var i :| 0 <= i < |parts| && parts[i] == part;
        assert SentParts(init, code)[i] == part;
      }
    }
  }

  /** The plan is made of distinct intents, each slice no more than its payment. */
  lemma {:induction false} PlanShape(db: Db, code: Code, target: int)
    requires Inv(db)
    ensures var plan := Plan(db, code, target); var charges := Charges(db.payments, code);
      && PartsPositive(charges) && IntentsDistinct(charges) && PartsPositive(plan) && IntentsDistinct(plan)
      && |plan| <= |charges|
      && forall i :: 0 <= i < |plan| ==> plan[i].intent == charges[i].intent && plan[i].amount <= charges[i].amount
  {
    var charges := Charges(db.payments, code);
    ChargesAreDistinctIntents(db.payments, code);
    FillShape(charges, Target(charges, target));
  }

  lemma {:induction false} PrefixTotal(parts: seq<Part>, n: nat)
    requires PartsPositive(parts) && n <= |parts|
    ensures Total(parts[..n]) <= Total(parts)
    ensures n == |parts| ==> Total(parts[..n]) == Total(parts)
  {
    TotalConcat(parts[..n], parts[n..]);
    assert parts[..n] + parts[n..] == parts;
    TotalPositive(parts[n..]);
    if n == |parts| {
      assert parts[..n] == parts;
    }
  }

  // ---------------------------------------------------------------- every step keeps it

  /** The agreement between records, transfers and plan only ever moves forward. */
  ghost predicate Forward(w: World, w': World, code: Code, target: int) {
    && Charges(w.db.payments, code) <= Charges(w'.db.payments, code)
    && Plan(w.db, code, target) <= Plan(w'.db, code, target)
    && |Refunds(w.db.payments, code)| <= |Refunds(w'.db.payments, code)|
    && SentIds(w.sent, code) <= SentIds(w'.sent, code)
    && w.sent <= w'.sent
  }

  /** A step that moves some runs forward, and the tables with them, keeps the rest. */
  lemma {:induction false} Carry(w: World, w': World, code: Code, target: int, moving: set<int>)
    requires OnPlan(w, code, target) && Forward(w, w', code, target)
    requires IdsDistinct(w'.sent) && NoneBlank(w'.sent)
    requires InStep(w'.db, w'.sent, code, Plan(w'.db, code, target))
    requires forall x :: x in w'.runs && x !in moving ==> x in w.runs && w'.runs[x] == w.runs[x]
    requires forall x {:trigger RunIsFine(w', x, code, target)} :: x in w'.runs && x in moving ==>
        RunIsFine(w', x, code, target)
    ensures OnPlan(w', code, target)
  {
    forall x | x in w'.runs ensures RunIsFine(w', x, code, target) {
      if x !in moving {
        assert RunIsFine(w, x, code, target);
        StillFine(w, w', x, code, target);
      }
    }
  }

  lemma {:induction false} StillFine(w: World, w': World, x: int, code: Code, target: int)
    requires Forward(w, w', code, target)
    requires x in w.runs && x in w'.runs && w'.runs[x] == w.runs[x] && RunIsFine(w, x, code, target)
    ensures RunIsFine(w', x, code, target)
  {
    hide Charges, Refunds, SentParts, SentIds, Division;
    var r := w.runs[x];
    if r.answer.Some? {
      var i :| 0 <= i < |w.sent| && w.sent[i].code == r.code && w.sent[i].id == r.answer.value;
      assert w'.sent[i] == w.sent[i];
    }
    assert |SentIds(w.sent, code)| == |SentParts(w.sent, code)|;
  }

  lemma {:induction false} BeginKeeps(w: World, run: int, c: Code, t: int, code: Code, target: int)
    requires RefundInv(w, code, target) && Allowed(w, Begin(run, c, t), code, target)
    ensures RefundInv(Advance(w, Begin(run, c, t)), code, target)
  {
    if run !in w.runs {
      var w' := Advance(w, Begin(run, c, t));
      if c == code {
        var reading := Read(w.db.payments, code);
        var plan, n := Plan(w.db, code, target), |Refunds(w.db.payments, code)|;
        AllocateResumesExactly(reading, target, n);
        assert w'.runs[run].parts == plan[n..];
      }
      Carry(w, w', code, target, {run});
    }
  }

  lemma {:induction false} SendKeeps(w: World, run: int, minted: string, code: Code, target: int)
    requires RefundInv(w, code, target) && Allowed(w, Send(run, minted), code, target)
    ensures RefundInv(Advance(w, Send(run, minted)), code, target)
  {
    if Active(w, run) && w.runs[run].answer.None? {
      PlanShape(w.db, code, target);
      assert RunIsFine(w, run, code, target);
      if w.runs[run].code == code {
        SendOwnSlice(w, run, minted, code, target);
      } else {
        SendAnotherBookings(w, run, minted, code, target);
      }
    }
  }

  lemma {:induction false} SendOwnSlice(w: World, run: int, minted: string, code: Code, target: int)
    requires OnPlan(w, code, target) && IntentsDistinct(Plan(w.db, code, target))
    requires !IdUsed(w, minted) && !Blank(minted)
    requires Active(w, run) && w.runs[run].answer.None? && w.runs[run].code == code
    ensures OnPlan(Advance(w, Send(run, minted)), code, target)
  {
    var r, plan := w.runs[run], Plan(w.db, code, target);
    var at := Skipped(r, target) + r.next;
    assert RunIsFine(w, run, code, target);
    assert r.parts[r.next] == plan[at];
    MadeFinds(w.sent, code, plan[at]);
    if at < |SentParts(w.sent, code)| {
      SentIdsAreSent(w.sent, code, at);
      SendAgain(w, run, minted, code, target, at);
    } else {
      NotSentBefore(plan, at);
      SendFirstTime(w, Advance(w, Send(run, minted)), run, minted, code, target, at);
    }
  }

  /** The key is known: the refund already made is the answer. */
  lemma {:induction false} SendAgain(w: World, run: int, minted: string, code: Code, target: int, at: nat)
    requires OnPlan(w, code, target)
    requires Active(w, run) && w.runs[run].answer.None? && w.runs[run].code == code
    requires at == Skipped(w.runs[run], target) + w.runs[run].next < |SentParts(w.sent, code)|
    requires AlreadyMade(w.sent, code, w.runs[run].parts[w.runs[run].next]) == Some(SentIds(w.sent, code)[at])
    requires exists k ::
        0 <= k < |w.sent| && w.sent[k] == Transfer(code, SentParts(w.sent, code)[at], SentIds(w.sent, code)[at])
    ensures OnPlan(Advance(w, Send(run, minted)), code, target)
  {
    var w' := Advance(w, Send(run, minted));
    assert RunIsFine(w, run, code, target);
    hide Charges, Refunds, SentParts, SentIds, InStep, Division, AlreadyMade;
    assert WasSent(w.sent, code, SentIds(w.sent, code)[at]);
    assert w'.sent == w.sent && w'.db == w.db;
    Answered(w.db, w.sent, w.sent, w.runs[run], SentIds(w.sent, code)[at], Plan(w.db, code, target), target);
    hide RunFollows, Skipped, IdsDistinct;
    Carry(w, w', code, target, {run});
  }

  /** The processor's answer is the refund at the place in the plan the run has reached. */
  lemma {:induction false} Answered(db: Db, sent: seq<Transfer>, sent': seq<Transfer>, r: RefundRun, id: string,
        plan: seq<Part>, target: int)
    requires RunFollows(db, sent, r, plan, target) && r.next < |r.parts|
    requires var at := Skipped(r, target) + r.next; at < |SentParts(sent', r.code)| && SentIds(sent', r.code)[at] == id
    ensures RunFollows(db, sent', r.(answer := Some(id)), plan, target)
  {
    hide Refunds, SentParts, SentIds, Division;
  }

  lemma {:induction false} LastWasSent(sent: seq<Transfer>, t: Transfer)
    ensures WasSent(sent + [t], t.code, t.id)
  {
    assert (sent + [t])[|sent|] == t;
  }

  lemma {:induction false} SendFirstTime(w: World, w': World, run: int, minted: string, code: Code, target: int,
        at: nat)
    requires OnPlan(w, code, target) && !IdUsed(w, minted) && !Blank(minted)
    requires Active(w, run) && w.runs[run].code == code
    requires at == Skipped(w.runs[run], target) + w.runs[run].next
        == |SentParts(w.sent, code)| < |Plan(w.db, code, target)|
    requires w'.db == w.db && w'.runs == w.runs[run := w.runs[run].(answer := Some(minted))]
    requires w'.sent == w.sent + [Transfer(code, Plan(w.db, code, target)[at], minted)]
    ensures OnPlan(w', code, target)
  {
    hide Charges, Refunds, SentParts, SentIds, Division, InStep, IdsDistinct, NoneBlank, RunFollows, Skipped, IdUsed;
    hide HasRow, WasSent;
    var plan := Plan(w.db, code, target);
    var t := Transfer(code, plan[at], minted);
    assert RunIsFine(w, run, code, target);
    RecordsNeverLead(w.db, w.sent, code, plan);
    OnItsSlice(w.db, w.sent, w.runs[run], plan, target);
    FirstSendIsInStep(w, t, plan);
    LastWasSent(w.sent, t);
    Answered(w.db, w.sent, w'.sent, w.runs[run], minted, plan, target);
    Carry(w, w', code, target, {run});
  }

  lemma {:induction false} RecordsNeverLead(db: Db, sent: seq<Transfer>, code: Code, plan: seq<Part>)
    requires InStep(db, sent, code, plan)
    ensures |Refunds(db.payments, code)| <= |SentParts(sent, code)|
  {
  }

  lemma {:induction false} FirstSendIsInStep(w: World, t: Transfer, plan: seq<Part>)
    requires InStep(w.db, w.sent, t.code, plan) && IdsDistinct(w.sent) && NoneBlank(w.sent)
    requires |Refunds(w.db.payments, t.code)| == |SentParts(w.sent, t.code)| < |plan|
    requires t.part == plan[|SentParts(w.sent, t.code)|]
    requires !IdUsed(w, t.id) && !Blank(t.id)
    ensures InStep(w.db, w.sent + [t], t.code, plan) && IdsDistinct(w.sent + [t]) && NoneBlank(w.sent + [t])
    ensures SentIds(w.sent + [t], t.code) == SentIds(w.sent, t.code) + [t.id]
    ensures |SentParts(w.sent + [t], t.code)| == |SentParts(w.sent, t.code)| + 1
  {
    SentAppend(w.sent, t, t.code);
    MintedIsNew(w, t);
    SentOneMore(w.db, w.sent, t.code, plan, t.id);
  }

  lemma {:induction false} NotSentBefore(plan: seq<Part>, n: nat)
    requires IntentsDistinct(plan) && n < |plan|
    ensures plan[n] !in plan[..n]
  {
  }

  lemma {:induction false} SentOneMore(db: Db, sent: seq<Transfer>, code: Code, plan: seq<Part>, minted: string)
    requires InStep(db, sent, code, plan)
    requires |SentParts(sent, code)| == |Refunds(db.payments, code)| < |plan|
    requires !HasRow(db.payments, minted, Succeeded)
    ensures InStep(db, sent + [Transfer(code, plan[|SentParts(sent, code)|], minted)], code, plan)
  {
    var moved := |SentParts(sent, code)|;
    SentAppend(sent, Transfer(code, plan[moved], minted), code);
    assert plan[..moved + 1] == plan[..moved] + [plan[moved]];
  }

  lemma {:induction false} MintedIsNew(w: World, t: Transfer)
    requires IdsDistinct(w.sent) && !IdUsed(w, t.id) && !Blank(t.id)
    requires NoneBlank(w.sent)
    ensures IdsDistinct(w.sent + [t]) && NoneBlank(w.sent + [t]) && !HasRow(w.db.payments, t.id, Succeeded)
  {
  }

  lemma {:induction false} SendAnotherBookings(w: World, run: int, minted: string, code: Code, target: int)
    requires OnPlan(w, code, target) && !IdUsed(w, minted) && !Blank(minted)
    requires Active(w, run) && w.runs[run].answer.None? && w.runs[run].code != code
    ensures OnPlan(Advance(w, Send(run, minted)), code, target)
  {
    var w', r := Advance(w, Send(run, minted)), w.runs[run];
    var part := r.parts[r.next];
    if AlreadyMade(w.sent, r.code, part).None? {
      var t := Transfer(r.code, part, minted);
      SentAppend(w.sent, t, code);
      LastWasSent(w.sent, t);
      MintedIsNew(w, t);
      AnswerAnothers(w, w', run, minted, code, target);
    } else {
      MadeWasSent(w.sent, r.code, part);
      AnswerAnothers(w, w', run, AlreadyMade(w.sent, r.code, part).value, code, target);
    }
  }

  lemma {:induction false} AnswerAnothers(w: World, w': World, run: int, id: string, code: Code, target: int)
    requires OnPlan(w, code, target) && run in w.runs && w.runs[run].code != code
    requires w'.db == w.db && w'.runs == w.runs[run := w.runs[run].(answer := Some(id))]
    requires w.sent <= w'.sent && IdsDistinct(w'.sent) && NoneBlank(w'.sent) && WasSent(w'.sent, w.runs[run].code, id)
    requires SentParts(w'.sent, code) == SentParts(w.sent, code) && SentIds(w'.sent, code) == SentIds(w.sent, code)
    ensures OnPlan(w', code, target)
  {
    hide Charges, Refunds, SentParts, SentIds, Division, IdsDistinct, NoneBlank, RunFollows, WasSent, InStep, HasRow;
    hide Plan;
    SameSentSameStep(w.db, w.sent, w'.sent, code, Plan(w.db, code, target));
    Carry(w, w', code, target, {run});
  }

  lemma {:induction false} SameSentSameStep(db: Db, sent: seq<Transfer>, sent': seq<Transfer>, code: Code,
        plan: seq<Part>)
    requires InStep(db, sent, code, plan)
    requires SentParts(sent', code) == SentParts(sent, code) && SentIds(sent', code) == SentIds(sent, code)
    ensures InStep(db, sent', code, plan)
  {
  }

  lemma {:induction false} MadeWasSent(sent: seq<Transfer>, code: Code, part: Part)
    requires AlreadyMade(sent, code, part).Some?
    ensures WasSent(sent, code, AlreadyMade(sent, code, part).value)
  {
    var last := sent[|sent| - 1];
    if !(last.code == code && last.part == part) {
      var init := sent[..|sent| - 1];
      MadeWasSent(init, code, part);
      var i :| 0 <= i < |init| && init[i].code == code && init[i].id == AlreadyMade(init, code, part).value;
      assert sent[i] == init[i];
    } else {
      assert sent[|sent| - 1].id == last.id;
    }
  }

  /** Recording a slice adds its row, or finds it there and changes nothing at all. */
  lemma {:induction false} SliceRecorded(db: Db, c: Charge)
    requires c.code in db.bookings && Invalid(c).None? && Blank(c.event)
    ensures RowForSlice(db, RefundStep(db, c).0, c.code, Part("", c.amount), c.stripeId)
  {
  }

  lemma {:induction false} RowAddedOnlyThere(rows: seq<Payment>, p: Payment, id: string)
    ensures HasRow(rows + [p], id, Succeeded)
        <==> HasRow(rows, id, Succeeded) || (p.stripeId == id && p.outcome == Succeeded)
  {
    var rows' := rows + [p];
    assert rows'[|rows|] == p;
    if HasRow(rows, id, Succeeded) {
      var i :| 0 <= i < |rows| && rows[i].stripeId == id && rows[i].outcome == Succeeded;
      assert rows'[i] == rows[i];
    }
  }

  lemma {:induction false} RecordKeeps(w: World, run: int, code: Code, target: int)
    requires RefundInv(w, code, target)
    ensures RefundInv(Advance(w, RecordSlice(run)), code, target)
  {
    if Active(w, run) && w.runs[run].answer.Some? {
      var r := w.runs[run];
      var c := RefundCharge(r.code, r.parts[r.next], r.answer.value);
      ProtocolSteps.RefundKeeps(w.db, c);
      assert RunIsFine(w, run, code, target);
      AnswerNotBlank(w, run);
      PlanShape(w.db, code, target);
      if r.code == code {
        assert r.parts[r.next] == Plan(w.db, code, target)[Skipped(r, target) + r.next];
        SliceRecorded(w.db, c);
        RecordOwnSlice(w, Advance(w, RecordSlice(run)), run, code, target);
      } else {
        RefundLedger(w.db, c);
        RecordAnotherBookings(w, run, code, target);
      }
    }
  }

  lemma {:induction false} AnswerNotBlank(w: World, run: int)
    requires NoneBlank(w.sent) && run in w.runs && w.runs[run].answer.Some?
    requires WasSent(w.sent, w.runs[run].code, w.runs[run].answer.value)
    ensures !Blank(w.runs[run].answer.value)
  {
    var i :| 0 <= i < |w.sent| && w.sent[i].code == w.runs[run].code && w.sent[i].id == w.runs[run].answer.value;
  }

  /** What the record of a slice does to the ledger, given the id it bears. */
  ghost predicate RowForSlice(db: Db, db': Db, code: Code, part: Part, id: string) {
    db'.payments ==
      if HasRow(db.payments, id, Succeeded) then db.payments
      else db.payments + [Payment(code, id, Refund, part.amount, Succeeded)]
  }

  lemma {:induction false} RecordOwnSlice(w: World, w': World, run: int, code: Code, target: int)
    requires OnPlan(w, code, target)
    requires Active(w, run) && w.runs[run].answer.Some? && w.runs[run].code == code
    requires var r := w.runs[run];
      && w'.sent == w.sent && w'.runs == w.runs[run := r.(next := r.next + 1, answer := None)]
      && RowForSlice(w.db, w'.db, code, r.parts[r.next], r.answer.value)
    ensures OnPlan(w', code, target)
  {
    hide Charges, Refunds, SentParts, SentIds, InStep, Division, RunFollows, Skipped, IdsDistinct, WasSent, HasRow;
    hide NoneBlank, RowForSlice;
    var r, plan := w.runs[run], Plan(w.db, code, target);
    assert RunIsFine(w, run, code, target);
    var at := Skipped(r, target) + r.next;
    OnItsSlice(w.db, w.sent, r, plan, target);
    RecordOwnRow(w.db, w'.db, w.sent, code, plan, at);
    Recorded(w.db, w'.db, w.sent, r, plan, target);
    Carry(w, w', code, target, {run});
  }

  lemma {:induction false} OnItsSlice(db: Db, sent: seq<Transfer>, r: RefundRun, plan: seq<Part>, target: int)
    requires RunFollows(db, sent, r, plan, target) && r.next < |r.parts|
    ensures var at := Skipped(r, target) + r.next;
      && 0 <= at < |plan| && at <= |Refunds(db.payments, r.code)| && r.parts[r.next] == plan[at]
      && (r.answer.Some? ==> at < |SentIds(sent, r.code)| && r.answer.value == SentIds(sent, r.code)[at])
  {
    hide Charges, Refunds, SentParts, SentIds, Division;
  }

  lemma {:induction false} Recorded(db: Db, db': Db, sent: seq<Transfer>, r: RefundRun, plan: seq<Part>, target: int)
    requires RunFollows(db, sent, r, plan, target) && r.next < |r.parts|
    requires |Refunds(db'.payments, r.code)| > Skipped(r, target) + r.next
    requires Charges(db'.payments, r.code) == Charges(db.payments, r.code)
    ensures RunFollows(db', sent, r.(next := r.next + 1, answer := None), plan, target)
  {
    hide Charges, Refunds, SentParts, SentIds, Division;
  }

  lemma {:induction false} RecordOwnRow(db: Db, db': Db, sent: seq<Transfer>, code: Code, plan: seq<Part>, at: nat)
    requires InStep(db, sent, code, plan) && IdsDistinct(sent)
    requires at <= |Refunds(db.payments, code)| && at < |SentIds(sent, code)|
    requires RowForSlice(db, db', code, plan[at], SentIds(sent, code)[at])
    ensures InStep(db', sent, code, plan)
    ensures |Refunds(db'.payments, code)| >= at + 1 && |Refunds(db'.payments, code)| >= |Refunds(db.payments, code)|
    ensures Charges(db'.payments, code) == Charges(db.payments, code)
  {
    if at == |Refunds(db.payments, code)| {
      RecordedOneMore(db, db', sent, code, plan);
    } else {
      SameLedgerSameStep(db, db', sent, code, plan);
    }
  }

  lemma {:induction false} SameLedgerSameStep(db: Db, db': Db, sent: seq<Transfer>, code: Code, plan: seq<Part>)
    requires InStep(db, sent, code, plan) && db'.payments == db.payments
    ensures InStep(db', sent, code, plan)
  {
  }

  lemma {:induction false} RecordedOneMore(db: Db, db': Db, sent: seq<Transfer>, code: Code, plan: seq<Part>)
    requires InStep(db, sent, code, plan) && IdsDistinct(sent)
    requires |Refunds(db.payments, code)| < |SentIds(sent, code)|
    requires var n := |Refunds(db.payments, code)|;
      db'.payments == db.payments + [Payment(code, SentIds(sent, code)[n], Refund, plan[n].amount, Succeeded)]
    ensures InStep(db', sent, code, plan)
    ensures |Refunds(db'.payments, code)| == |Refunds(db.payments, code)| + 1
    ensures Charges(db'.payments, code) == Charges(db.payments, code)
  {
    var n := |Refunds(db.payments, code)|;
    hide Refunds, Charges, SentParts, SentIds, HasRow;
    var row := Payment(code, SentIds(sent, code)[n], Refund, plan[n].amount, Succeeded);
    AppendRow(db.payments, row, code);
    assert Amounts(plan[..n + 1]) == Amounts(plan[..n]) + [plan[n].amount];
    SentIdsDistinct(sent, code);
    forall i | 0 <= i < |SentIds(sent, code)|
      ensures HasRow(db'.payments, SentIds(sent, code)[i], Succeeded) <==> i < n + 1
    {
      RowAddedOnlyThere(db.payments, row, SentIds(sent, code)[i]);
    }
  }

  lemma {:induction false} RecordAnotherBookings(w: World, run: int, code: Code, target: int)
    requires OnPlan(w, code, target)
    requires Active(w, run) && w.runs[run].answer.Some? && w.runs[run].code != code
    requires var r := w.runs[run]; var db' := Advance(w, RecordSlice(run)).db;
      || db'.payments == w.db.payments
      || db'.payments == w.db.payments + [Payment(r.code, r.answer.value, Refund, r.parts[r.next].amount, Succeeded)]
    ensures OnPlan(Advance(w, RecordSlice(run)), code, target)
  {
    var w', r := Advance(w, RecordSlice(run)), w.runs[run];
    assert RunIsFine(w, run, code, target);
    if w'.db.payments != w.db.payments {
      forall i | 0 <= i < |SentIds(w.sent, code)| ensures SentIds(w.sent, code)[i] != r.answer.value {
        AnswerOfAnother(w, run, code, i);
      }
      RowOfAnother(w.db, w'.db, w.sent, code, Plan(w.db, code, target),
        Payment(r.code, r.answer.value, Refund, r.parts[r.next].amount, Succeeded));
    } else {
      SameLedgerSameStep(w.db, w'.db, w.sent, code, Plan(w.db, code, target));
    }
    Carry(w, w', code, target, {run});
  }

  lemma {:induction false} RefundLedger(db: Db, c: Charge)
    ensures var db' := RefundStep(db, c).0;
      || db'.payments == db.payments
      || db'.payments == db.payments + [Payment(c.code, c.stripeId, Refund, c.amount, Succeeded)]
  {
  }

  /** A ledger row that is neither a charge nor a refund of this booking. */
  lemma {:induction false} RowOfAnother(db: Db, db': Db, sent: seq<Transfer>, code: Code, plan: seq<Part>, row: Payment)
    requires InStep(db, sent, code, plan) && db'.payments == db.payments + [row]
    requires !IsCharge(row, code) && !IsRefund(row, code)
    requires forall i :: 0 <= i < |SentIds(sent, code)| ==> SentIds(sent, code)[i] != row.stripeId
    ensures InStep(db', sent, code, plan)
    ensures Refunds(db'.payments, code) == Refunds(db.payments, code)
    ensures Charges(db'.payments, code) == Charges(db.payments, code)
  {
    AppendRow(db.payments, row, code);
    forall i | 0 <= i < |SentIds(sent, code)|
      ensures HasRow(db'.payments, SentIds(sent, code)[i], Succeeded)
          <==> HasRow(db.payments, SentIds(sent, code)[i], Succeeded)
    {
      RowAddedOnlyThere(db.payments, row, SentIds(sent, code)[i]);
    }
  }

  /** Ids are minted once, so another booking's refund never bears one of ours. */
  lemma {:induction false} AnswerOfAnother(w: World, run: int, code: Code, i: nat)
    requires IdsDistinct(w.sent) && run in w.runs && w.runs[run].answer.Some? && w.runs[run].code != code
    requires WasSent(w.sent, w.runs[run].code, w.runs[run].answer.value)
    requires i < |SentIds(w.sent, code)|
    ensures SentIds(w.sent, code)[i] != w.runs[run].answer.value
  {
    var j :| 0 <= j < |w.sent| && w.sent[j].code == w.runs[run].code && w.sent[j].id == w.runs[run].answer.value;
    SentIdsAreSent(w.sent, code, i);
    var k :| 0 <= k < |w.sent| && w.sent[k] == Transfer(code, SentParts(w.sent, code)[i], SentIds(w.sent, code)[i]);
    assert k != j;
  }

  /** The one ledger row an action of the rest of the protocol may add. */
  function RowOf(c: Charge, a: Action): Payment {
    if a.DeliverRefund? then Payment(c.code, c.stripeId, Refund, c.amount, Succeeded)
    else Payment(c.code, c.stripeId, c.kind, c.amount, if a.DeliverCharge? then Succeeded else Failed)
  }

  lemma {:induction false} NextLedger(db: Db, a: Action)
    requires Next(db, a).payments != db.payments
    ensures Reported(a).Some? && Next(db, a).payments == db.payments + [RowOf(Reported(a).value, a)]
    ensures Invalid(Reported(a).value).None?
  {
    hide ChargeStep, HasRow, CreateStep, CancelStep, ExpireStep, WarnStep, UncollectableStep, BlockStep, UnblockStep;
    hide Release;
    if a.DeliverCharge? {
      ChargeLedger(db, a.charge);
    } else if !a.DeliverFailure? && !a.DeliverRefund? {
      QuietSteps(db, a);
    }
  }

  lemma {:induction false} QuietSteps(db: Db, a: Action)
    requires Reported(a).None?
    ensures Next(db, a).payments == db.payments
  {
  }

  lemma {:induction false} ChargeLedger(db: Db, c: Charge)
    requires ChargeStep(db, c).0.payments != db.payments
    ensures ChargeStep(db, c).0.payments == db.payments + [ProtocolSteps.ChargeRow(c)] && Invalid(c).None?
  {
    ProtocolRuns.SettlingKeepsTheMoney(TakeMoney(NoteEvent(db, c), c), c, db.bookings[c.code]);
    hide SettleStay, HasRow;
  }

  lemma {:induction false} ElsewhereKeeps(w: World, a: Action, code: Code, target: int)
    requires RefundInv(w, code, target) && Allowed(w, Elsewhere(a), code, target)
    ensures RefundInv(Advance(w, Elsewhere(a)), code, target)
  {
    var w', plan := Advance(w, Elsewhere(a)), Plan(w.db, code, target);
    ProtocolSteps.EveryStep(w.db, a);
    if w'.db.payments == w.db.payments {
      SameLedgerSameStep(w.db, w'.db, w.sent, code, plan);
    } else {
      NextLedger(w.db, a);
      var row := RowOf(Reported(a).value, a);
      forall i | 0 <= i < |SentIds(w.sent, code)| ensures SentIds(w.sent, code)[i] != row.stripeId {
        SentIdsAreSent(w.sent, code, i);
      }
      if IsCharge(row, code) {
        PaymentLands(w.db, w'.db, w.sent, code, target, row);
      } else {
        RowOfAnother(w.db, w'.db, w.sent, code, plan, row);
      }
    }
    Carry(w, w', code, target, {});
  }

  /** A payment lands while a refund is under way: the plan is only extended. */
  lemma {:induction false} PaymentLands(db: Db, db': Db, sent: seq<Transfer>, code: Code, target: int, row: Payment)
    requires Inv(db) && target >= 0 && InStep(db, sent, code, Plan(db, code, target))
    requires IsCharge(row, code) && row.amount > 0 && db'.payments == db.payments + [row]
    requires forall i :: 0 <= i < |SentIds(sent, code)| ==> SentIds(sent, code)[i] != row.stripeId
    ensures Plan(db, code, target) <= Plan(db', code, target)
    ensures InStep(db', sent, code, Plan(db', code, target))
    ensures Refunds(db'.payments, code) == Refunds(db.payments, code)
    ensures Charges(db.payments, code) <= Charges(db'.payments, code)
  {
    var plan, plan' := Plan(db, code, target), Plan(db', code, target);
    AppendRow(db.payments, row, code);
    ChargesAreDistinctIntents(db.payments, code);
    DivisionExtends(Charges(db.payments, code), [Part(row.stripeId, row.amount)], target);
    forall n | 0 <= n <= |plan| ensures plan'[..n] == plan[..n] {
    }
    forall i | 0 <= i < |SentIds(sent, code)|
      ensures HasRow(db'.payments, SentIds(sent, code)[i], Succeeded)
          <==> HasRow(db.payments, SentIds(sent, code)[i], Succeeded)
    {
      RowAddedOnlyThere(db.payments, row, SentIds(sent, code)[i]);
    }
  }

  lemma {:induction false} EveryStepKeeps(w: World, s: Step, code: Code, target: int)
    requires RefundInv(w, code, target) && Allowed(w, s, code, target)
    ensures RefundInv(Advance(w, s), code, target)
  {
    match s
    case Begin(run, c, t) => BeginKeeps(w, run, c, t, code, target);
    case Send(run, minted) => SendKeeps(w, run, minted, code, target);
    case RecordSlice(run) => RecordKeeps(w, run, code, target);
    case Die(run) => Carry(w, Advance(w, s), code, target, {run});
    case Elsewhere(a) => ElsewhereKeeps(w, a, code, target);
  }

  lemma {:induction false} EveryWorldRun(w: World, steps: seq<Step>, code: Code, target: int)
    requires RefundInv(w, code, target) && AllAllowed(w, steps, code, target)
    ensures RefundInv(RunWorld(w, steps), code, target)
  {
    if |steps| > 0 {
      var init, last := steps[..|steps| - 1], steps[|steps| - 1];
      forall i | 0 <= i < |init| ensures Allowed(RunWorld(w, init[..i]), init[i], code, target) {
        assert init[..i] == steps[..i];
      }
      EveryWorldRun(w, init, code, target);
      assert Allowed(RunWorld(w, steps[..|steps| - 1]), steps[|steps| - 1], code, target);
      EveryStepKeeps(RunWorld(w, init), last, code, target);
    }
  }

  // ---------------------------------------------------------------- what it means

  /** A cancelled booking before any refund of it, with no job running for it yet. */
  ghost predicate NothingRefunded(w: World, code: Code) {
    && Inv(w.db) && code in w.db.bookings
    && IdsDistinct(w.sent) && NoneBlank(w.sent)
    && SentParts(w.sent, code) == [] && Refunds(w.db.payments, code) == []
    && forall run :: run in w.runs ==>
         && w.runs[run].code != code
         && (w.runs[run].answer.Some? ==> WasSent(w.sent, w.runs[run].code, w.runs[run].answer.value))
  }

  lemma {:induction false} FromNothing(w: World, code: Code, target: int)
    requires NothingRefunded(w, code) && target >= 0
    ensures RefundInv(w, code, target)
  {
    var plan := Plan(w.db, code, target);
    assert plan[..0] == [] && Amounts(plan[..0]) == [];
  }

  /** What the processor has moved for a booking, over all runs and all crashes. */
  function Moved(w: World, code: Code): int {
    Total(SentParts(w.sent, code))
  }

  function Collected(w: World, code: Code): int {
    Total(Charges(w.db.payments, code))
  }

  /** However runs overlap, die and resume, the processor never moves more than the
      target or than was collected, never more out of an intent than it took, and
      nothing is recorded that was not moved. */
  lemma {:induction false} NeverMovesTooMuch(w: World, steps: seq<Step>, code: Code, target: int)
    requires NothingRefunded(w, code) && target >= 0 && AllAllowed(w, steps, code, target)
    ensures var end := RunWorld(w, steps);
      && Moved(end, code) <= Owed(Charges(end.db.payments, code), target) <= Collected(end, code)
      && Sum(Refunds(end.db.payments, code)) <= Moved(end, code)
      && IntentsDistinct(SentParts(end.sent, code))
      && |SentParts(end.sent, code)| <= |Charges(end.db.payments, code)|
      && forall i :: 0 <= i < |SentParts(end.sent, code)| ==>
           && SentParts(end.sent, code)[i].intent == Charges(end.db.payments, code)[i].intent
           && SentParts(end.sent, code)[i].amount <= Charges(end.db.payments, code)[i].amount
  {
    FromNothing(w, code, target);
    EveryWorldRun(w, steps, code, target);
    var end := RunWorld(w, steps);
    hide Inv, Charges, Refunds, SentParts, SentIds, Division, RunWorld, AllAllowed, NoneBlank, IdsDistinct;
    var plan := Plan(end.db, code, target);
    var moved, recorded := |SentParts(end.sent, code)|, |Refunds(end.db.payments, code)|;
    PlanShape(end.db, code, target);
    DivisionTotal(Charges(end.db.payments, code), target);
    PrefixTotal(plan, moved);
    PrefixTotal(plan[..moved], recorded);
    assert plan[..moved][..recorded] == plan[..recorded];
  }

  /** A run that reached the end of its list leaves the ledger with refunds of at least
      what was owed on the payments it read: of exactly the target when those payments
      cover it, whatever lands later, and of exactly what is owed now when nothing has
      landed since. */
  lemma {:induction false} FinishedRunRecordsWhatIsOwed(w: World, steps: seq<Step>, code: Code, target: int, run: int)
    requires NothingRefunded(w, code) && target >= 0 && AllAllowed(w, steps, code, target)
    requires var end := RunWorld(w, steps);
      run in end.runs && end.runs[run].code == code && end.runs[run].next == |end.runs[run].parts|
    ensures var end := RunWorld(w, steps); var r := end.runs[run];
      && Sum(Refunds(end.db.payments, code)) >= Total(Division(r.reading.charges, target))
      && (0 < target <= Total(r.reading.charges) ==> Sum(Refunds(end.db.payments, code)) == target)
      && (r.reading.charges == Charges(end.db.payments, code) ==>
           Sum(Refunds(end.db.payments, code)) == Owed(Charges(end.db.payments, code), target) == Moved(end, code))
  {
    FromNothing(w, code, target);
    EveryWorldRun(w, steps, code, target);
    var end := RunWorld(w, steps);
    hide Inv, Charges, Refunds, SentParts, SentIds, Division, Owed, RunWorld, AllAllowed, RunIsFine, InStep;
    PlanShape(end.db, code, target);
    DivisionTotal(Charges(end.db.payments, code), target);
    assert RunIsFine(end, run, code, target);
    RunAtItsEnd(end, run, code, target);
    if 0 < target <= Total(end.runs[run].reading.charges) {
      NeverMovesTooMuch(w, steps, code, target);
      CoveredTarget(end.runs[run].reading.charges, Charges(end.db.payments, code), target);
    }
  }

  lemma {:induction false} CoveredTarget(first: seq<Part>, all: seq<Part>, target: int)
    requires first <= all && PartsPositive(all) && 0 < target <= Total(first)
    ensures Total(Division(first, target)) == Owed(all, target) == target
  {
    TotalConcat(first, all[|first|..]);
    assert first + all[|first|..] == all;
    TotalPositive(all[|first|..]);
    DivisionTotal(first, target);
  }

  lemma {:induction false} RunAtItsEnd(w: World, run: int, code: Code, target: int)
    requires run in w.runs && w.runs[run].code == code && w.runs[run].next == |w.runs[run].parts|
    requires InStep(w.db, w.sent, code, Plan(w.db, code, target)) && RunIsFine(w, run, code, target)
    requires PartsPositive(Plan(w.db, code, target))
    ensures var own := Division(w.runs[run].reading.charges, target);
      && Sum(Refunds(w.db.payments, code)) >= Total(own)
      && (own == Plan(w.db, code, target) ==> Sum(Refunds(w.db.payments, code)) == Moved(w, code) == Total(own))
  {
    hide Charges, Refunds, SentParts, SentIds, Division, HasRow, WasSent;
    var plan, own := Plan(w.db, code, target), Division(w.runs[run].reading.charges, target);
    StretchCovers(plan, own, |Refunds(w.db.payments, code)|);
  }

  lemma {:induction false} StretchCovers(plan: seq<Part>, own: seq<Part>, n: nat)
    requires PartsPositive(plan) && own <= plan && |own| <= n <= |plan|
    ensures Total(plan[..n]) >= Total(own)
    ensures own == plan ==> plan[..n] == plan
  {
    PrefixTotal(plan[..n], |own|);
    assert plan[..n][..|own|] == own;
  }

  /** The penalty-free path, end to end: a charge answered RefundDue names its gross,
      and a job for everything that finishes has recorded exactly that much back. */
  lemma {:induction false} RefundDueComesBackWhole(w: World, steps: seq<Step>, code: Code, run: int)
    requires NothingRefunded(w, code) && AllAllowed(w, steps, code, 0)
    requires var end := RunWorld(w, steps);
      && run in end.runs && end.runs[run].code == code && end.runs[run].next == |end.runs[run].parts|
      && end.runs[run].reading.charges == Charges(end.db.payments, code)
    ensures var end := RunWorld(w, steps);
      code in end.db.bookings && Sum(Refunds(end.db.payments, code)) == end.db.bookings[code].paid
  {
    FinishedRunRecordsWhatIsOwed(w, steps, code, 0, run);
    FromNothing(w, code, 0);
    EveryWorldRun(w, steps, code, 0);
    assert BookingOk(RunWorld(w, steps).db, code);
  }
}
