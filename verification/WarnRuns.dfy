/** The warning the day before the balance is taken: who is listed, who is told, and
    how often (internal/payments/balance.go and payments.go). */
module WarnRuns {
  import opened Common
  import opened Ledger
  import opened Inn
  import opened Protocol
  import ProtocolSteps
  import ProtocolRuns
  import Store
  import Terms

  function Warnings(outbox: seq<Message>, code: Code): nat {
    if |outbox| == 0 then 0
    else
      Warnings(outbox[..|outbox| - 1], code)
      + if outbox[|outbox| - 1].BalanceWarning? && outbox[|outbox| - 1].code == code then 1 else 0
  }

  /** Nothing here warns anybody, and no mark is set or taken off. */
  ghost predicate Quiet(db: Db, db': Db, code: Code) {
    && db.outbox <= db'.outbox
    && (forall i :: |db.outbox| <= i < |db'.outbox| ==> !db'.outbox[i].BalanceWarning?)
    && (code in db.bookings ==> code in db'.bookings && db'.bookings[code].warned == db.bookings[code].warned)
    && (code !in db.bookings && code in db'.bookings ==> !db'.bookings[code].warned)
  }

  lemma {:induction false} QuietKeepsCount(outbox: seq<Message>, later: seq<Message>, code: Code)
    requires outbox <= later && forall i :: |outbox| <= i < |later| ==> !later[i].BalanceWarning?
    ensures Warnings(later, code) == Warnings(outbox, code)
    decreases |later|
  {
    if |later| == |outbox| {
      assert later == outbox;
    } else {
      QuietKeepsCount(outbox, later[..|later| - 1], code);
    }
  }

  lemma {:induction false} SettlingIsQuiet(db: Db, c: Charge, found: Booking, code: Code)
    requires c.code in db.bookings
    ensures Quiet(db, SettleStay(db, c, found).0, code)
  {
    hide SecureRoom, Release;
  }

  lemma {:induction false} ChargeIsQuiet(db: Db, c: Charge, code: Code)
    ensures Quiet(db, ChargeStep(db, c).0, code)
  {
    hide SettleStay, HasRow, Shortfall;
    if c.code in db.bookings {
      SettlingIsQuiet(TakeMoney(NoteEvent(db, c), c), c, db.bookings[c.code], code);
    }
  }

  lemma {:induction false} DeliveriesAreQuiet(db: Db, c: Charge, code: Code)
    ensures Quiet(db, FailureStep(db, c).0, code) && Quiet(db, RefundStep(db, c).0, code)
  {
    hide HasRow, Release;
  }

  lemma {:induction false} CreateIsQuiet(db: Db, r: Request, code: Code)
    ensures Quiet(db, CreateStep(db, r).0, code)
  {
  }

  lemma {:induction false} CancelIsQuiet(db: Db, cancelled: Code, on: int, code: Code)
    ensures Quiet(db, CancelStep(db, cancelled, on).0, code)
  {
    hide Release;
  }

  lemma {:induction false} OtherActionsAreQuiet(db: Db, a: Action, code: Code)
    requires !a.WarnBalance? && !a.Create? && !a.Cancel? && !a.DeliverCharge? && !a.DeliverFailure? && !a.DeliverRefund?
    ensures Quiet(db, Next(db, a), code)
  {
  }

  lemma {:induction false} EveryOtherActionIsQuiet(db: Db, a: Action, code: Code)
    requires !a.WarnBalance?
    ensures Quiet(db, Next(db, a), code)
  {
    hide ChargeStep, FailureStep, RefundStep, CreateStep, CancelStep, Quiet;
    match a
    case DeliverCharge(c) => ChargeIsQuiet(db, c, code);
    case DeliverFailure(c) => DeliveriesAreQuiet(db, c, code);
    case DeliverRefund(c) => DeliveriesAreQuiet(db, c, code);
    case Create(r) => CreateIsQuiet(db, r, code);
    case Cancel(cancelled, on) => CancelIsQuiet(db, cancelled, on, code);
    case _ => OtherActionsAreQuiet(db, a, code);
  }

  lemma {:induction false} WarningCounts(db: Db, warned: Code, amount: int, code: Code)
    requires warned in db.bookings
    ensures var db' := WarnStep(db, warned, amount);
      && Warnings(db'.outbox, code) == Warnings(db.outbox, code) + (if code == warned then 1 else 0)
      && db'.bookings.Keys == db.bookings.Keys
      && (code in db.bookings ==>
           db'.bookings[code] == db.bookings[code].(warned := db.bookings[code].warned || code == warned))
  {
    assert (db.outbox + [BalanceWarning(warned, amount)])[..|db.outbox|] == db.outbox;
  }

  // ---------------------------------------------------------------- batches

  /** One line of the list a batch read: whom to warn, and of how much. */
  datatype Entry = Entry(code: Code, amount: int)

  /** `batches` is what each batch still has to do. A batch that has finished or died
      has nothing, and its number is not used again. */
  datatype World = World(db: Db, batches: map<int, seq<Entry>>)

  datatype Step =
    | ReadList(batch: int, on: int, due: seq<Code>)
    | WarnNext(batch: int, commits: bool)
    | Die(batch: int)
    | Elsewhere(action: Action)

  function Entries(db: Db, due: seq<Code>): seq<Entry>
    requires forall i :: 0 <= i < |due| ==> due[i] in db.bookings
  {
    seq(|due|, i requires 0 <= i < |due| => Entry(due[i], db.bookings[due[i]].total - db.bookings[due[i]].paid))
  }

  /** A list is read in one statement; each guest on it is warned in a transaction of
      their own, which commits or fails; and everything else goes on in between. */
  ghost function Advance(w: World, s: Step): World {
    match s
    case ReadList(b, on, due) =>
      if b in w.batches || !IsAnswer(w.db, WarningsDue, on, due) then w
      else w.(batches := w.batches[b := Entries(w.db, due)])
    case WarnNext(b, commits) =>
      if b !in w.batches || w.batches[b] == [] then w
      else
        var next := w.batches[b][0];
        w.(db := if commits then WarnStep(w.db, next.code, next.amount) else w.db,
          batches := w.batches[b := w.batches[b][1..]])
    case Die(b) => if b in w.batches then w.(batches := w.batches[b := []]) else w
    case Elsewhere(a) => if a.WarnBalance? then w else w.(db := Next(w.db, a))
  }

  ghost function Run(w: World, steps: seq<Step>): World {
    if |steps| == 0 then w else Advance(Run(w, steps[..|steps| - 1]), steps[|steps| - 1])
  }

  // ---------------------------------------------------------------- who holds whom

  /** This batch has this guest still to warn. */
  ghost predicate Holds(w: World, b: int, code: Code) {
    b in w.batches && exists i :: 0 <= i < |w.batches[b]| && w.batches[b][i].code == code
  }

  ghost predicate DistinctEntries(entries: seq<Entry>) {
    forall i, j :: 0 <= i < j < |entries| ==> entries[i].code != entries[j].code
  }

  ghost predicate BatchOk(w: World, b: int)
    requires b in w.batches
  {
    && DistinctEntries(w.batches[b])
    && forall i :: 0 <= i < |w.batches[b]| ==> w.batches[b][i].code in w.db.bookings
  }

  ghost predicate Sound(w: World) {
    forall b {:trigger BatchOk(w, b)} :: b in w.batches ==> BatchOk(w, b)
  }

  predicate Marked(db: Db, code: Code) {
    code in db.bookings && db.bookings[code].warned
  }

  /** This step warns this guest. */
  predicate Warns(w: World, s: Step, code: Code) {
    s.WarnNext? && s.commits && s.batch in w.batches && w.batches[s.batch] != [] && w.batches[s.batch][0].code == code
  }

  /** This step is a batch reading a list with this guest on it. */
  ghost predicate Reads(w: World, s: Step, code: Code) {
    s.ReadList? && s.batch !in w.batches && Holds(Advance(w, s), s.batch, code)
  }

  lemma {:induction false} StepKeepsBookings(w: World, s: Step, code: Code)
    requires code in w.db.bookings
    ensures code in Advance(w, s).db.bookings
  {
    hide Next, IsAnswer;
    if s.Elsewhere? && !s.action.WarnBalance? {
      EveryOtherActionIsQuiet(w.db, s.action, code);
    }
  }

  lemma {:induction false} StepIsSound(w: World, s: Step)
    requires Sound(w)
    ensures Sound(Advance(w, s))
  {
    var w' := Advance(w, s);
    forall b | b in w'.batches ensures BatchOk(w', b) {
      if b in w.batches {
        assert BatchOk(w, b);
        forall i | 0 <= i < |w.batches[b]| ensures w.batches[b][i].code in w'.db.bookings {
          StepKeepsBookings(w, s, w.batches[b][i].code);
        }
      }
      hide Next;
    }
  }

  /** A guest is told by the steps that warn them and by no others, and marked by them. */
  lemma {:induction false} StepTells(w: World, s: Step, code: Code)
    requires Sound(w)
    ensures var w' := Advance(w, s);
      && Warnings(w'.db.outbox, code) == Warnings(w.db.outbox, code) + (if Warns(w, s, code) then 1 else 0)
      && (Marked(w'.db, code) <==> Marked(w.db, code) || Warns(w, s, code))
  {
    hide Next, IsAnswer, WarnStep, Quiet;
    if s.WarnNext? && s.batch in w.batches && w.batches[s.batch] != [] {
      assert BatchOk(w, s.batch);
      WarningCounts(w.db, w.batches[s.batch][0].code, w.batches[s.batch][0].amount, code);
    } else if s.Elsewhere? && !s.action.WarnBalance? {
      ElsewhereTellsNobody(w.db, s.action, code);
    }
  }

  lemma {:induction false} ElsewhereTellsNobody(db: Db, a: Action, code: Code)
    requires !a.WarnBalance?
    ensures Warnings(Next(db, a).outbox, code) == Warnings(db.outbox, code)
    ensures Marked(Next(db, a), code) <==> Marked(db, code)
  {
    hide Next;
    EveryOtherActionIsQuiet(db, a, code);
    QuietKeepsCount(db.outbox, Next(db, a).outbox, code);
  }

  /** A batch only ever lets go of guests, and of one it warns for good. */
  lemma {:induction false} StepLetsGo(w: World, s: Step, b: int, code: Code)
    requires Sound(w) && b in w.batches
    ensures b in Advance(w, s).batches
    ensures Holds(Advance(w, s), b, code) ==> Holds(w, b, code)
    ensures Warns(w, s, code) && s.batch == b ==> Holds(w, b, code) && !Holds(Advance(w, s), b, code)
  {
    hide Next, IsAnswer, WarnStep;
    assert BatchOk(w, b);
    var w' := Advance(w, s);
    if s.WarnNext? && s.batch == b && w.batches[b] != [] {
      assert w'.batches[b] == w.batches[b][1..];
      forall i | 0 <= i < |w'.batches[b]| ensures w'.batches[b][i] == w.batches[b][i + 1] {
      }
    }
  }

  /** Reading lists nobody who is marked. */
  lemma {:induction false} ReadingSkipsTheMarked(w: World, s: Step, code: Code)
    requires Reads(w, s, code)
    ensures !Marked(w.db, code)
  {
    var i :| 0 <= i < |Advance(w, s).batches[s.batch]| && Advance(w, s).batches[s.batch][i].code == code;
    assert s.due[i] == code;
  }

  // ---------------------------------------------------------------- along a run

  ghost function At(w: World, steps: seq<Step>, k: nat): World
    requires k <= |steps|
  {
    Run(w, steps[..k])
  }

  lemma {:induction false} AtNext(w: World, steps: seq<Step>, k: nat)
    requires k < |steps|
    ensures At(w, steps, k + 1) == Advance(At(w, steps, k), steps[k])
  {
    assert steps[..k + 1][..k] == steps[..k];
  }

  lemma {:induction false} AlwaysSound(w: World, steps: seq<Step>, k: nat)
    requires Sound(w) && k <= |steps|
    ensures Sound(At(w, steps, k))
  {
    hide Sound, Advance;
    if k == 0 {
      assert steps[..0] == [];
    } else {
      AlwaysSound(w, steps, k - 1);
      AtNext(w, steps, k - 1);
      StepIsSound(At(w, steps, k - 1), steps[k - 1]);
    }
  }

  lemma {:induction false} HeldSince(w: World, steps: seq<Step>, i: nat, k: nat, b: int, code: Code)
    requires Sound(w) && i <= k <= |steps| && b in At(w, steps, i).batches
    ensures b in At(w, steps, k).batches
    ensures Holds(At(w, steps, k), b, code) ==> Holds(At(w, steps, i), b, code)
    decreases k
  {
    hide Sound, Advance, Holds;
    if i < k {
      HeldSince(w, steps, i, k - 1, b, code);
      AlwaysSound(w, steps, k - 1);
      AtNext(w, steps, k - 1);
      StepLetsGo(At(w, steps, k - 1), steps[k - 1], b, code);
    }
  }

  lemma {:induction false} MarkedSince(w: World, steps: seq<Step>, i: nat, k: nat, code: Code)
    requires Sound(w) && i <= k <= |steps| && Marked(At(w, steps, i).db, code)
    ensures Marked(At(w, steps, k).db, code)
    decreases k
  {
    hide Sound, Advance, Marked;
    if i < k {
      MarkedSince(w, steps, i, k - 1, code);
      AlwaysSound(w, steps, k - 1);
      AtNext(w, steps, k - 1);
      StepTells(At(w, steps, k - 1), steps[k - 1], code);
    }
  }

  /** The batch that holds a guest read them on its list at some step before. */
  lemma {:induction false} ReadBefore(w: World, steps: seq<Step>, k: nat, b: int, code: Code) returns (r: nat)
    requires Sound(w) && w.batches == map[] && k <= |steps| && Holds(At(w, steps, k), b, code)
    ensures r < k && Reads(At(w, steps, r), steps[r], code) && steps[r].batch == b
    decreases k
  {
    NobodyHeldAtFirst(w, steps, b, code);
    var before := At(w, steps, k - 1);
    AtNext(w, steps, k - 1);
    if b in before.batches {
      AlwaysSound(w, steps, k - 1);
      StepLetsGo(before, steps[k - 1], b, code);
      r := ReadBefore(w, steps, k - 1, b, code);
    } else {
      r := k - 1;
      OnlyReadingOpens(before, steps[k - 1], b, code);
    }
  }

  lemma {:induction false} NobodyHeldAtFirst(w: World, steps: seq<Step>, b: int, code: Code)
    requires w.batches == map[]
    ensures !Holds(At(w, steps, 0), b, code)
  {
    assert steps[..0] == [];
  }

  lemma {:induction false} OnlyReadingOpens(w: World, s: Step, b: int, code: Code)
    requires b !in w.batches && Holds(Advance(w, s), b, code)
    ensures Reads(w, s, code) && s.batch == b
  {
    hide Next, WarnStep;
  }

  // ---------------------------------------------------------------- warned once, or twice

  ghost predicate WarnsAt(w: World, steps: seq<Step>, k: int, code: Code) {
    0 <= k < |steps| && Warns(At(w, steps, k), steps[k], code)
  }

  /** How many steps of the run warn this guest. */
  ghost function TimesWarned(w: World, steps: seq<Step>, n: nat, code: Code): nat
    requires n <= |steps|
  {
    if n == 0 then 0 else TimesWarned(w, steps, n - 1, code) + if WarnsAt(w, steps, n - 1, code) then 1 else 0
  }

  lemma {:induction false} WarningsAreTheWarningSteps(w: World, steps: seq<Step>, n: nat, code: Code)
    requires Sound(w) && n <= |steps|
    ensures Warnings(At(w, steps, n).db.outbox, code) == Warnings(w.db.outbox, code) + TimesWarned(w, steps, n, code)
  {
    hide Sound, Advance, Warns;
    if n == 0 {
      assert steps[..0] == [];
    } else {
      WarningsAreTheWarningSteps(w, steps, n - 1, code);
      AlwaysSound(w, steps, n - 1);
      AtNext(w, steps, n - 1);
      StepTells(At(w, steps, n - 1), steps[n - 1], code);
    }
  }

  lemma {:induction false} SomeWarning(w: World, steps: seq<Step>, n: nat, code: Code) returns (k: nat)
    requires n <= |steps| && TimesWarned(w, steps, n, code) >= 1
    ensures k < n && WarnsAt(w, steps, k, code)
  {
    if WarnsAt(w, steps, n - 1, code) {
      k := n - 1;
    } else {
      k := SomeWarning(w, steps, n - 1, code);
    }
  }

  lemma {:induction false} TwoWarnings(w: World, steps: seq<Step>, n: nat, code: Code) returns (k: nat, m: nat)
    requires n <= |steps| && TimesWarned(w, steps, n, code) >= 2
    ensures k < m < n && WarnsAt(w, steps, k, code) && WarnsAt(w, steps, m, code)
  {
    if WarnsAt(w, steps, n - 1, code) {
      m := n - 1;
      k := SomeWarning(w, steps, n - 1, code);
    } else {
      k, m := TwoWarnings(w, steps, n - 1, code);
    }
  }

  lemma {:induction false} WarningsAddUp(w: World, steps: seq<Step>, n: nat, k: nat, code: Code)
    requires k < n <= |steps| && WarnsAt(w, steps, k, code)
    ensures TimesWarned(w, steps, n, code) >= TimesWarned(w, steps, k, code) + 1
    decreases n
  {
    if k < n - 1 {
      WarningsAddUp(w, steps, n - 1, k, code);
    }
  }

  /** From here on this batch gets to warn this guest. */
  ghost predicate WillWarn(w: World, steps: seq<Step>, from: nat, b: int, code: Code) {
    exists k :: from <= k && WarnsAt(w, steps, k, code) && steps[k].batch == b
  }

  /** At this step a batch reads the guest's name while another one still holds it, and
      both get to warn them. */
  ghost predicate OverlapsAt(w: World, steps: seq<Step>, j: nat, other: int, code: Code)
    requires j < |steps|
  {
    && Reads(At(w, steps, j), steps[j], code)
    && Holds(At(w, steps, j), other, code)
    && WillWarn(w, steps, j + 1, other, code)
    && WillWarn(w, steps, j + 1, steps[j].batch, code)
  }

  ghost predicate Overlap(w: World, steps: seq<Step>, code: Code) {
    exists j: nat, other :: j < |steps| && OverlapsAt(w, steps, j, other, code)
  }

  /** A batch warns a guest once. */
  lemma {:induction false} OneBatchWarnsOnce(w: World, steps: seq<Step>, k: nat, m: nat, code: Code)
    requires Sound(w) && k < m && WarnsAt(w, steps, k, code) && WarnsAt(w, steps, m, code)
    ensures steps[k].batch != steps[m].batch
  {
    hide Sound, Advance;
    var b := steps[k].batch;
    AlwaysSound(w, steps, k);
    AtNext(w, steps, k);
    StepLetsGo(At(w, steps, k), steps[k], b, code);
    HeldSince(w, steps, k + 1, m, b, code);
    WarnerHolds(At(w, steps, m), steps[m], code);
  }

  lemma {:induction false} WarnerHolds(w: World, s: Step, code: Code)
    requires Warns(w, s, code)
    ensures Holds(w, s.batch, code)
  {
    assert w.batches[s.batch][0].code == code;
  }

  /** Whoever is warned was read before anybody had warned them. */
  lemma {:induction false} ReadBeforeAnyWarning(w: World, steps: seq<Step>, k: nat, m: nat, code: Code) returns (r: nat)
    requires Sound(w) && w.batches == map[] && WarnsAt(w, steps, k, code) && WarnsAt(w, steps, m, code)
    ensures r < k && r < m && Reads(At(w, steps, r), steps[r], code) && steps[r].batch == steps[m].batch
  {
    hide Sound, Advance, Reads;
    WarnerHolds(At(w, steps, m), steps[m], code);
    r := ReadBefore(w, steps, m, steps[m].batch, code);
    ReadingSkipsTheMarked(At(w, steps, r), steps[r], code);
    AlwaysSound(w, steps, k);
    AtNext(w, steps, k);
    StepTells(At(w, steps, k), steps[k], code);
    if k + 1 <= r {
      MarkedSince(w, steps, k + 1, r, code);
    }
    WarningIsNoReading(At(w, steps, k), steps[k], code);
    WarningIsNoReading(At(w, steps, r), steps[r], code);
  }

  lemma {:induction false} WarningIsNoReading(w: World, s: Step, code: Code)
    ensures !(Warns(w, s, code) && Reads(w, s, code))
  {
  }

  lemma {:induction false} TwoWarningsOverlap(w: World, steps: seq<Step>, k: nat, m: nat, code: Code)
    requires Sound(w) && w.batches == map[] && k < m && WarnsAt(w, steps, k, code) && WarnsAt(w, steps, m, code)
    ensures Overlap(w, steps, code)
  {
    hide Sound, Advance, Reads;
    OneBatchWarnsOnce(w, steps, k, m, code);
    var first := ReadBeforeAnyWarning(w, steps, k, k, code);
    var second := ReadBeforeAnyWarning(w, steps, k, m, code);
    if first < second {
      StillHeldAt(w, steps, first, second, k, code);
      assert OverlapsAt(w, steps, second, steps[k].batch, code);
    } else {
      StillHeldAt(w, steps, second, first, m, code);
      assert OverlapsAt(w, steps, first, steps[m].batch, code);
    }
  }

  /** Between reading a guest's name and warning them a batch holds it. */
  lemma {:induction false} StillHeldAt(w: World, steps: seq<Step>, r: nat, j: nat, k: nat, code: Code)
    requires Sound(w) && r < j <= k && WarnsAt(w, steps, k, code)
    requires Reads(At(w, steps, r), steps[r], code) && steps[r].batch == steps[k].batch
    ensures Holds(At(w, steps, j), steps[k].batch, code)
  {
    hide Sound, Advance;
    AtNext(w, steps, r);
    HeldSince(w, steps, r + 1, j, steps[k].batch, code);
    HeldSince(w, steps, j, k, steps[k].batch, code);
    WarnerHolds(At(w, steps, k), steps[k], code);
  }

  lemma {:induction false} OverlapWarnsTwice(w: World, steps: seq<Step>, code: Code)
    requires Overlap(w, steps, code)
    ensures TimesWarned(w, steps, |steps|, code) >= 2
  {
    hide Advance;
    var j: nat, other :| j < |steps| && OverlapsAt(w, steps, j, other, code);
    var k :| j + 1 <= k && WarnsAt(w, steps, k, code) && steps[k].batch == other;
    var m :| j + 1 <= m && WarnsAt(w, steps, m, code) && steps[m].batch == steps[j].batch;
    WarningsAddUp(w, steps, |steps|, k, code);
    WarningsAddUp(w, steps, |steps|, m, code);
    if k < m {
      WarningsAddUp(w, steps, m, k, code);
    } else {
      WarningsAddUp(w, steps, k, m, code);
    }
  }

  /** Told once exactly when marked. */
  ghost predicate ToldWhenMarked(db: Db, code: Code) {
    Warnings(db.outbox, code) == if Marked(db, code) then 1 else 0
  }

  /** A guest already marked is never read, so never warned. */
  lemma {:induction false} MarkedIsNotWarned(w: World, steps: seq<Step>, code: Code)
    requires Sound(w) && w.batches == map[] && Marked(w.db, code)
    ensures TimesWarned(w, steps, |steps|, code) == 0 && !Overlap(w, steps, code)
  {
    hide Sound, Advance, Reads, Marked;
    assert steps[..0] == [];
    forall r: nat | r < |steps| ensures !Reads(At(w, steps, r), steps[r], code) {
      MarkedSince(w, steps, 0, r, code);
      MarkedIsNotRead(At(w, steps, r), steps[r], code);
    }
    if TimesWarned(w, steps, |steps|, code) >= 1 {
      var k := SomeWarning(w, steps, |steps|, code);
      var r := ReadBeforeAnyWarning(w, steps, k, k, code);
    }
  }

  lemma {:induction false} MarkedIsNotRead(w: World, s: Step, code: Code)
    ensures Marked(w.db, code) ==> !Reads(w, s, code)
  {
    if Reads(w, s, code) {
      ReadingSkipsTheMarked(w, s, code);
    }
  }

  /** Over every run of batches, crashes, failed transactions and everything else, a
      guest is warned at most once if and only if no batch reads their name while another
      still holds it and both get to warn them. */
  lemma {:induction false} WarnedAtMostOnceExactlyWithoutOverlap(w: World, steps: seq<Step>, code: Code)
    requires w.batches == map[] && ToldWhenMarked(w.db, code)
    ensures Warnings(Run(w, steps).db.outbox, code) <= 1 <==> !Overlap(w, steps, code)
  {
    hide Advance, Overlap, Marked;
    assert Sound(w);
    assert steps[..|steps|] == steps;
    WarningsAreTheWarningSteps(w, steps, |steps|, code);
    if Marked(w.db, code) {
      MarkedIsNotWarned(w, steps, code);
    } else if TimesWarned(w, steps, |steps|, code) >= 2 {
      var k, m := TwoWarnings(w, steps, |steps|, code);
      TwoWarningsOverlap(w, steps, k, m, code);
    } else if Overlap(w, steps, code) {
      OverlapWarnsTwice(w, steps, code);
    }
  }

  /** What a caller can see to: a list is read only when no other batch has a guest on it
      still to warn. Then every guest is warned at most once, from the empty tables on. */
  lemma {:induction false} WarnedAtMostOnceWhenReadsWait(settings: Settings, now: int, today: int, steps: seq<Step>,
        code: Code)
    requires var w := World(Empty(settings, now, today), map[]);
      forall j, b :: 0 <= j < |steps| && Reads(At(w, steps, j), steps[j], code) ==> !Holds(At(w, steps, j), b, code)
    ensures Warnings(Run(World(Empty(settings, now, today), map[]), steps).db.outbox, code) <= 1
  {
    var w := World(Empty(settings, now, today), map[]);
    WarnedAtMostOnceExactlyWithoutOverlap(w, steps, code);
  }

  /** The input that fails: two servers read the list in turn and then work it. Whoever is
      first on it is told twice. */
  lemma {:induction false} TwoReadersWarnTwice(w: World, on: int, due: seq<Code>)
    requires w.batches == map[] && IsAnswer(w.db, WarningsDue, on, due) && due != []
    ensures var steps := [ReadList(1, on, due), ReadList(2, on, due), WarnNext(1, true), WarnNext(2, true)];
      Warnings(Run(w, steps).db.outbox, due[0]) == Warnings(w.db.outbox, due[0]) + 2
  {
    hide IsAnswer, WarnStep;
    AnswerIsBooked(w.db, on, due);
    var entry := Entries(w.db, due)[0];
    RunFour(w, ReadList(1, on, due), ReadList(2, on, due), WarnNext(1, true), WarnNext(2, true));
    WarningCounts(w.db, entry.code, entry.amount, due[0]);
    WarningCounts(WarnStep(w.db, entry.code, entry.amount), entry.code, entry.amount, due[0]);
  }

  lemma {:induction false} AnswerIsBooked(db: Db, on: int, due: seq<Code>)
    requires IsAnswer(db, WarningsDue, on, due)
    ensures forall i :: 0 <= i < |due| ==> due[i] in db.bookings
  {
  }

  lemma {:induction false} RunFour(w: World, a: Step, b: Step, c: Step, d: Step)
    ensures Run(w, [a, b, c, d]) == Advance(Advance(Advance(Advance(w, a), b), c), d)
  {
    hide Advance;
    assert [a, b, c, d][..3] == [a, b, c] && [a, b, c][..2] == [a, b] && [a, b][..1] == [a] && [a][..0] == [];
    assert Run(w, [a]) == Advance(Run(w, []), a);
    assert Run(w, [a, b]) == Advance(Run(w, [a]), b);
    assert Run(w, [a, b, c]) == Advance(Run(w, [a, b]), c);
  }

  // ---------------------------------------------------------------- what a reading can lead to

  /** No batch reads this guest's name anywhere in the run. */
  ghost predicate NobodyReads(w: World, steps: seq<Step>, code: Code) {
    forall j :: 0 <= j < |steps| ==> !Reads(At(w, steps, j), steps[j], code)
  }

  ghost predicate TellsTwice(w: World, steps: seq<Step>, code: Code) {
    Warnings(Run(w, steps).db.outbox, code) >= Warnings(w.db.outbox, code) + 2
  }

  /** Some run from here warns this guest twice, and nobody need read their name again. */
  ghost predicate CanWarnTwice(w: World, code: Code) {
    exists steps :: NobodyReads(w, steps, code) && TellsTwice(w, steps, code)
  }

  /** A batch reads a guest's name. With no further reading that can lead to the guest being
      warned twice exactly when another batch holds the name already. */
  lemma {:induction false} ReadingLeadsToTwoWarningsExactlyWhenAnotherHolds(w: World, s: Step, code: Code)
    requires Sound(w) && Reads(w, s, code)
    ensures CanWarnTwice(Advance(w, s), code) <==> exists other :: Holds(w, other, code)
  {
    hide Advance, Sound, Holds, NobodyReads;
    var w' := Advance(w, s);
    StepIsSound(w, s);
    if other :| Holds(w, other, code) {
      ReadingKeepsHolders(w, s, other, code);
      TwoHoldersCanWarnTwice(w', s.batch, other, code);
    }
    if steps :| NobodyReads(w', steps, code) && TellsTwice(w', steps, code) {
      var a, b := TwoWarningsNeedTwoHolders(w', steps, code);
      HeldBeforeReading(w, s, if a == s.batch then b else a, code);
    }
  }

  lemma {:induction false} ReadingKeepsHolders(w: World, s: Step, other: int, code: Code)
    requires Reads(w, s, code) && Holds(w, other, code)
    ensures other != s.batch && Holds(Advance(w, s), other, code) && Holds(Advance(w, s), s.batch, code)
  {
  }

  lemma {:induction false} HeldBeforeReading(w: World, s: Step, other: int, code: Code)
    requires Reads(w, s, code) && other != s.batch && Holds(Advance(w, s), other, code)
    ensures Holds(w, other, code)
  {
  }

  /** Whoever warns a guest nobody reads held them from the start. */
  lemma {:induction false} HeldFromTheStart(w: World, steps: seq<Step>, k: nat, b: int, code: Code)
    requires Sound(w) && NobodyReads(w, steps, code) && k <= |steps| && Holds(At(w, steps, k), b, code)
    ensures Holds(w, b, code)
    decreases k
  {
    hide Sound, Advance, Holds, Reads;
    if k == 0 {
      assert steps[..0] == [];
    } else {
      var before := At(w, steps, k - 1);
      AtNext(w, steps, k - 1);
      AlwaysSound(w, steps, k - 1);
      if b in before.batches {
        StepLetsGo(before, steps[k - 1], b, code);
      } else {
        OnlyReadingOpens(before, steps[k - 1], b, code);
      }
      HeldFromTheStart(w, steps, k - 1, b, code);
    }
  }

  lemma {:induction false} TwoWarningsNeedTwoHolders(w: World, steps: seq<Step>, code: Code) returns (a: int, b: int)
    requires Sound(w) && NobodyReads(w, steps, code) && TellsTwice(w, steps, code)
    ensures a != b && Holds(w, a, code) && Holds(w, b, code)
  {
    hide Sound, Advance, NobodyReads, Holds;
    assert steps[..|steps|] == steps;
    WarningsAreTheWarningSteps(w, steps, |steps|, code);
    var k, m := TwoWarnings(w, steps, |steps|, code);
    OneBatchWarnsOnce(w, steps, k, m, code);
    a, b := steps[k].batch, steps[m].batch;
    WarnerHolds(At(w, steps, k), steps[k], code);
    WarnerHolds(At(w, steps, m), steps[m], code);
    HeldFromTheStart(w, steps, k, a, code);
    HeldFromTheStart(w, steps, m, b, code);
  }

  /** A run of warnings only. */
  predicate OnlyWarns(steps: seq<Step>) {
    forall j :: 0 <= j < |steps| ==> steps[j].WarnNext?
  }

  /** A batch that holds a guest can get as far as warning them, by itself. */
  lemma {:induction false} HolderCanWarn(w: World, b: int, i: nat, code: Code) returns (steps: seq<Step>)
    requires Sound(w) && b in w.batches && i < |w.batches[b]| && w.batches[b][i].code == code
    ensures OnlyWarns(steps)
    ensures var w' := Run(w, steps);
      && Sound(w') && Warnings(w'.db.outbox, code) == Warnings(w.db.outbox, code) + 1
      && forall c :: c != b && c in w.batches ==> c in w'.batches && w'.batches[c] == w.batches[c]
    decreases i
  {
    hide Sound, WarnStep, Warnings;
    var first := WarnNext(b, i == 0);
    var next := Advance(w, first);
    StepIsSound(w, first);
    StepTells(w, first, code);
    RunOne(w, first);
    if i == 0 {
      steps := [first];
    } else {
      assert !Warns(w, first, code) && next.batches[b][i - 1] == w.batches[b][i];
      var rest := HolderCanWarn(next, b, i - 1, code);
      RunConcat(w, [first], rest);
      steps := [first] + rest;
    }
  }

  lemma {:induction false} RunOne(w: World, s: Step)
    ensures Run(w, [s]) == Advance(w, s)
  {
    hide Advance;
    assert [s][..0] == [];
    assert Run(w, [s]) == Advance(Run(w, []), s);
  }

  lemma {:induction false} TwoHoldersCanWarnTwice(w: World, a: int, b: int, code: Code)
    requires Sound(w) && a != b && Holds(w, a, code) && Holds(w, b, code)
    ensures CanWarnTwice(w, code)
  {
    hide Sound, Advance, Run, Warnings, NobodyReads;
    var i :| 0 <= i < |w.batches[a]| && w.batches[a][i].code == code;
    var j :| 0 <= j < |w.batches[b]| && w.batches[b][j].code == code;
    var once := HolderCanWarn(w, a, i, code);
    var again := HolderCanWarn(Run(w, once), b, j, code);
    RunConcat(w, once, again);
    WarningsReadNothing(w, once + again, code);
    assert TellsTwice(w, once + again, code);
  }

  lemma {:induction false} WarningsReadNothing(w: World, steps: seq<Step>, code: Code)
    requires OnlyWarns(steps)
    ensures NobodyReads(w, steps, code)
  {
  }

  // ---------------------------------------------------------------- one batch, start to finish

  /** The guests of a list in turn; `failing` are those whose transaction does not commit. */
  function WarnAll(db: Db, entries: seq<Entry>, failing: set<Code>): (Db, seq<Code>) {
    if |entries| == 0 then (db, [])
    else
      var last := entries[|entries| - 1];
      var (before, failures) := WarnAll(db, entries[..|entries| - 1], failing);
      if last.code in failing then (before, failures + [last.code])
      else (WarnStep(before, last.code, last.amount), failures)
  }

  /** WarnBalances: the list is read once, then one transaction a guest, and failures are
      collected. */
  method WarnBalances(db: Store.Tables, on: int, failing: set<Code>)
    returns (sent: nat, failures: seq<Code>, ghost due: seq<Code>)
    modifies db
    ensures IsAnswer(old(db.State()), WarningsDue, on, due)
    ensures (db.State(), failures) == WarnAll(old(db.State()), Entries(old(db.State()), due), failing)
    ensures sent + |failures| == |due|
    // who is told, and what
    ensures forall code :: code in due <==>
        && code in old(db.bookings) && !old(db.bookings)[code].warned
        && !Terms.Spared(old(db.bookings)[code], on + 1)
    ensures db.State() == old(db.State()).(bookings := db.bookings, outbox := db.outbox)
    ensures db.outbox == old(db.outbox) + WarningsOf(old(db.State()), due, failing)
  {
    hide WarnStep, IsAnswer;
    var listed := db.ListDue(WarningsDue, on);
    due := listed;
    forall code {
      Terms.ScanListsExactly(db.State(), on, due, code);
    }
    AnswerIsBooked(db.State(), on, listed);
    ghost var entries := Entries(db.State(), due);
    var lines := [];
    for i := 0 to |listed|
      invariant |lines| == i && forall k :: 0 <= k < i ==> lines[k] == entries[k]
    {
      lines := lines + [Entry(listed[i], db.bookings[listed[i]].total - db.bookings[listed[i]].paid)];
    }
    sent, failures := 0, [];
    for i := 0 to |lines|
      invariant (db.State(), failures) == WarnAll(old(db.State()), entries[..i], failing)
      invariant sent + |failures| == i
    {
      assert entries[..i + 1][..i] == entries[..i];
      if lines[i].code in failing {
        failures := failures + [lines[i].code];
      } else {
        db.WarnOne(lines[i].code, lines[i].amount);
        sent := sent + 1;
      }
    }
    assert entries[..|lines|] == entries;
    BatchSaysWhatIsOwed(old(db.State()), due, failing);
  }

  /** One message a guest whose transaction commits, naming what they owe. */
  function WarningsOf(db: Db, due: seq<Code>, failing: set<Code>): seq<Message>
    requires forall i :: 0 <= i < |due| ==> due[i] in db.bookings
  {
    if |due| == 0 then []
    else
      var code := due[|due| - 1];
      WarningsOf(db, due[..|due| - 1], failing)
      + if code in failing then [] else [BalanceWarning(code, db.bookings[code].total - db.bookings[code].paid)]
  }

  lemma {:induction false} BatchSaysWhatIsOwed(db: Db, due: seq<Code>, failing: set<Code>)
    requires forall i :: 0 <= i < |due| ==> due[i] in db.bookings
    ensures var after := WarnAll(db, Entries(db, due), failing).0;
      && after == db.(bookings := after.bookings, outbox := after.outbox)
      && after.bookings.Keys == db.bookings.Keys
      && after.outbox == db.outbox + WarningsOf(db, due, failing)
  {
    if |due| > 0 {
      var n := |due| - 1;
      assert Entries(db, due)[..n] == Entries(db, due[..n]);
      BatchSaysWhatIsOwed(db, due[..n], failing);
    } else {
      assert db.outbox + [] == db.outbox;
    }
  }

  /** Over a whole batch each guest on the list whose transaction commits is warned once
      and off the list, and each of the others, whoever failed around them, has been told
      nothing and is still on it. */
  lemma {:induction false} BatchWarnsEachOnce(db: Db, on: int, due: seq<Code>, failing: set<Code>, code: Code)
    requires IsAnswer(db, WarningsDue, on, due) && code in db.bookings
    ensures var (after, failures) := WarnAll(db, Entries(db, due), failing);
      var told := code in due && code !in failing;
      && code in after.bookings
      && after.bookings[code] == (if told then db.bookings[code].(warned := true) else db.bookings[code])
      && (code in due ==> (Matches(after.bookings[code], WarningsDue, on) <==> code in failing))
      && Warnings(after.outbox, code) == Warnings(db.outbox, code) + (if told then 1 else 0)
      && (code in failures <==> code in due && code in failing)
  {
    hide IsAnswer;
    AnswerIsBooked(db, on, due);
    AnswerMatches(db, on, due);
    EachInTurn(db, Entries(db, due), failing, code);
    assert code in due <==> Among(Entries(db, due), code) by {
      forall i | 0 <= i < |due| ensures due[i] in due && Entries(db, due)[i].code == due[i] {
      }
    }
  }

  lemma {:induction false} AnswerMatches(db: Db, on: int, due: seq<Code>)
    requires IsAnswer(db, WarningsDue, on, due)
    ensures DistinctEntries(Entries(db, due))
    ensures forall code :: code in due ==> code in db.bookings && Matches(db.bookings[code], WarningsDue, on)
  {
  }

  ghost predicate Among(entries: seq<Entry>, code: Code) {
    exists i :: 0 <= i < |entries| && entries[i].code == code
  }

  lemma {:induction false} EachInTurn(db: Db, entries: seq<Entry>, failing: set<Code>, code: Code)
    requires DistinctEntries(entries) && code in db.bookings
    requires forall i :: 0 <= i < |entries| ==> entries[i].code in db.bookings
    ensures var (after, failures) := WarnAll(db, entries, failing);
      var told := Among(entries, code) && code !in failing;
      && after.bookings.Keys == db.bookings.Keys
      && after.bookings[code] == (if told then db.bookings[code].(warned := true) else db.bookings[code])
      && Warnings(after.outbox, code) == Warnings(db.outbox, code) + (if told then 1 else 0)
      && (code in failures <==> Among(entries, code) && code in failing)
  {
    hide WarnStep;
    if |entries| > 0 {
      var n := |entries| - 1;
      EachInTurn(db, entries[..n], failing, code);
      LastAmong(entries, code);
      WarningCounts(WarnAll(db, entries[..n], failing).0, entries[n].code, entries[n].amount, code);
      hide Among;
    }
  }

  lemma {:induction false} LastAmong(entries: seq<Entry>, code: Code)
    requires |entries| > 0 && DistinctEntries(entries)
    ensures var n := |entries| - 1;
      && (Among(entries, code) <==> Among(entries[..n], code) || code == entries[n].code)
      && (code == entries[n].code ==> !Among(entries[..n], code))
  {
    var n := |entries| - 1;
    if Among(entries[..n], code) {
      var i :| 0 <= i < n && entries[..n][i].code == code;
      assert entries[i].code == code;
    }
    if i :| 0 <= i < |entries| && entries[i].code == code {
      assert i < n ==> entries[..n][i].code == code;
    }
  }

  function WorkSteps(b: int, entries: seq<Entry>, failing: set<Code>): seq<Step> {
    if |entries| == 0 then []
    else WorkSteps(b, entries[..|entries| - 1], failing) + [WarnNext(b, entries[|entries| - 1].code !in failing)]
  }

  lemma {:induction false} RunConcat(w: World, xs: seq<Step>, ys: seq<Step>)
    ensures Run(w, xs + ys) == Run(Run(w, xs), ys)
  {
    hide Advance;
    if |ys| == 0 {
      assert xs + ys == xs;
    } else {
      assert (xs + ys)[..|xs + ys| - 1] == xs + ys[..|ys| - 1];
      RunConcat(w, xs, ys[..|ys| - 1]);
    }
  }

  lemma {:induction false} OneMoreWarned(w: World, b: int, done: seq<Entry>, last: Entry, failing: set<Code>)
    ensures Run(w, WorkSteps(b, done + [last], failing))
         == Advance(Run(w, WorkSteps(b, done, failing)), WarnNext(b, last.code !in failing))
  {
    hide Advance;
    assert (done + [last])[..|done|] == done;
    var before := WorkSteps(b, done, failing);
    assert (before + [WarnNext(b, last.code !in failing)])[..|before|] == before;
  }

  lemma {:induction false} WorkIsWarnAll(w: World, b: int, done: seq<Entry>, rest: seq<Entry>, failing: set<Code>)
    requires b in w.batches && w.batches[b] == done + rest
    ensures var w' := Run(w, WorkSteps(b, done, failing));
      b in w'.batches && w'.batches[b] == rest && w'.db == WarnAll(w.db, done, failing).0
  {
    hide WarnStep, Run, WorkSteps;
    if |done| > 0 {
      var init, last := done[..|done| - 1], done[|done| - 1];
      assert init + ([last] + rest) == done + rest && init + [last] == done;
      WorkIsWarnAll(w, b, init, [last] + rest, failing);
      OneMoreWarned(w, b, init, last, failing);
      assert ([last] + rest)[1..] == rest;
    } else {
      assert done + rest == rest;
      NoWork(w, b, failing);
    }
  }

  lemma {:induction false} NoWork(w: World, b: int, failing: set<Code>)
    ensures Run(w, WorkSteps(b, [], failing)) == w
  {
  }

  /** A batch nobody interrupts is a run of the steps above. */
  lemma {:induction false} BatchIsARun(w: World, b: int, on: int, due: seq<Code>, failing: set<Code>)
    requires b !in w.batches && IsAnswer(w.db, WarningsDue, on, due)
    ensures var entries := Entries(w.db, due);
      Run(w, [ReadList(b, on, due)] + WorkSteps(b, entries, failing)).db == WarnAll(w.db, entries, failing).0
  {
    var entries := Entries(w.db, due);
    var read := Advance(w, ReadList(b, on, due));
    assert [ReadList(b, on, due)][..0] == [];
    assert Run(w, [ReadList(b, on, due)]) == read;
    RunConcat(w, [ReadList(b, on, due)], WorkSteps(b, entries, failing));
    assert entries + [] == entries;
    WorkIsWarnAll(read, b, entries, [], failing);
    hide IsAnswer, WarnAll;
  }
}
