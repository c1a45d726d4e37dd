/** Many runners over one job table: claims, crashes, late writes and restarts. */
module JobRuns {
  import opened Common
  import opened Jobs

  /** A job somebody claimed. `until` is where its lease ends; `worked` is set when
      the handler has returned success and nothing has been written about it yet. */
  datatype Held = Held(id: int, kind: string, attempts: int, until: int, worked: bool)

  /** `succeeded` remembers which jobs' handlers ever returned success. */
  datatype World = World(t: Table, kinds: Kinds, held: map<int, Held>, succeeded: set<int>)

  datatype Step =
    | Take(runner: int, id: int)
    | HandlerWorks(runner: int)
    | Write(runner: int)
    | HandlerBreaks(runner: int, reason: string, jitter: int)
    | Die(runner: int)
    | Queue(kind: string, runAt: Option<int>, key: string)
    | Wait(ms: nat)

  function Advance(w: World, s: Step): World {
    match s
    case Take(r, id) =>
      if r in w.held || !IsDue(w.t, id) then w
      else
        var row := w.t.rows[id];
        w.(t := Claim(w.t, id),
           held := w.held[r := Held(id, row.kind, row.attempts + 1, w.t.now + 1000 * LEASE_SECONDS, false)])
    case HandlerWorks(r) =>
      if r !in w.held || w.held[r].kind !in w.kinds then w
      else w.(held := w.held[r := w.held[r].(worked := true)], succeeded := w.succeeded + {w.held[r].id})
    case Write(r) =>
      if r !in w.held || !w.held[r].worked then w
      else Written(w, r, Worked)
    case HandlerBreaks(r, reason, jitter) =>
      if r !in w.held || w.held[r].worked then w
      else Written(w, r, Broke(reason, jitter))
    case Die(r) => w.(held := w.held - {r})
    case Queue(kind, runAt, key) => w.(t := Enqueue(w.t, kind, runAt, key).0)
    case Wait(ms) => w.(t := w.t.(now := w.t.now + ms))
  }

  /** The runner settles the row and lets go of it. */
  function Written(w: World, r: int, v: Verdict): World
    requires r in w.held
  {
    var h := w.held[r];
    w.(t := Settle(w.t, w.kinds, h.id, h.kind, h.attempts, v), held := w.held - {r})
  }

  function Run(w: World, steps: seq<Step>): World {
    if |steps| == 0 then w else Advance(Run(w, steps[..|steps| - 1]), steps[|steps| - 1])
  }

  /** A runner's Once, uninterrupted, is these steps. */
  lemma {:induction false} OnceIsARun(w: World, r: int, id: int, v: Verdict)
    requires r !in w.held && IsDue(w.t, id)
    ensures var took := Advance(w, Take(r, id)); var after := RunOne(w.t, w.kinds, id, v);
      && (v.Worked? && w.t.rows[id].kind in w.kinds ==> Advance(Advance(took, HandlerWorks(r)), Write(r)).t == after)
      && (v.Broke? ==> Advance(took, HandlerBreaks(r, v.reason, v.jitter)).t == after)
      && (w.t.rows[id].kind !in w.kinds ==> Advance(took, HandlerBreaks(r, "", 0)).t == after)
  {
    hide Backoff, WholeSeconds;
  }

  // ---------------------------------------------------------------- the table

  ghost predicate OneRowPerKey(t: Table) {
    forall a, b :: a in t.rows && b in t.rows && t.rows[a].key.Some? && t.rows[a].key == t.rows[b].key ==> a == b
  }

  predicate Periodic(kinds: Kinds, kind: string) {
    kind in kinds && kinds[kind].repeat > 0
  }

  /** A key that names a periodic kind is only ever used by that kind. */
  predicate Respectful(kinds: Kinds, s: Step) {
    s.Queue? && Periodic(kinds, s.key) ==> s.kind == s.key
  }

  ghost predicate AllRespectful(kinds: Kinds, steps: seq<Step>) {
    forall i :: 0 <= i < |steps| ==> Respectful(kinds, steps[i])
  }

  ghost predicate HeldOk(w: World, r: int)
    requires r in w.held
  {
    var h := w.held[r];
    && h.id < w.t.nextId
    && (h.worked ==> h.id in w.succeeded && h.kind in w.kinds)
    && (h.id in w.t.rows ==> w.t.rows[h.id].kind == h.kind)
  }

  ghost predicate Inv(w: World) {
    && OneRowPerKey(w.t)
    && (forall id :: id in w.t.rows ==> id < w.t.nextId)
    && (forall id :: id in w.t.rows && w.t.rows[id].key.Some? && Periodic(w.kinds, w.t.rows[id].key.value)
          ==> w.t.rows[id].kind == w.t.rows[id].key.value)
    && forall r {:trigger HeldOk(w, r)} :: r in w.held ==> HeldOk(w, r)
  }

  /** What one step may do to the rows that are there: a row keeps its kind and its
      key, and goes only if its handler has succeeded and it is one-shot work. */
  ghost predicate RowsKept(w: World, w': World) {
    && w'.kinds == w.kinds && w.succeeded <= w'.succeeded && w.t.nextId <= w'.t.nextId
    && (forall id :: id in w.t.rows && id in w'.t.rows ==>
          w'.t.rows[id].kind == w.t.rows[id].kind && w'.t.rows[id].key == w.t.rows[id].key)
    && (forall id :: id in w'.t.rows && id !in w.t.rows ==> id >= w.t.nextId)
    && forall id :: id in w.t.rows && id !in w'.t.rows ==> MayGo(w', w.t.rows[id].kind, id)
  }

  predicate MayGo(w: World, kind: string, id: int) {
    id in w.succeeded && kind in w.kinds && !Periodic(w.kinds, kind)
  }

  lemma {:induction false} SettleKeeps(t: Table, kinds: Kinds, id: int, kind: string, attempts: int, v: Verdict)
    ensures var t' := Settle(t, kinds, id, kind, attempts, v);
      && t'.now == t.now && t'.nextId == t.nextId
      && (forall x :: x in t'.rows ==>
           x in t.rows && t'.rows[x].kind == t.rows[x].kind && t'.rows[x].key == t.rows[x].key)
      && (forall x :: x in t.rows && x !in t'.rows ==> x == id && v.Worked? && kind in kinds && !Periodic(kinds, kind))
      && (forall x :: x in t.rows && x != id ==> t'.rows[x] == t.rows[x])
  {
    hide Backoff, WholeSeconds;
  }

  lemma {:induction false} EveryStepKeeps(w: World, s: Step)
    requires Inv(w) && Respectful(w.kinds, s)
    ensures Inv(Advance(w, s)) && RowsKept(w, Advance(w, s))
  {
    var w' := Advance(w, s);
    match s
    case Write(r) =>
      if r in w.held && w.held[r].worked {
        assert HeldOk(w, r);
        SettleKeeps(w.t, w.kinds, w.held[r].id, w.held[r].kind, w.held[r].attempts, Worked);
        hide Settle;
        SettledInv(w, w');
      }
    case HandlerBreaks(r, reason, jitter) =>
      if r in w.held && !w.held[r].worked {
        SettleKeeps(w.t, w.kinds, w.held[r].id, w.held[r].kind, w.held[r].attempts, Broke(reason, jitter));
        hide Settle;
        SettledInv(w, w');
      }
    case Queue(kind, runAt, key) => QueueKeeps(w, kind, runAt, key);
    case _ =>
      forall x | x in w'.held ensures HeldOk(w', x) {
        if x in w.held {
          assert HeldOk(w, x);
        }
      }
  }

  lemma {:induction false} SettledInv(w: World, w': World)
    requires Inv(w) && w'.kinds == w.kinds && w'.succeeded == w.succeeded && w'.t.nextId == w.t.nextId
    requires forall x :: x in w'.t.rows ==>
      x in w.t.rows && w'.t.rows[x].kind == w.t.rows[x].kind && w'.t.rows[x].key == w.t.rows[x].key
    requires forall x :: x in w'.held ==> x in w.held && w'.held[x] == w.held[x]
    ensures Inv(w')
  {
    forall x | x in w'.held ensures HeldOk(w', x) {
      assert HeldOk(w, x);
    }
  }

  lemma {:induction false} QueueKeeps(w: World, kind: string, runAt: Option<int>, key: string)
    requires Inv(w) && Respectful(w.kinds, Queue(kind, runAt, key))
    ensures Inv(Advance(w, Queue(kind, runAt, key))) && RowsKept(w, Advance(w, Queue(kind, runAt, key)))
  {
    var w' := Advance(w, Queue(kind, runAt, key));
    forall x | x in w'.held ensures HeldOk(w', x) {
      assert HeldOk(w, x);
    }
    forall a, b | a in w'.t.rows && b in w'.t.rows && w'.t.rows[a].key.Some? && w'.t.rows[a].key == w'.t.rows[b].key
      ensures a == b
    {
      if a in w.t.rows && b !in w.t.rows {
        assert KeyTaken(w.t, key);
      } else if b in w.t.rows && a !in w.t.rows {
        assert KeyTaken(w.t, key);
      }
    }
  }

  lemma {:induction false} EveryRun(w: World, steps: seq<Step>)
    requires Inv(w) && AllRespectful(w.kinds, steps)
    ensures Inv(Run(w, steps)) && RowsKept(w, Run(w, steps))
  {
    if |steps| > 0 {
      var init := steps[..|steps| - 1];
      EveryRun(w, init);
      EveryStepKeeps(Run(w, init), steps[|steps| - 1]);
      hide Inv, Advance;
    }
  }

  /** A job is lost only by being done: over any number of runners, crashes and
      retries, a row that was there and is gone had a handler return success on it,
      and is not periodic work. */
  lemma {:induction false} JobGoesOnlyWhenItsHandlerSucceeded(w: World, steps: seq<Step>, id: int)
    requires Inv(w) && AllRespectful(w.kinds, steps)
    requires id in w.t.rows && id !in Run(w, steps).t.rows
    ensures id in Run(w, steps).succeeded && !Periodic(w.kinds, w.t.rows[id].kind) && w.t.rows[id].kind in w.kinds
  {
    EveryRun(w, steps);
    assert MayGo(Run(w, steps), w.t.rows[id].kind, id);
  }

  lemma {:induction false} PeriodicStays(w: World, w': World, id: int)
    requires RowsKept(w, w') && id in w.t.rows && Periodic(w.kinds, w.t.rows[id].kind)
    ensures id in w'.t.rows
  {
  }

  ghost predicate ExactlyOneRow(t: Table, key: string, id: int) {
    && id in t.rows && t.rows[id].kind == key && t.rows[id].key == Some(key)
    && forall other :: other in t.rows && t.rows[other].key == Some(key) ==> other == id
  }

  /** ensurePeriodic, run at start-up by every server: from then on, in every state of
      every run, the kind has exactly one row, and it is the same row. */
  lemma {:induction false} PeriodicKindHasOneRowForEver(w: World, kind: string, steps: seq<Step>) returns (id: int)
    requires Inv(w) && Periodic(w.kinds, kind) && kind != "" && AllRespectful(w.kinds, steps)
    ensures var started := Advance(w, Queue(kind, None, kind));
      ExactlyOneRow(started.t, kind, id) && ExactlyOneRow(Run(started, steps).t, kind, id)
  {
    var queued := Queue(kind, None, kind);
    var started := Advance(w, queued);
    EveryStepKeeps(w, queued);
    if KeyTaken(w.t, kind) {
      id :| id in w.t.rows && w.t.rows[id].key == Some(kind);
    } else {
      id := w.t.nextId;
    }
    EveryRun(started, steps);
    hide Advance, Run;
    PeriodicStays(started, Run(started, steps), id);
  }

  // ---------------------------------------------------------------- leases

  predicate Live(w: World, r: int) {
    r in w.held && w.held[r].until > w.t.now
  }

  /** No two runners hold one job inside a live lease. */
  ghost predicate Exclusive(w: World) {
    forall a, b :: Live(w, a) && Live(w, b) && w.held[a].id == w.held[b].id ==> a == b
  }

  /** The row stays hidden as long as any live lease on it lasts. */
  ghost predicate Hidden(w: World) {
    forall r :: Live(w, r) && w.held[r].id in w.t.rows ==> w.t.rows[w.held[r].id].runAt >= w.held[r].until
  }

  ghost predicate Leased(w: World) {
    && Exclusive(w) && Hidden(w)
    && (forall id :: id in w.t.rows ==> id < w.t.nextId)
    && forall r :: r in w.held ==> w.held[r].id < w.t.nextId
  }

  /** When the runner writes, for how long the row is put away: None when the write
      deletes it or there is nothing to write to. */
  function PutAway(w: World, s: Step): Option<int> {
    match s
    case Write(r) =>
      if r in w.held && w.held[r].worked && w.held[r].id in w.t.rows
        && !(w.held[r].kind in w.kinds && w.kinds[w.held[r].kind].repeat <= 0)
      then Some(WholeSeconds(if w.held[r].kind in w.kinds then w.kinds[w.held[r].kind].repeat else BACKOFF_CAP))
      else None
    case HandlerBreaks(r, _, jitter) =>
      if r in w.held && !w.held[r].worked && w.held[r].id in w.t.rows
      then Some(WholeSeconds(if w.held[r].kind in w.kinds then Backoff(w.held[r].attempts, jitter) else BACKOFF_CAP))
      else None
    case _ => None
  }

  /** Somebody else's live lease on the job this runner is writing about outlasts the
      delay it writes. */
  ghost predicate CutsALeaseShort(w: World, s: Step) {
    && PutAway(w, s).Some?
    && exists other ::
         && other != s.runner && Live(w, other)
         && w.held[other].id == w.held[s.runner].id
         && w.held[other].until > w.t.now + 1000 * PutAway(w, s).value
  }

  lemma {:induction false} WriteIsAReschedule(w: World, s: Step)
    requires PutAway(w, s).Some?
    ensures var w' := Advance(w, s);
      && s.runner in w.held && w.held[s.runner].id in w.t.rows
      && w'.held == w.held - {s.runner} && w'.t.now == w.t.now && w'.t.nextId == w.t.nextId
      && w'.t.rows.Keys == w.t.rows.Keys
      && w'.t.rows[w.held[s.runner].id].runAt == w.t.now + 1000 * PutAway(w, s).value
      && forall id :: id in w.t.rows && id != w.held[s.runner].id ==> w'.t.rows[id] == w.t.rows[id]
  {
    hide Backoff, WholeSeconds;
  }

  /** Leases are exclusive after every step but one kind, and that one breaks what
      keeps them so: a runner that overran its lease, writing about a job that another
      has claimed since, brings the row back before the other's lease is up. */
  lemma {:induction false} LeasesKeptExactlyUnlessCutShort(w: World, s: Step)
    requires Leased(w)
    ensures Leased(Advance(w, s)) <==> !CutsALeaseShort(w, s)
  {
    var w' := Advance(w, s);
    if PutAway(w, s).Some? {
      WriteIsAReschedule(w, s);
      PuttingAway(w, w', s);
    } else {
      OtherStepsKeepLeases(w, s);
    }
  }

  lemma {:induction false} PuttingAway(w: World, w': World, s: Step)
    requires Leased(w) && PutAway(w, s).Some? && s.runner in w.held
    requires var id := w.held[s.runner].id;
      && id in w.t.rows && w'.held == w.held - {s.runner} && w'.t.now == w.t.now && w'.t.nextId == w.t.nextId
      && w'.t.rows.Keys == w.t.rows.Keys && w'.t.rows[id].runAt == w.t.now + 1000 * PutAway(w, s).value
      && forall x :: x in w.t.rows && x != id ==> w'.t.rows[x] == w.t.rows[x]
    ensures Leased(w') <==> !CutsALeaseShort(w, s)
  {
    var id := w.held[s.runner].id;
    hide PutAway;
    assert forall r :: Live(w', r) <==> Live(w, r) && r != s.runner;
    if CutsALeaseShort(w, s) {
      var other :| other != s.runner && Live(w, other) && w.held[other].id == id
        && w.held[other].until > w.t.now + 1000 * PutAway(w, s).value;
      assert Live(w', other) && w'.held[other].id == id;
      assert !Hidden(w');
    } else {
      forall r | Live(w', r) && w'.held[r].id in w'.t.rows ensures w'.t.rows[w'.held[r].id].runAt >= w'.held[r].until {
        assert Live(w, r);
      }
      forall a, b | Live(w', a) && Live(w', b) && w'.held[a].id == w'.held[b].id ensures a == b {
        assert Live(w, a) && Live(w, b);
      }
    }
  }

  lemma {:induction false} DueIsNotHeldLive(w: World, id: int)
    requires Hidden(w)
    ensures IsDue(w.t, id) ==> forall r :: Live(w, r) ==> w.held[r].id != id
  {
  }

  lemma {:induction false} OtherStepsKeepLeases(w: World, s: Step)
    requires Leased(w) && PutAway(w, s).None?
    ensures Leased(Advance(w, s))
  {
    hide Backoff, WholeSeconds;
    var w' := Advance(w, s);
    if s.Take? {
      DueIsNotHeldLive(w, s.id);
    }
    forall a, b | Live(w', a) && Live(w', b) && w'.held[a].id == w'.held[b].id ensures a == b {
      assert a in w.held ==> Live(w, a);
      assert b in w.held ==> Live(w, b);
    }
    forall r | Live(w', r) && w'.held[r].id in w'.t.rows ensures w'.t.rows[w'.held[r].id].runAt >= w'.held[r].until {
      if r in w.held {
        assert Live(w, r);
      }
    }
  }

  /** A step that cuts a lease short costs exclusivity itself: as soon as the row is due
      again the runner that wrote can take the job, with the other still at work on it. */
  lemma {:induction false} CuttingShortSharesTheJob(w: World, s: Step)
    requires Leased(w) && CutsALeaseShort(w, s)
    ensures var id := w.held[s.runner].id;
      !Exclusive(Advance(Advance(Advance(w, s), Wait(UntilDue(w, s))), Take(s.runner, id)))
  {
    hide PutAway;
    RunnerOf(w, s);
    var id := w.held[s.runner].id;
    WriteIsAReschedule(w, s);
    var other :| other != s.runner && Live(w, other) && w.held[other].id == id
      && w.held[other].until > w.t.now + 1000 * PutAway(w, s).value;
    var waited := Advance(Advance(w, s), Wait(UntilDue(w, s)));
    WaitedOut(w, s, other, id);
    TwoAtWork(waited, s.runner, other, id);
  }

  /** How long until the row this step puts away is due again. */
  function UntilDue(w: World, s: Step): nat {
    if PutAway(w, s).Some? && PutAway(w, s).value > 0 then 1000 * PutAway(w, s).value else 0
  }

  lemma {:induction false} WaitedOut(w: World, s: Step, other: int, id: int)
    requires PutAway(w, s).Some? && other != s.runner && Live(w, other) && w.held[other].id == id
    requires s.runner in w.held && w.held[s.runner].id == id
    requires w.held[other].until > w.t.now + 1000 * PutAway(w, s).value
    ensures var waited := Advance(Advance(w, s), Wait(UntilDue(w, s)));
      && IsDue(waited.t, id) && s.runner !in waited.held
      && Live(waited, other) && waited.held[other].id == id
  {
    WriteIsAReschedule(w, s);
    hide PutAway, Settle;
  }

  lemma {:induction false} TwoAtWork(w: World, r: int, other: int, id: int)
    requires IsDue(w.t, id) && r !in w.held && r != other && Live(w, other) && w.held[other].id == id
    ensures !Exclusive(Advance(w, Take(r, id)))
  {
    var w' := Advance(w, Take(r, id));
    assert Live(w', r) && Live(w', other) && w'.held[r].id == w'.held[other].id;
  }

  ghost predicate SharedAfter(w: World, s: Step, ms: nat, r: int, id: int) {
    !Exclusive(Run(w, [s, Wait(ms), Take(r, id)]))
  }

  lemma {:induction false} RunThree(w: World, a: Step, b: Step, c: Step)
    ensures Run(w, [a, b, c]) == Advance(Advance(Advance(w, a), b), c)
  {
    hide Advance;
    assert [a, b, c][..2] == [a, b] && [a, b][..1] == [a] && [a][..0] == [];
    assert Run(w, [a]) == Advance(Run(w, []), a);
    assert Run(w, [a, b]) == Advance(Run(w, [a]), b);
  }

  /** From any state in which leases are in order, a step leads to two runners at work on
      one job, once some time has gone by and somebody takes it, exactly when it cuts a
      lease short. */
  lemma {:induction false} JobIsSharedNextExactlyWhenALeaseIsCutShort(w: World, s: Step)
    requires Leased(w)
    ensures CutsALeaseShort(w, s) <==> exists ms, r, id :: SharedAfter(w, s, ms, r, id)
  {
    hide Advance, PutAway, CutsALeaseShort;
    if CutsALeaseShort(w, s) {
      RunnerOf(w, s);
      CuttingShortSharesTheJob(w, s);
      RunThree(w, s, Wait(UntilDue(w, s)), Take(s.runner, w.held[s.runner].id));
      assert SharedAfter(w, s, UntilDue(w, s), s.runner, w.held[s.runner].id);
    } else {
      LeasesKeptExactlyUnlessCutShort(w, s);
      forall ms: nat, r, id ensures !SharedAfter(w, s, ms, r, id) {
        WaitAndTakeCutNothing(Advance(w, s), Wait(ms));
        LeasesKeptExactlyUnlessCutShort(Advance(w, s), Wait(ms));
        WaitAndTakeCutNothing(Advance(Advance(w, s), Wait(ms)), Take(r, id));
        LeasesKeptExactlyUnlessCutShort(Advance(Advance(w, s), Wait(ms)), Take(r, id));
        RunThree(w, s, Wait(ms), Take(r, id));
      }
    }
  }

  lemma {:induction false} RunnerOf(w: World, s: Step)
    requires CutsALeaseShort(w, s)
    ensures (s.Write? || s.HandlerBreaks?) && s.runner in w.held
  {
  }

  lemma {:induction false} WaitAndTakeCutNothing(w: World, s: Step)
    requires s.Wait? || s.Take?
    ensures !CutsALeaseShort(w, s)
  {
  }

  /** Over every run in which no step cuts a lease short, no two runners ever hold one
      job inside a live lease. */
  lemma {:induction false} LeasesAreExclusiveUnlessCutShort(w: World, steps: seq<Step>)
    requires Leased(w) && forall i :: 0 <= i < |steps| ==> !CutsALeaseShort(Run(w, steps[..i]), steps[i])
    ensures Leased(Run(w, steps)) && Exclusive(Run(w, steps))
  {
    hide CutsALeaseShort, Advance;
    if |steps| > 0 {
      var init, last := steps[..|steps| - 1], steps[|steps| - 1];
      forall i | 0 <= i < |init| ensures !CutsALeaseShort(Run(w, init[..i]), init[i]) {
        assert init[..i] == steps[..i];
      }
      LeasesAreExclusiveUnlessCutShort(w, init);
      assert !CutsALeaseShort(Run(w, steps[..|steps| - 1]), steps[|steps| - 1]);
      LeasesKeptExactlyUnlessCutShort(Run(w, init), last);
    }
  }

  /** Every runner writes while its own lease is live. */
  ghost predicate InTime(w: World, s: Step) {
    (s.Write? || s.HandlerBreaks?) && s.runner in w.held ==> Live(w, s.runner)
  }

  lemma {:induction false} InTimeCutsNothing(w: World, s: Step)
    requires Exclusive(w) && InTime(w, s)
    ensures !CutsALeaseShort(w, s)
  {
  }

  /** So it is whenever no runner overruns its own lease. */
  lemma {:induction false} LeasesAreExclusiveWhenNobodyOverruns(w: World, steps: seq<Step>)
    requires Leased(w) && forall i :: 0 <= i < |steps| ==> InTime(Run(w, steps[..i]), steps[i])
    ensures Leased(Run(w, steps)) && Exclusive(Run(w, steps))
  {
    hide CutsALeaseShort, Advance, InTime;
    if |steps| > 0 {
      var init, last := steps[..|steps| - 1], steps[|steps| - 1];
      forall i | 0 <= i < |init| ensures InTime(Run(w, init[..i]), init[i]) {
        assert init[..i] == steps[..i];
      }
      LeasesAreExclusiveWhenNobodyOverruns(w, init);
      assert InTime(Run(w, steps[..|steps| - 1]), steps[|steps| - 1]);
      InTimeCutsNothing(Run(w, init), last);
      LeasesKeptExactlyUnlessCutShort(Run(w, init), last);
    }
  }

  /** And when one does: the second runner claimed the job after the first one's lease
      ran out, the first then failed and put the job back for two seconds, and a third
      claimed it while the second was still working inside its lease. */
  lemma {:induction false} OverrunSharesAJob(kinds: Kinds, reason: string)
    requires "mail" in kinds
    ensures var start := World(Table(map[7 := JobRow("mail", 0, None, 0, "")], 8, 0), kinds, map[], {});
      var end := Run(start,
        [Take(1, 7), Wait(300_000), Take(2, 7), HandlerBreaks(1, reason, 0), Wait(2_000), Take(3, 7)]);
      Leased(start) && Live(end, 2) && Live(end, 3) && end.held[2].id == end.held[3].id == 7
  {
    var start := World(Table(map[7 := JobRow("mail", 0, None, 0, "")], 8, 0), kinds, map[], {});
    var a := Advance(start, Take(1, 7));
    var b := Advance(a, Wait(300_000));
    var c := Advance(b, Take(2, 7));
    var d := Advance(c, HandlerBreaks(1, reason, 0));
    FirstRetryIsTwoSeconds();
    hide Backoff, WholeSeconds;
    var e := Advance(d, Wait(2_000));
    RunSix(start, Take(1, 7), Wait(300_000), Take(2, 7), HandlerBreaks(1, reason, 0), Wait(2_000), Take(3, 7));
    hide Run;
    assert d.t.rows[7].runAt == 302_000;
    assert Live(Advance(e, Take(3, 7)), 2);
  }

  lemma {:induction false} FirstRetryIsTwoSeconds()
    ensures WholeSeconds(Backoff(1, 0)) == 2
  {
    assert Pow2(1) == 2;
  }

  lemma {:induction false} RunSix(w: World, a: Step, b: Step, c: Step, d: Step, e: Step, f: Step)
    ensures Run(w, [a, b, c, d, e, f]) == Advance(Advance(Advance(Advance(Advance(Advance(w, a), b), c), d), e), f)
  {
    hide Advance;
    assert [a, b, c, d, e, f][..5] == [a, b, c, d, e] && [a, b, c, d, e][..4] == [a, b, c, d]
      && [a, b, c, d][..3] == [a, b, c];
    assert [a, b, c][..2] == [a, b] && [a, b][..1] == [a] && [a][..0] == [];
    assert Run(w, [a]) == Advance(Run(w, []), a);
    assert Run(w, [a, b]) == Advance(Run(w, [a]), b);
    assert Run(w, [a, b, c]) == Advance(Run(w, [a, b]), c);
    assert Run(w, [a, b, c, d]) == Advance(Run(w, [a, b, c]), d);
    assert Run(w, [a, b, c, d, e]) == Advance(Run(w, [a, b, c, d]), e);
  }
}
