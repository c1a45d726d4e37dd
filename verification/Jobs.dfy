/** The durable job table and the runners that poll it (internal/jobs/jobs.go).
    Instants and durations are milliseconds; a delay is stored in whole seconds. */
module Jobs {
  import opened Common

  const LEASE_SECONDS := 300
  const BACKOFF_CAP := 3_600_000

  /** A handler and how often it repeats, zero for one-shot work. */
  datatype Registration = Registration(repeat: int)

  type Kinds = map<string, Registration>

  datatype JobRow = JobRow(kind: string, runAt: int, key: Option<string>, attempts: int, lastError: string)

  datatype Table = Table(rows: map<int, JobRow>, nextId: int, now: int)

  // ---------------------------------------------------------------- statements

  predicate KeyTaken(t: Table, key: string) {
    exists id :: id in t.rows && t.rows[id].key == Some(key)
  }

  /** EnqueueJob: an empty key never conflicts, and no instant means now. */
  function Enqueue(t: Table, kind: string, runAt: Option<int>, key: string): (Table, bool) {
    if key != "" && KeyTaken(t, key) then (t, false)
    else
      var at := if runAt.Some? then runAt.value else t.now;
      var row := JobRow(kind, at, if key == "" then None else Some(key), 0, "");
      (t.(rows := t.rows[t.nextId := row], nextId := t.nextId + 1), true)
  }

  predicate IsDue(t: Table, id: int) {
    id in t.rows && t.rows[id].runAt <= t.now
  }

  /** ClaimJob, on the row it picked. */
  function Claim(t: Table, id: int): Table
    requires id in t.rows
  {
    var row := t.rows[id];
    t.(rows := t.rows[id := row.(runAt := t.now + 1000 * LEASE_SECONDS, attempts := row.attempts + 1)])
  }

  function Reschedule(t: Table, id: int, seconds: int, reason: string): Table {
    if id !in t.rows then t
    else t.(rows := t.rows[id := t.rows[id].(runAt := t.now + 1000 * seconds, lastError := reason)])
  }

  function Delete(t: Table, id: int): Table {
    t.(rows := t.rows - {id})
  }

  function Pow2(n: nat): int {
    if n == 0 then 1 else 2 * Pow2(n - 1)
  }

  /** The jitter is under a second. */
  function Backoff(attempts: int, jitter: int): int {
    var n := if attempts < 1 then 1 else attempts;
    var doubled := if n < 32 then Pow2(n) * 1000 else BACKOFF_CAP;
    (if doubled < BACKOFF_CAP then doubled else BACKOFF_CAP) + jitter
  }

  /** int32(d.Seconds()). */
  function WholeSeconds(d: int): int {
    TruncDiv(d, 1000)
  }

  lemma {:induction false} Pow2Positive(n: nat)
    ensures Pow2(n) >= 1 && (n > 0 ==> Pow2(n) >= 2)
  {
    if n > 0 {
      Pow2Positive(n - 1);
    }
  }

  /** A failed job always waits at least two seconds and at most an hour. The jitter,
      meant to keep jobs that failed together from retrying together, never reaches
      the row: whole seconds are stored and it is less than one. */
  lemma {:induction false} JitterIsLost(attempts: int, jitter: int)
    requires 0 <= jitter < 1000
    ensures WholeSeconds(Backoff(attempts, jitter)) == WholeSeconds(Backoff(attempts, 0))
    ensures 2 <= WholeSeconds(Backoff(attempts, jitter)) <= 3600
  {
    var n: nat := if attempts < 1 then 1 else attempts;
    Pow2Positive(n);
    var seconds := if n < 32 && Pow2(n) < 3600 then Pow2(n) else 3600;
    SecondsOf(seconds, jitter);
    SecondsOf(seconds, 0);
    assert Backoff(attempts, 0) == 1000 * seconds;
    hide WholeSeconds;
  }

  lemma {:induction false} SecondsOf(seconds: nat, ms: int)
    requires 0 <= ms < 1000
    ensures WholeSeconds(1000 * seconds + ms) == seconds
  {
  }

  // ---------------------------------------------------------------- one job, start to finish

  datatype Verdict = Worked | Broke(reason: string, jitter: int)

  /** What a runner writes once the handler is back. */
  function Settle(t: Table, kinds: Kinds, id: int, kind: string, attempts: int, v: Verdict): Table {
    if kind !in kinds then Reschedule(t, id, WholeSeconds(BACKOFF_CAP), "no handler registered for " + kind)
    else
      match v
      case Broke(reason, jitter) => Reschedule(t, id, WholeSeconds(Backoff(attempts, jitter)), reason)
      case Worked =>
        if kinds[kind].repeat > 0 then Reschedule(t, id, WholeSeconds(kinds[kind].repeat), "")
        else Delete(t, id)
  }

  function RunOne(t: Table, kinds: Kinds, id: int, v: Verdict): Table
    requires id in t.rows
  {
    var row := t.rows[id];
    Settle(Claim(t, id), kinds, id, row.kind, row.attempts + 1, v)
  }

  predicate Sensible(v: Verdict) {
    v.Broke? ==> 0 <= v.jitter < 1000
  }

  /** A row that has just been run is due again at the same instant exactly when it is
      periodic work that worked and repeats in under a second: its delay is stored as
      no seconds at all, and a drain would run it for ever. */
  lemma {:induction false} DueAgainAtOnceExactlyWhenRepeatIsUnderASecond(t: Table, kinds: Kinds, id: int, v: Verdict)
    requires id in t.rows && Sensible(v)
    ensures IsDue(RunOne(t, kinds, id, v), id)
       <==> t.rows[id].kind in kinds && v.Worked? && 0 < kinds[t.rows[id].kind].repeat < 1000
  {
    if v.Broke? {
      JitterIsLost(t.rows[id].attempts + 1, v.jitter);
      hide Backoff;
    }
  }

  // ---------------------------------------------------------------- what it leaves of the row

  lemma {:induction false} Pow2Grows(n: nat)
    ensures n >= 12 ==> Pow2(n) >= 4096
  {
    if n > 12 {
      Pow2Grows(n - 1);
    }
  }

  /** The delay after a failure, in whole seconds: two, then twice the one before, and an
      hour once that is less. */
  lemma {:induction false} DelayDoublesToAnHour(attempts: int, jitter: int, next: int)
    requires 0 <= jitter < 1000 && 0 <= next < 1000
    ensures attempts <= 1 ==> WholeSeconds(Backoff(attempts, jitter)) == 2
    ensures attempts >= 1 ==>
      WholeSeconds(Backoff(attempts + 1, next)) == Min(2 * WholeSeconds(Backoff(attempts, jitter)), 3600)
  {
    var n: nat := if attempts < 1 then 1 else attempts;
    Pow2Positive(n);
    Pow2Grows(n);
    Pow2Grows(n + 1);
    assert Pow2(1) == 2 * Pow2(0) && Pow2(n + 1) == 2 * Pow2(n);
    SecondsOf(if n < 32 && Pow2(n) < 3600 then Pow2(n) else 3600, jitter);
    SecondsOf(if n + 1 < 32 && Pow2(n + 1) < 3600 then Pow2(n + 1) else 3600, next);
    hide WholeSeconds;
  }

  /** A row that has been run: gone if it was one-shot and worked; put off by its interval
      with a clean record if it is periodic; put off by its delay, or by an hour when
      nobody knows the kind, with the reason otherwise. One more attempt is counted every
      time, and neither kind nor key ever changes. */
  lemma {:induction false} RunLeavesTheRow(t: Table, kinds: Kinds, id: int, v: Verdict)
    requires id in t.rows
    ensures var row, t' := t.rows[id], RunOne(t, kinds, id, v); var known := row.kind in kinds;
      && t'.now == t.now && t'.nextId == t.nextId
      && (forall other :: other != id ==> SameRow(t', t, other))
      && (known && v.Worked? && kinds[row.kind].repeat <= 0 <==> id !in t'.rows)
      && (id in t'.rows ==>
           && t'.rows[id].kind == row.kind && t'.rows[id].key == row.key && t'.rows[id].attempts == row.attempts + 1)
      && (known && v.Worked? && kinds[row.kind].repeat > 0 ==>
           && t'.rows[id].runAt == t.now + 1000 * (kinds[row.kind].repeat / 1000) && t'.rows[id].lastError == "")
      && (known && v.Broke? ==>
           && t'.rows[id].runAt == t.now + 1000 * WholeSeconds(Backoff(row.attempts + 1, v.jitter))
           && t'.rows[id].lastError == v.reason)
      && (!known ==>
           && t'.rows[id].runAt == t.now + 3_600_000
           && t'.rows[id].lastError == "no handler registered for " + row.kind)
  {
    hide Backoff;
  }

  /** A job whose runner died comes back by itself after five minutes, to the millisecond,
      with the attempt counted. */
  lemma {:induction false} LeaseLastsFiveMinutes(t: Table, id: int, ms: nat)
    requires id in t.rows
    ensures var claimed := Claim(t, id);
      && (IsDue(claimed.(now := t.now + ms), id) <==> ms >= 300_000)
      && claimed.rows[id] == t.rows[id].(runAt := claimed.rows[id].runAt, attempts := t.rows[id].attempts + 1)
  {
  }

  /** Work that is queued is a new row, unless its key is there already. */
  lemma {:induction false} QueuedWorkIsANewRow(t: Table, kind: string, runAt: Option<int>, key: string)
    ensures var (t', added) := Enqueue(t, kind, runAt, key);
      && (added <==> key == "" || forall id :: id in t.rows ==> t.rows[id].key != Some(key))
      && (!added ==> t' == t)
      && (added ==>
           && t' == t.(rows := t.rows[t.nextId := t'.rows[t.nextId]], nextId := t.nextId + 1)
           && var row := t'.rows[t.nextId];
              row.kind == kind && row.attempts == 0 && row.lastError == ""
              && row.key == (if key == "" then None else Some(key))
              && (runAt.Some? ==> row.runAt == runAt.value) && (runAt.None? ==> row.runAt == t.now))
  {
  }

  /** Periodic work counts its attempts for ever, so a kind that has run a dozen times
      waits an hour after its first failure. */
  lemma {:induction false} OldPeriodicWorkWaitsAnHour(t: Table, kinds: Kinds, id: int, reason: string, jitter: int)
    requires id in t.rows && t.rows[id].kind in kinds && 0 <= jitter < 1000
    ensures t.rows[id].attempts >= 11 <==>
      IsDue(RunOne(t, kinds, id, Broke(reason, jitter)).(now := t.now + 3_600_000), id)
      && !IsDue(RunOne(t, kinds, id, Broke(reason, jitter)).(now := t.now + 3_599_999), id)
  {
    var n := t.rows[id].attempts + 1;
    DelayAnHourFrom(n, jitter);
    hide Backoff, WholeSeconds;
  }

  lemma {:induction false} DelayAnHourFrom(attempts: int, jitter: int)
    requires 0 <= jitter < 1000
    ensures WholeSeconds(Backoff(attempts, jitter)) == 3600 <==> attempts >= 12
    ensures 2 <= WholeSeconds(Backoff(attempts, jitter)) <= 3600
  {
    JitterIsLost(attempts, jitter);
    if attempts <= 1 {
      DelayDoublesToAnHour(attempts, jitter, jitter);
    } else if attempts >= 12 {
      Pow2Grows(attempts);
      SecondsOf(3600, jitter);
    } else {
      Pow2Below(attempts);
      SecondsOf(Pow2(attempts), jitter);
    }
    hide WholeSeconds;
  }

  lemma {:induction false} Pow2Below(n: nat)
    requires n <= 11
    ensures 1 <= Pow2(n) <= 2048
    decreases 11 - n
  {
    if n < 11 {
      Pow2Below(n + 1);
    } else {
      assert Pow2(11) == 2 * Pow2(10) == 4 * Pow2(9) == 8 * Pow2(8) == 16 * Pow2(7) == 32 * Pow2(6);
      assert Pow2(6) == 2 * Pow2(5) == 4 * Pow2(4) == 8 * Pow2(3) == 16 * Pow2(2) == 32 * Pow2(1);
    }
    Pow2Positive(n);
  }

  // ---------------------------------------------------------------- the runner

  class Runner {
    var kinds: Kinds
    var rows: map<int, JobRow>
    var nextId: int
    var now: int

    ghost function State(): Table
      reads this
    {
      Table(rows, nextId, now)
    }

    constructor (now: int)
      ensures State() == Table(map[], 0, now) && kinds == map[]
    {
      kinds, rows, nextId, this.now := map[], map[], 0, now;
    }

    method Handle(kind: string)
      modifies this`kinds
      ensures kinds == old(kinds)[kind := Registration(0)]
    {
      kinds := kinds[kind := Registration(0)];
    }

    method Every(kind: string, interval: int)
      modifies this`kinds
      ensures kinds == old(kinds)[kind := Registration(interval)]
    {
      kinds := kinds[kind := Registration(interval)];
    }

    method EnqueueJob(kind: string, runAt: Option<int>, key: string) returns (added: bool)
      modifies this`rows, this`nextId
      ensures (State(), added) == Enqueue(old(State()), kind, runAt, key)
    {
      if key != "" && exists id :: id in rows && rows[id].key == Some(key) {
        return false;
      }
      var at := if runAt.Some? then runAt.value else now;
      rows := rows[nextId := JobRow(kind, at, if key == "" then None else Some(key), 0, "")];
      nextId := nextId + 1;
      return true;
    }

    /** ensurePeriodic: one row per periodic kind, keyed on the kind. */
    method EnsurePeriodic()
      requires forall id :: id in rows ==> id < nextId
      modifies this`rows, this`nextId
      ensures forall kind :: kind in kinds && kind != "" && kinds[kind].repeat != 0 ==> KeyTaken(State(), kind)
      ensures forall id :: id in old(rows) ==> id in rows && rows[id] == old(rows)[id]
      ensures forall id :: id in rows && id !in old(rows) ==>
        && rows[id].kind in kinds && kinds[rows[id].kind].repeat != 0
        && (rows[id].kind != "" ==> rows[id].key == Some(rows[id].kind) && !KeyTaken(old(State()), rows[id].kind))
        && rows[id].runAt == now && rows[id].attempts == 0 && rows[id].lastError == ""
    {
      var left := kinds.Keys;
      while left != {}
        invariant left <= kinds.Keys && kinds == old(kinds) && now == old(now)
        invariant forall id :: id in rows ==> id < nextId
        invariant forall id :: id in old(rows) ==> id in rows && rows[id] == old(rows)[id]
        invariant forall kind :: kind in kinds && kind !in left && kind != "" && kinds[kind].repeat != 0 ==>
            KeyTaken(State(), kind)
        invariant forall id :: id in rows && id !in old(rows) ==>
          && rows[id].kind in kinds && rows[id].kind !in left && kinds[rows[id].kind].repeat != 0
          && (rows[id].kind != "" ==> rows[id].key == Some(rows[id].kind) && !KeyTaken(old(State()), rows[id].kind))
          && rows[id].runAt == now && rows[id].attempts == 0 && rows[id].lastError == ""
        decreases |left|
      {
        var kind :| kind in left;
        left := left - {kind};
        if kinds[kind].repeat != 0 {
          ghost var before := State();
          var added := EnqueueJob(kind, None, kind);
          StillTaken(before, State());
          if added && kind != "" {
            assert rows[before.nextId].key == Some(kind);
          }
        }
      }
    }

    /** ORDER BY run_at LIMIT 1 over the rows that are due, leased on the way out. */
    method ClaimNext() returns (claimed: Option<int>)
      modifies this`rows
      ensures claimed.None? ==> State() == old(State()) && forall id :: !IsDue(State(), id)
      ensures claimed.Some? ==>
        && IsDue(old(State()), claimed.value) && State() == Claim(old(State()), claimed.value)
        && forall id :: id in old(rows) ==> old(rows)[claimed.value].runAt <= old(rows)[id].runAt
    {
      claimed := None;
      var left := rows.Keys;
      while left != {}
        invariant left <= rows.Keys && rows == old(rows)
        invariant claimed.None? ==> forall id :: id in rows && id !in left ==> rows[id].runAt > now
        invariant claimed.Some? ==> IsDue(State(), claimed.value)
        invariant claimed.Some? ==> forall id :: id in rows && id !in left ==>
            rows[claimed.value].runAt <= rows[id].runAt
        decreases |left|
      {
        SomeMember(left);
        var id :| id in left;
        left := left - {id};
        if rows[id].runAt <= now && (claimed.None? || rows[id].runAt < rows[claimed.value].runAt) {
          claimed := Some(id);
        }
      }
      if claimed.Some? {
        var row := rows[claimed.value];
        rows := rows[claimed.value := row.(runAt := now + 1000 * LEASE_SECONDS, attempts := row.attempts + 1)];
      }
    }

    method RescheduleJob(id: int, seconds: int, reason: string)
      modifies this`rows
      ensures State() == Reschedule(old(State()), id, seconds, reason)
    {
      if id in rows {
        rows := rows[id := rows[id].(runAt := now + 1000 * seconds, lastError := reason)];
      }
    }

    /** Once: `verdicts` says what each job's handler comes back with. */
    method Once(verdicts: map<int, Verdict>) returns (ran: Option<int>)
      modifies this`rows
      ensures ran.None? ==> State() == old(State()) && forall id :: !IsDue(State(), id)
      ensures ran.Some? ==>
        && IsDue(old(State()), ran.value)
        && State() == RunOne(old(State()), kinds, ran.value, VerdictOn(verdicts, ran.value))
        && forall id :: id in old(rows) ==> old(rows)[ran.value].runAt <= old(rows)[id].runAt
    {
      ran := ClaimNext();
      if ran.None? {
        return;
      }
      var job := rows[ran.value];
      if job.kind !in kinds {
        RescheduleJob(ran.value, WholeSeconds(BACKOFF_CAP), "no handler registered for " + job.kind);
        return;
      }
      match VerdictOn(verdicts, ran.value)
      case Broke(reason, jitter) =>
        RescheduleJob(ran.value, WholeSeconds(Backoff(job.attempts, jitter)), reason);
      case Worked =>
        if kinds[job.kind].repeat > 0 {
          RescheduleJob(ran.value, WholeSeconds(kinds[job.kind].repeat), "");
        } else {
          rows := rows - {ran.value};
        }
    }

    /** drain: until nothing is due. The clock stands still and the handlers enqueue
        nothing; no periodic work repeats in under a second. It ends, having run every
        job that was due, once, in the order they fell due, and left the rest alone. */
    method Drain(verdicts: map<int, Verdict>) returns (ran: seq<int>)
      requires forall kind :: kind in kinds ==> kinds[kind].repeat <= 0 || kinds[kind].repeat >= 1000
      requires forall id :: id in verdicts ==> Sensible(verdicts[id])
      modifies this`rows
      ensures forall id :: !IsDue(State(), id)
      ensures forall id :: id in ran <==> IsDue(old(State()), id)
      ensures Drained(old(State()), State(), kinds, verdicts, ran)
    {
      ran := [];
      while true
        invariant Drained(old(State()), State(), kinds, verdicts, ran)
        decreases |DueSet(State())|
      {
        ghost var before := State();
        var next := Once(verdicts);
        if next.None? {
          DrainedMeansAllRun(old(State()), State(), kinds, verdicts, ran);
          return;
        }
        DrainStep(old(State()), before, kinds, verdicts, ran, next.value);
        ran := ran + [next.value];
      }
    }
  }

  // ---------------------------------------------------------------- draining

  function RunAt(t: Table, id: int): int {
    if id in t.rows then t.rows[id].runAt else 0
  }

  /** These jobs have each been run once, in the order they fell due, no job still due
      fell due before any of them, and every other row is as it was. */
  ghost predicate Drained(start: Table, t: Table, kinds: Kinds, verdicts: map<int, Verdict>, ran: seq<int>) {
    && t.now == start.now
    && (forall id :: id in ran ==> RanOnce(start, t, kinds, id, VerdictOn(verdicts, id)))
    && (forall id :: id !in ran ==> SameRow(t, start, id))
    && (forall i, j :: 0 <= i < j < |ran| ==> ran[i] != ran[j])
    && (forall i, j :: 0 <= i < j < |ran| ==> RunAt(start, ran[i]) <= RunAt(start, ran[j]))
    && forall i, id {:trigger ran[i], IsDue(t, id)} :: 0 <= i < |ran| && IsDue(t, id) ==>
       RunAt(start, ran[i]) <= RunAt(start, id)
  }

  ghost predicate RanOnce(start: Table, t: Table, kinds: Kinds, id: int, v: Verdict) {
    IsDue(start, id) && !IsDue(t, id) && SameRow(t, RunOne(start, kinds, id, v), id)
  }

  lemma {:induction false} DrainedMeansAllRun(start: Table, t: Table, kinds: Kinds, verdicts: map<int, Verdict>,
        ran: seq<int>)
    requires Drained(start, t, kinds, verdicts, ran) && forall id :: !IsDue(t, id)
    ensures forall id :: id in ran <==> IsDue(start, id)
  {
    forall id ensures id in ran <==> IsDue(start, id) {
      if id in ran {
        assert RanOnce(start, t, kinds, id, VerdictOn(verdicts, id));
      } else {
        assert SameRow(t, start, id) && !IsDue(t, id);
      }
    }
  }

  lemma {:induction false} RanIsNotDue(start: Table, t: Table, kinds: Kinds, verdicts: map<int, Verdict>, ran: seq<int>)
    requires Drained(start, t, kinds, verdicts, ran)
    ensures forall id :: IsDue(t, id) ==> id !in ran
  {
    forall id | id in ran ensures !IsDue(t, id) {
      assert RanOnce(start, t, kinds, id, VerdictOn(verdicts, id));
    }
  }

  lemma {:induction false} SomeMember(s: set<int>)
    requires s != {}
    ensures exists x :: x in s
  {
    if forall x :: x !in s {
      assert false;
    }
  }

  lemma {:induction false} DrainStep(start: Table, t: Table, kinds: Kinds, verdicts: map<int, Verdict>,
        ran: seq<int>, id: int)
    requires Drained(start, t, kinds, verdicts, ran) && IsDue(t, id)
    requires forall other :: other in t.rows ==> t.rows[id].runAt <= t.rows[other].runAt
    requires forall kind :: kind in kinds ==> kinds[kind].repeat <= 0 || kinds[kind].repeat >= 1000
    requires Sensible(VerdictOn(verdicts, id))
    ensures var t' := RunOne(t, kinds, id, VerdictOn(verdicts, id));
      Drained(start, t', kinds, verdicts, ran + [id]) && |DueSet(t')| < |DueSet(t)|
  {
    var v := VerdictOn(verdicts, id);
    var t', ran' := RunOne(t, kinds, id, v), ran + [id];
    RunningOne(t, kinds, id, v);
    FewerDue(t, t', id);
    RanIsNotDue(start, t, kinds, verdicts, ran);
    assert SameRow(t, start, id);
    SameRowSameRun(start, t, kinds, id, v);
    hide RunOne, DueSet;
    forall x | x in ran' ensures RanOnce(start, t', kinds, x, VerdictOn(verdicts, x)) {
      if x != id {
        assert RanOnce(start, t, kinds, x, VerdictOn(verdicts, x)) && SameRow(t', t, x);
      }
    }
    forall x | x !in ran' ensures SameRow(t', start, x) {
      assert x !in ran && SameRow(t, start, x) && SameRow(t', t, x);
    }
    forall i, x | 0 <= i < |ran'| && IsDue(t', x) ensures RunAt(start, ran'[i]) <= RunAt(start, x) {
      assert x != id && SameRow(t', t, x) && IsDue(t, x);
      assert x !in ran;
      assert SameRow(t, start, x);
      if i < |ran| {
        assert ran'[i] == ran[i];
      }
    }
    forall i | 0 <= i < |ran| ensures ran[i] != id && RunAt(start, ran[i]) <= RunAt(start, id) {
    }
  }

  lemma {:induction false} SameRowSameRun(t: Table, u: Table, kinds: Kinds, id: int, v: Verdict)
    requires id in t.rows && SameRow(u, t, id) && t.now == u.now
    ensures SameRow(RunOne(u, kinds, id, v), RunOne(t, kinds, id, v), id)
  {
    hide Backoff, WholeSeconds;
  }

  function VerdictOn(verdicts: map<int, Verdict>, id: int): Verdict {
    if id in verdicts then verdicts[id] else Worked
  }

  predicate SameRow(t: Table, u: Table, id: int) {
    (id in t.rows <==> id in u.rows) && (id in t.rows ==> t.rows[id] == u.rows[id])
  }

  ghost function DueSet(t: Table): set<int> {
    set id | id in t.rows && t.rows[id].runAt <= t.now
  }

  lemma {:induction false} StillTaken(t: Table, t': Table)
    requires forall id :: id in t.rows ==> id in t'.rows && t'.rows[id] == t.rows[id]
    ensures forall key :: KeyTaken(t, key) ==> KeyTaken(t', key)
  {
    forall key | KeyTaken(t, key) ensures KeyTaken(t', key) {
      var id :| id in t.rows && t.rows[id].key == Some(key);
      assert id in t'.rows;
    }
  }

  lemma {:induction false} RunningOne(t: Table, kinds: Kinds, id: int, v: Verdict)
    requires id in t.rows && Sensible(v)
    requires forall kind :: kind in kinds ==> kinds[kind].repeat <= 0 || kinds[kind].repeat >= 1000
    ensures var t' := RunOne(t, kinds, id, v);
      && t'.now == t.now && t'.nextId == t.nextId && !IsDue(t', id)
      && forall other :: other != id ==> SameRow(t', t, other)
  {
    DueAgainAtOnceExactlyWhenRepeatIsUnderASecond(t, kinds, id, v);
    hide Backoff, WholeSeconds;
  }

  lemma {:induction false} FewerDue(t: Table, t': Table, id: int)
    requires IsDue(t, id) && !IsDue(t', id) && t'.now == t.now
    requires forall other :: other != id ==> SameRow(t', t, other)
    ensures |DueSet(t')| < |DueSet(t)|
  {
    assert DueSet(t') == DueSet(t) - {id} by {
      forall x ensures x in DueSet(t') <==> x in DueSet(t) && x != id {
        if x != id {
          assert SameRow(t', t, x);
        }
      }
    }
  }
}
