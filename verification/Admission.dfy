/** Keyed admission, phase by phase.

    A keyed fetch is a transaction: take the advisory lock, start the statement
    (which fixes its snapshot), lock candidate rows and rank them per key,
    commit. Other workers' statements run between any two of these phases. They
    may settle, reclaim, cancel, enqueue or lease unkeyed jobs; what they may not
    do is change a row this transaction has locked, or admit keyed jobs, which
    takes the same lock. */
module Admission {
  import opened Prelude
  import opened JobTable
  import opened Queue
  import opened QueueInvariant

  predicate Carries(job: Job, key: string) {
    job.spec.limit.Some? && job.spec.limit.value.key == key
  }

  /** The running jobs of a key: what the `active` count counts. */
  function RunningKeyed(db: Table, key: string): set<JobId> {
    set id | id in db.jobs && db.jobs[id].state.Running? && Carries(db.jobs[id], key)
  }

  /** Those among them that allow at most `v` at once. */
  function RunningWithin(db: Table, key: string, v: nat): set<JobId> {
    set id | id in RunningKeyed(db, key) && db.jobs[id].spec.limit.value.max <= v
  }

  /** For every key and every v, no more than v of the key's running jobs carry
      a limit of v or less. */
  ghost predicate WithinLimits(db: Table) {
    forall key: string, v: nat :: |RunningWithin(db, key, v)| <= v
  }

  // ---- choosing ------------------------------------------------------------

  /** A row the `locked` expression may return: due and keyed when the statement
      began and still when its lock was obtained, with room left for its key
      according to the count taken at the beginning. */
  predicate Candidate(snapshot: Table, db: Table, queues: set<string>, now: real, id: JobId) {
    && id in snapshot.jobs && snapshot.jobs[id].DueBy(now)
    && id in db.jobs && db.jobs[id].DueBy(now)
    && db.jobs[id].spec.queue in queues
    && db.jobs[id].spec.limit.Some?
    && |RunningKeyed(snapshot, db.jobs[id].spec.limit.value.key)| < db.jobs[id].spec.limit.value.max
  }

  ghost predicate Lockable(snapshot: Table, db: Table, queues: set<string>, limit: nat, now: real, locked: seq<JobId>) {
    && |locked| <= limit
    && (forall i, j :: 0 <= i < j < |locked| ==> locked[i] != locked[j])
    && (forall i :: 0 <= i < |locked| ==> Candidate(snapshot, db, queues, now, locked[i]))
  }

  /** `row_number() OVER (PARTITION BY concurrency_key ...)` of the i-th row: the
      rows of its key up to and including it. */
  function Ranked(db: Table, locked: seq<JobId>, i: nat): set<JobId>
    requires i < |locked| && forall n :: 0 <= n < |locked| ==> locked[n] in db.jobs
  {
    set n | 0 <= n <= i && db.jobs[locked[n]].spec.limit.Some? && db.jobs[locked[i]].spec.limit.Some?
            && Carries(db.jobs[locked[n]], db.jobs[locked[i]].spec.limit.value.key) :: locked[n]
  }

  predicate Admits(snapshot: Table, db: Table, locked: seq<JobId>, i: nat)
    requires i < |locked| && forall n :: 0 <= n < |locked| ==> locked[n] in db.jobs
  {
    && db.jobs[locked[i]].spec.limit.Some?
    && |RunningKeyed(snapshot, db.jobs[locked[i]].spec.limit.value.key)| + |Ranked(db, locked, i)|
         <= db.jobs[locked[i]].spec.limit.value.max
  }

  function Admitted(snapshot: Table, db: Table, locked: seq<JobId>): set<JobId>
    requires forall n :: 0 <= n < |locked| ==> locked[n] in db.jobs
  {
    set i | 0 <= i < |locked| && Admits(snapshot, db, locked, i) :: locked[i]
  }

  /** The admitted rows of a key that allow at most `v`. */
  function AdmittedWithin(db: Table, chosen: set<JobId>, key: string, v: nat): set<JobId> {
    set id | id in chosen && id in db.jobs && Carries(db.jobs[id], key) && db.jobs[id].spec.limit.value.max <= v
  }

  // ---- the phases ----------------------------------------------------------

  datatype Phase =
    | Free
    | Holding(worker: WorkerId)
    | Counting(worker: WorkerId, snapshot: Table)
    | Chosen(worker: WorkerId, rows: set<JobId>, admitted: set<JobId>, lease: real, now: real)

  datatype State = State(db: Table, phase: Phase)

  datatype Event =
    | Other(op: Op)
    | TakeLock(worker: WorkerId)
    | StartStatement
    | LockRows(queues: set<string>, limit: nat, locked: seq<JobId>, lease: real, now: real)
    | Commit
    | Rollback

  /** A statement of somebody else's: it admits no keyed job, and leaves the
      rows locked by this transaction as they are. */
  ghost predicate MayRun(s: State, op: Op) {
    && (op.DoLease? ==> forall id :: id in op.picked && id in s.db.jobs ==> s.db.jobs[id].spec.limit.None?)
    && (s.phase.Chosen? ==>
          forall id :: id in s.phase.rows && id in s.db.jobs ==>
            id in Exec(s.db, op).jobs && Exec(s.db, op).jobs[id] == s.db.jobs[id])
  }

  ghost function Next(s: State, e: Event): State {
    match e
    case Other(op) => if MayRun(s, op) then s.(db := Exec(s.db, op)) else s
    case TakeLock(worker) => if s.phase.Free? then s.(phase := Holding(worker)) else s
    case StartStatement => if s.phase.Holding? then s.(phase := Counting(s.phase.worker, s.db)) else s
    case LockRows(queues, limit, locked, lease, now) =>
      if s.phase.Counting? && Lockable(s.phase.snapshot, s.db, queues, limit, now, locked)
      then s.(phase := Chosen(s.phase.worker, (set id | id in locked),
                              Admitted(s.phase.snapshot, s.db, locked), lease, now))
      else s
    case Commit =>
      if s.phase.Chosen?
      then State(Exec(s.db, DoLease(s.phase.admitted, s.phase.worker, s.phase.lease, s.phase.now)), Free)
      else s
    case Rollback => s.(phase := Free)
  }

  ghost function After(events: seq<Event>): State {
    if events == [] then State(EmptyTable, Free)
    else Next(After(events[..|events| - 1]), events[|events| - 1])
  }

  // ---- the bound -----------------------------------------------------------

  /** A ranked row counts at least every admitted row of its key before it. */
  lemma LastRankCovers(snapshot: Table, db: Table, locked: seq<JobId>, key: string, v: nat)
    requires forall n :: 0 <= n < |locked| ==> locked[n] in db.jobs
    ensures var low := AdmittedWithin(db, Admitted(snapshot, db, locked), key, v);
            low != {} ==> |RunningKeyed(snapshot, key)| + |low| <= v
  {
    var low := AdmittedWithin(db, Admitted(snapshot, db, locked), key, v);
    if low != {} {
      var id :| id in low;
      var any :| 0 <= any < |locked| && locked[any] == id && Admits(snapshot, db, locked, any);
      assert Fits(snapshot, db, locked, key, v, any);
      var i := LastOf(snapshot, db, locked, key, v, any);
      forall other | other in low ensures other in Ranked(db, locked, i) {
        var n :| 0 <= n < |locked| && locked[n] == other && Admits(snapshot, db, locked, n);
        assert Fits(snapshot, db, locked, key, v, n);
      }
      SubsetSize(low, Ranked(db, locked, i));
    }
  }

  /** Position `i` holds a row of `key` that is admitted under a limit of at
      most `v`. */
  ghost predicate Fits(snapshot: Table, db: Table, locked: seq<JobId>, key: string, v: nat, i: int)
    requires forall n :: 0 <= n < |locked| ==> locked[n] in db.jobs
  {
    && 0 <= i < |locked|
    && Admits(snapshot, db, locked, i)
    && Carries(db.jobs[locked[i]], key)
    && db.jobs[locked[i]].spec.limit.value.max <= v
  }

  lemma LastOf(snapshot: Table, db: Table, locked: seq<JobId>, key: string, v: nat, any: nat) returns (i: nat)
    requires forall n :: 0 <= n < |locked| ==> locked[n] in db.jobs
    requires Fits(snapshot, db, locked, key, v, any)
    ensures Fits(snapshot, db, locked, key, v, i)
    ensures forall n :: i < n < |locked| ==> !Fits(snapshot, db, locked, key, v, n)
  {
    i := |locked| - 1;
    while !Fits(snapshot, db, locked, key, v, i)
      invariant any <= i < |locked|
      invariant forall n :: i < n < |locked| ==> !Fits(snapshot, db, locked, key, v, n)
      decreases i
    {
      i := i - 1;
    }
  }

  lemma InsertsRunNothing(db: Table, op: Op, key: string)
    requires Inserts(op)
    ensures RunningKeyed(Exec(db, op), key) <= RunningKeyed(db, key)
    ensures forall id :: id in RunningKeyed(Exec(db, op), key) ==> Exec(db, op).jobs[id].spec == db.jobs[id].spec
  {}

  lemma UpdatesRunNothing(db: Table, op: Op, key: string)
    requires !op.DoLease? && !Inserts(op)
    ensures RunningKeyed(Exec(db, op), key) <= RunningKeyed(db, key)
    ensures forall id :: id in RunningKeyed(Exec(db, op), key) ==> Exec(db, op).jobs[id].spec == db.jobs[id].spec
  {}

  /** Statements other than a lease never add to what runs. */
  lemma NothingNewRuns(db: Table, op: Op, key: string)
    requires !op.DoLease?
    ensures RunningKeyed(Exec(db, op), key) <= RunningKeyed(db, key)
    ensures forall id :: id in RunningKeyed(Exec(db, op), key) ==> Exec(db, op).jobs[id].spec == db.jobs[id].spec
  {
    if Inserts(op) {
      InsertsRunNothing(db, op, key);
    } else {
      UpdatesRunNothing(db, op, key);
    }
  }

  lemma UnkeyedLeaseAddsNothing(db: Table, op: Op, key: string)
    requires op.DoLease? && forall id :: id in op.picked && id in db.jobs ==> db.jobs[id].spec.limit.None?
    ensures RunningKeyed(Exec(db, op), key) <= RunningKeyed(db, key)
    ensures forall id :: id in RunningKeyed(Exec(db, op), key) ==> Exec(db, op).jobs[id].spec == db.jobs[id].spec
  {}

  lemma OthersOnlyShrink(s: State, op: Op, key: string, v: nat)
    requires MayRun(s, op)
    ensures RunningKeyed(Exec(s.db, op), key) <= RunningKeyed(s.db, key)
    ensures RunningWithin(Exec(s.db, op), key, v) <= RunningWithin(s.db, key, v)
  {
    if op.DoLease? {
      UnkeyedLeaseAddsNothing(s.db, op, key);
    } else {
      NothingNewRuns(s.db, op, key);
    }
  }

  /** The invariant of the protocol: limits hold, what runs can only have
      shrunk since the count was taken, and admitting the chosen rows keeps the
      limits. */
  ghost predicate AdmissionInv(s: State) {
    && WithinLimits(s.db)
    && (s.phase.Counting? ==> forall key: string :: RunningKeyed(s.db, key) <= RunningKeyed(s.phase.snapshot, key))
    && (s.phase.Chosen? ==>
          && s.phase.admitted <= s.phase.rows
          && (forall id :: id in s.phase.admitted ==> id in s.db.jobs)
          && (forall key: string, v: nat ::
                |RunningWithin(s.db, key, v)| + |AdmittedWithin(s.db, s.phase.admitted, key, v)| <= v))
  }

  lemma ChoosingKeepsLimits(s: State, queues: set<string>, limit: nat, locked: seq<JobId>, now: real, key: string,
                            v: nat)
    requires AdmissionInv(s) && s.phase.Counting?
    requires Lockable(s.phase.snapshot, s.db, queues, limit, now, locked)
    ensures |RunningWithin(s.db, key, v)| +
              |AdmittedWithin(s.db, Admitted(s.phase.snapshot, s.db, locked), key, v)| <= v
  {
    LastRankCovers(s.phase.snapshot, s.db, locked, key, v);
    SubsetSize(RunningWithin(s.db, key, v), RunningKeyed(s.phase.snapshot, key));
  }

  lemma CommittingKeepsLimits(s: State, key: string, v: nat)
    requires AdmissionInv(s) && s.phase.Chosen?
    ensures |RunningWithin(Next(s, Commit).db, key, v)| <= v
  {
    var next := Next(s, Commit).db;
    var was := RunningWithin(s.db, key, v);
    var more := AdmittedWithin(s.db, s.phase.admitted, key, v);
    assert RunningWithin(next, key, v) <= was + more;
    SubsetSize(RunningWithin(next, key, v), was + more);
  }

  lemma OthersKeepAdmission(s: State, op: Op)
    requires AdmissionInv(s) && MayRun(s, op)
    ensures AdmissionInv(Next(s, Other(op)))
  {
    var next := Next(s, Other(op));
    forall key: string, v: nat
      ensures RunningKeyed(next.db, key) <= RunningKeyed(s.db, key)
      ensures |RunningWithin(next.db, key, v)| <= |RunningWithin(s.db, key, v)|
    {
      OthersOnlyShrink(s, op, key, v);
      SubsetSize(RunningWithin(next.db, key, v), RunningWithin(s.db, key, v));
    }
    if s.phase.Chosen? {
      forall key: string, v: nat
        ensures AdmittedWithin(next.db, s.phase.admitted, key, v) == AdmittedWithin(s.db, s.phase.admitted, key, v)
      {
        LockedRowsKept(s, op, key, v);
      }
    }
  }

  lemma LockedRowsKept(s: State, op: Op, key: string, v: nat)
    requires AdmissionInv(s) && MayRun(s, op) && s.phase.Chosen?
    ensures AdmittedWithin(Exec(s.db, op), s.phase.admitted, key, v) == AdmittedWithin(s.db, s.phase.admitted, key, v)
  {}

  lemma NextKeepsAdmission(s: State, e: Event)
    requires AdmissionInv(s)
    ensures AdmissionInv(Next(s, e))
  {
    match e
    case Other(op) => if MayRun(s, op) { OthersKeepAdmission(s, op); }
    case LockRows(queues, limit, locked, lease, now) =>
      if s.phase.Counting? && Lockable(s.phase.snapshot, s.db, queues, limit, now, locked) {
        forall key: string, v: nat
          ensures |RunningWithin(s.db, key, v)| +
                    |AdmittedWithin(s.db, Admitted(s.phase.snapshot, s.db, locked), key, v)| <= v
        {
          ChoosingKeepsLimits(s, queues, limit, locked, now, key, v);
        }
      }
    case Commit =>
      if s.phase.Chosen? {
        forall key: string, v: nat ensures |RunningWithin(Next(s, Commit).db, key, v)| <= v {
          CommittingKeepsLimits(s, key, v);
        }
      }
    case _ =>
  }

  /** Over all interleavings: the limits hold at every point of every run. */
  lemma {:induction false} LimitsAlwaysHold(events: seq<Event>)
    ensures AdmissionInv(After(events))
    ensures WithinLimits(After(events).db)
    decreases |events|
  {
    if events == [] {
      forall key: string, v: nat ensures |RunningWithin(EmptyTable, key, v)| <= v {
        assert RunningWithin(EmptyTable, key, v) == {};
      }
    } else {
      LimitsAlwaysHold(events[..|events| - 1]);
      NextKeepsAdmission(After(events[..|events| - 1]), events[|events| - 1]);
    }
  }

  /** No jobs of one key that allow at most `limit` at once, however picked out,
      are more than that when they run. */
  lemma OneLimitNeverExceeded(events: seq<Event>, key: string, limit: nat, running: set<JobId>)
    requires forall id :: id in running ==>
               && id in After(events).db.jobs && After(events).db.jobs[id].state.Running?
               && After(events).db.jobs[id].spec.limit.Some?
               && After(events).db.jobs[id].spec.limit.value.key == key
               && After(events).db.jobs[id].spec.limit.value.max <= limit
    ensures |running| <= limit
  {
    LimitsAlwaysHold(events);
    SubsetSize(running, RunningWithin(After(events).db, key, limit));
  }

  // ---- the phases refine the queue -----------------------------------------

  /** The statements that took effect, in order. */
  ghost function Effects(events: seq<Event>): seq<Op> {
    if events == [] then [] else
    var s, e := After(events[..|events| - 1]), events[|events| - 1];
    Effects(events[..|events| - 1]) +
    match e
    case Other(op) => if MayRun(s, op) then [op] else []
    case Commit =>
      if s.phase.Chosen? then [DoLease(s.phase.admitted, s.phase.worker, s.phase.lease, s.phase.now)] else []
    case _ => []
  }

  /** Every phased run is a run of the queue: what is proved of all runs of the
      queue holds here too. */
  lemma {:induction false} PhasesRefineQueue(events: seq<Event>)
    ensures After(events).db == TableAfter(Effects(events))
    decreases |events|
  {
    if events != [] {
      var before := events[..|events| - 1];
      PhasesRefineQueue(before);
      if Effects(events) != Effects(before) {
        var op := Effects(events)[|Effects(events)| - 1];
        assert Effects(events)[..|Effects(events)| - 1] == Effects(before);
      }
    }
  }

  // ---- who is admitted -----------------------------------------------------

  /** The locked rows of one key, in order. */
  function KeyRows(db: Table, locked: seq<JobId>, key: string): seq<JobId> {
    if locked == [] then [] else
    var n := |locked| - 1;
    var before := KeyRows(db, locked[..n], key);
    if locked[n] in db.jobs && Carries(db.jobs[locked[n]], key) then before + [locked[n]] else before
  }

  predicate Distinct(ids: seq<JobId>) {
    forall i, j :: 0 <= i < j < |ids| ==> ids[i] != ids[j]
  }

  lemma {:induction false} KeyRowsAre(db: Table, locked: seq<JobId>, key: string)
    requires Distinct(locked)
    ensures forall id :: id in KeyRows(db, locked, key) <==> id in locked && id in db.jobs && Carries(db.jobs[id], key)
    ensures Distinct(KeyRows(db, locked, key))
    decreases |locked|
  {
    if locked != [] {
      var n := |locked| - 1;
      KeyRowsAre(db, locked[..n], key);
      assert locked == locked[..n] + [locked[n]];
      assert locked[n] !in locked[..n];
    }
  }

  lemma {:induction false} DistinctCount(ids: seq<JobId>)
    requires Distinct(ids)
    ensures |SetOf(ids)| == |ids|
    decreases |ids|
  {
    if ids != [] {
      var n := |ids| - 1;
      DistinctCount(ids[..n]);
      assert ids == ids[..n] + [ids[n]];
      assert SetOf(ids) == SetOf(ids[..n]) + {ids[n]};
    }
  }

  /** A row's rank is its place among the locked rows of its key. */
  lemma RankIsPlace(db: Table, locked: seq<JobId>, i: nat, key: string)
    requires i < |locked| && Distinct(locked) && forall n :: 0 <= n < |locked| ==> locked[n] in db.jobs
    requires Carries(db.jobs[locked[i]], key)
    ensures |Ranked(db, locked, i)| == |KeyRows(db, locked[..i + 1], key)|
  {
    var upTo := locked[..i + 1];
    KeyRowsAre(db, upTo, key);
    assert Ranked(db, locked, i) == SetOf(KeyRows(db, upTo, key));
    DistinctCount(KeyRows(db, upTo, key));
  }

  /** Where among all locked rows the p-th of a key stands. */
  lemma {:induction false} PlaceOf(db: Table, locked: seq<JobId>, key: string, p: nat) returns (i: nat)
    requires p < |KeyRows(db, locked, key)|
    ensures i < |locked| && locked[i] == KeyRows(db, locked, key)[p]
    ensures locked[i] in db.jobs && Carries(db.jobs[locked[i]], key)
    ensures |KeyRows(db, locked[..i + 1], key)| == p + 1
    decreases |locked|
  {
    var n := |locked| - 1;
    if p < |KeyRows(db, locked[..n], key)| {
      i := PlaceOf(db, locked[..n], key, p);
      assert locked[..n][..i + 1] == locked[..i + 1];
    } else {
      i := n;
      assert locked[..n + 1] == locked;
    }
  }

  /** The running jobs of a key, told by the rows themselves. */
  ghost predicate AllRunning(db: Table, key: string, running: set<JobId>) {
    forall id :: id in running <==>
      && id in db.jobs && db.jobs[id].state.Running?
      && db.jobs[id].spec.limit.Some? && db.jobs[id].spec.limit.value.key == key
  }

  /** Exactly who is admitted: the p-th of the locked rows of a key, whatever was
      locked of other keys, if and only if with p rows before it and those running
      its own limit is not exceeded. */
  lemma AdmittedInTurn(snapshot: Table, db: Table, locked: seq<JobId>, key: string, running: set<JobId>, p: nat)
    requires Distinct(locked) && forall n :: 0 <= n < |locked| ==> locked[n] in db.jobs
    requires AllRunning(snapshot, key, running) && p < |KeyRows(db, locked, key)|
    ensures var id := KeyRows(db, locked, key)[p];
            && id in db.jobs && db.jobs[id].spec.limit.Some?
            && (id in Admitted(snapshot, db, locked) <==> |running| + p + 1 <= db.jobs[id].spec.limit.value.max)
  {
    var i := PlaceOf(db, locked, key, p);
    RankIsPlace(db, locked, i, key);
    assert running == RunningKeyed(snapshot, key);
  }

  function Smaller(a: int, b: int): int {
    if a < b then a else b
  }

  /** With one limit for the whole key, it is filled up: the first rows of the key
      are admitted, as many as there is room for. */
  lemma KeyIsFilled(snapshot: Table, db: Table, locked: seq<JobId>, key: string, running: set<JobId>, limit: int)
    requires Distinct(locked) && forall n :: 0 <= n < |locked| ==> locked[n] in db.jobs
    requires AllRunning(snapshot, key, running) && |running| <= limit
    requires forall id :: id in locked && Carries(db.jobs[id], key) ==> db.jobs[id].spec.limit.value.max == limit
    ensures var rows := KeyRows(db, locked, key);
            var taken := set id | id in Admitted(snapshot, db, locked) && Carries(db.jobs[id], key);
            && taken == SetOf(rows[..Smaller(limit - |running|, |rows|)])
            && |taken| == Smaller(limit - |running|, |rows|)
  {
    var rows := KeyRows(db, locked, key);
    var m := Smaller(limit - |running|, |rows|);
    KeyRowsAre(db, locked, key);
    var taken := set id | id in Admitted(snapshot, db, locked) && Carries(db.jobs[id], key);
    forall p: nat | p < |rows| ensures rows[p] in taken <==> p < m {
      AdmittedInTurn(snapshot, db, locked, key, running, p);
    }
    SamePrefix(rows, taken, m);
  }

  lemma SamePrefix(rows: seq<JobId>, taken: set<JobId>, m: nat)
    requires Distinct(rows) && m <= |rows| && forall id :: id in taken ==> id in rows
    requires forall p: nat :: p < |rows| ==> (rows[p] in taken <==> p < m)
    ensures taken == SetOf(rows[..m]) && |taken| == m
  {
    DistinctCount(rows[..m]);
  }

  /** Which rows of a key are admitted depends on the locked rows of that key
      alone. */
  lemma AdmissionIsPerKey(snapshot: Table, db: Table, locked: seq<JobId>, other: seq<JobId>, key: string, id: JobId)
    requires Distinct(locked) && forall n :: 0 <= n < |locked| ==> locked[n] in db.jobs
    requires Distinct(other) && forall n :: 0 <= n < |other| ==> other[n] in db.jobs
    requires KeyRows(db, locked, key) == KeyRows(db, other, key) && id in db.jobs && Carries(db.jobs[id], key)
    ensures id in Admitted(snapshot, db, locked) <==> id in Admitted(snapshot, db, other)
  {
    KeyRowsAre(db, locked, key);
    KeyRowsAre(db, other, key);
    if id in KeyRows(db, locked, key) {
      var p :| 0 <= p < |KeyRows(db, locked, key)| && KeyRows(db, locked, key)[p] == id;
      AdmittedInTurn(snapshot, db, locked, key, RunningKeyed(snapshot, key), p);
      AdmittedInTurn(snapshot, db, other, key, RunningKeyed(snapshot, key), p);
    }
  }

  /** No keyed starvation: whenever the statement locks any row at all, it
      admits the first one. */
  lemma SomeoneIsAdmitted(snapshot: Table, db: Table, queues: set<string>, limit: nat, now: real, locked: seq<JobId>)
    requires Lockable(snapshot, db, queues, limit, now, locked) && locked != []
    ensures locked[0] in Admitted(snapshot, db, locked)
  {
    assert Ranked(db, locked, 0) == {locked[0]};
    assert Admits(snapshot, db, locked, 0);
  }
}
