/** What a fetch takes and what it leaves, told by the columns of the rows: which
    rows, in which order, how many, and what becomes of them. */
module Picks {
  import opened Prelude
  import opened JobTable
  import opened Admission
  import opened Rows
  import opened Backend

  /** Waiting in one of the queues, with its time come. */
  predicate DueIn(job: Job, queues: set<string>, now: real) {
    job.state.Available? && job.scheduledAt.At? && job.scheduledAt.time <= now && job.spec.queue in queues
  }

  /** Smaller priorities first, then earlier times, then smaller ids. */
  predicate Sooner(a: JobId, x: Job, b: JobId, y: Job)
    requires x.scheduledAt.At? && y.scheduledAt.At?
  {
    && x.spec.priority <= y.spec.priority
    && (x.spec.priority == y.spec.priority ==> x.scheduledAt.time <= y.scheduledAt.time)
    && (x.spec.priority == y.spec.priority && x.scheduledAt.time == y.scheduledAt.time ==> a < b)
  }

  /** The first of the wanted rows, as many as the limit allows, in order and each
      once: what is left behind is left because the batch is full, and comes after
      everything in it. */
  ghost predicate TakesFirst(db: Table, wanted: set<JobId>, limit: nat, picked: seq<JobId>) {
    && |picked| == Smaller(limit, |wanted|) && Distinct(picked)
    && (forall id :: id in wanted ==> id in db.jobs && db.jobs[id].scheduledAt.At?)
    && (forall i :: 0 <= i < |picked| ==> picked[i] in wanted)
    && (forall i, j :: 0 <= i < j < |picked| ==>
          Sooner(picked[i], db.jobs[picked[i]], picked[j], db.jobs[picked[j]]))
    && (forall id, i :: id in wanted && id !in picked && 0 <= i < |picked| ==>
          Sooner(picked[i], db.jobs[picked[i]], id, db.jobs[id]))
  }

  lemma TopTakesFirst(db: Table, wanted: set<JobId>, limit: nat, picked: seq<JobId>)
    requires Top(db, wanted, limit, picked)
    ensures TakesFirst(db, wanted, limit, picked)
  {
    OrderedIsDistinct(db, picked);
  }

  // ---- the unkeyed pass ----------------------------------------------------

  predicate Unkeyed(db: Table, q: Query, id: JobId) {
    id in db.jobs && DueIn(db.jobs[id], q.queues, q.now) && db.jobs[id].spec.limit.None? && id !in q.skipped
  }

  lemma UnkeyedPassTakes(db: Table, q: Query, picked: seq<JobId>, ok: bool, after: Table, wanted: set<JobId>)
    requires UnkeyedPass(db, q, picked, ok, after) && forall id :: id in wanted <==> Unkeyed(db, q, id)
    ensures TakesFirst(db, wanted, q.limit, picked)
  {
    assert UnkeyedFor(db, q) == wanted;
    TopTakesFirst(db, wanted, q.limit, picked);
  }

  // ---- the keyed pass ------------------------------------------------------

  /** Due, keyed, and with fewer of its key running than it allows. */
  ghost predicate Keyed(db: Table, q: Query, id: JobId) {
    && id in db.jobs && DueIn(db.jobs[id], q.queues, q.now) && id !in q.skipped && db.jobs[id].spec.limit.Some?
    && forall running :: AllRunning(db, db.jobs[id].spec.limit.value.key, running) ==>
         |running| < db.jobs[id].spec.limit.value.max
  }

  lemma KeyedAreCandidates(db: Table, q: Query, id: JobId)
    ensures id in KeyedFor(db, q) <==> Keyed(db, q, id)
  {
    if id in db.jobs && db.jobs[id].spec.limit.Some? {
      var key := db.jobs[id].spec.limit.value.key;
      assert AllRunning(db, key, RunningKeyed(db, key));
      forall running | AllRunning(db, key, running) ensures running == RunningKeyed(db, key) {}
    }
  }

  /** Of the locked rows, the p-th of each key is picked if and only if with those
      before it and those running its limit is not exceeded; nothing else is. */
  ghost predicate FillsKeys(db: Table, locked: seq<JobId>, picked: seq<JobId>) {
    && Distinct(picked)
    && (forall id :: id in picked ==> id in locked && id in db.jobs && db.jobs[id].spec.limit.Some?)
    && (forall key: string, running: set<JobId>, p: nat ::
          AllRunning(db, key, running) && p < |KeyRows(db, locked, key)| ==>
            FilledAt(db, locked, picked, key, running, p))
  }

  ghost predicate FilledAt(db: Table, locked: seq<JobId>, picked: seq<JobId>, key: string, running: set<JobId>, p: nat)
    requires p < |KeyRows(db, locked, key)|
  {
    var id := KeyRows(db, locked, key)[p];
    && id in db.jobs && db.jobs[id].spec.limit.Some?
    && (id in picked <==> |running| + p + 1 <= db.jobs[id].spec.limit.value.max)
  }

  lemma AdmittedFillsKeys(db: Table, q: Query, locked: seq<JobId>, picked: seq<JobId>)
    requires AdmittedFrom(db, q, locked, picked)
    ensures FillsKeys(db, locked, picked)
  {
    assert Distinct(locked);
    forall id | id in picked ensures id in locked && id in db.jobs && db.jobs[id].spec.limit.Some? {
      assert id in SetOf(picked);
    }
    forall key: string, running: set<JobId>, p: nat | AllRunning(db, key, running) && p < |KeyRows(db, locked, key)|
      ensures FilledAt(db, locked, picked, key, running, p)
    {
      AdmittedInTurn(db, db, locked, key, running, p);
      assert KeyRows(db, locked, key)[p] in picked <==> KeyRows(db, locked, key)[p] in SetOf(picked);
    }
  }

  lemma KeyedPassTakes(db: Table, q: Query, picked: seq<JobId>, ok: bool, after: Table, wanted: set<JobId>)
    returns (locked: seq<JobId>)
    requires KeyedPass(db, q, picked, ok, after) && forall id :: id in wanted <==> Keyed(db, q, id)
    ensures TakesFirst(db, wanted, q.limit, locked) && FillsKeys(db, locked, picked)
  {
    locked :| AdmittedFrom(db, q, locked, picked);
    forall id ensures id in KeyedFor(db, q) <==> id in wanted {
      KeyedAreCandidates(db, q, id);
    }
    assert KeyedFor(db, q) == wanted;
    TopTakesFirst(db, wanted, q.limit, locked);
    AdmittedFillsKeys(db, q, locked, picked);
  }

  // ---- the whole fetch -----------------------------------------------------

  /** What the keyed pass asks for: the room the unkeyed pass left, and never
      nothing. */
  function Rest(limit: nat, taken: nat): nat {
    if limit - taken >= 1 then limit - taken else 1
  }

  /** Some keyed job is due, with or without room for it. */
  ghost predicate KeyedIsDue(db: Table, queues: set<string>, now: real) {
    exists id :: id in db.jobs && DueIn(db.jobs[id], queues, now) && db.jobs[id].spec.limit.Some?
  }

  lemma WaitingIsDue(db: Table, queues: set<string>, now: real)
    ensures KeyedWork(db, queues, now) <==> KeyedIsDue(db, queues, now)
  {
    if KeyedWork(db, queues, now) {
      var id :| KeyedDue(db, queues, now, id);
      assert DueIn(db.jobs[id], queues, now);
    }
    if KeyedIsDue(db, queues, now) {
      var id :| id in db.jobs && DueIn(db.jobs[id], queues, now) && db.jobs[id].spec.limit.Some?;
      assert KeyedDue(db, queues, now, id);
    }
  }

  function KeyIn(db: Table, id: JobId): Option<string> {
    if id in db.jobs && db.jobs[id].spec.limit.Some? then Some(db.jobs[id].spec.limit.value.key) else None
  }

  predicate DifferentKeys(db: Table, locked: seq<JobId>) {
    forall i, j :: 0 <= i < j < |locked| ==> KeyIn(db, locked[i]) != KeyIn(db, locked[j])
  }

  /** Locked rows of different keys are all taken. */
  lemma DifferentKeysAllTaken(db: Table, q: Query, locked: seq<JobId>, picked: seq<JobId>, wanted: set<JobId>)
    requires FillsKeys(db, locked, picked) && TakesFirst(db, wanted, q.limit, locked)
    requires forall id :: id in wanted <==> Keyed(db, q, id)
    requires DifferentKeys(db, locked)
    ensures SetOf(picked) == SetOf(locked) && |picked| == |locked|
  {
    forall i | 0 <= i < |locked| ensures locked[i] in picked {
      LoneOfItsKey(db, q, locked, picked, i);
    }
    DistinctCount(picked);
    DistinctCount(locked);
  }

  lemma LoneOfItsKey(db: Table, q: Query, locked: seq<JobId>, picked: seq<JobId>, i: nat)
    requires FillsKeys(db, locked, picked) && Distinct(locked) && i < |locked| && Keyed(db, q, locked[i])
    requires forall j :: 0 <= j < |locked| && j != i ==> KeyIn(db, locked[i]) != KeyIn(db, locked[j])
    ensures locked[i] in picked
  {
    var id := locked[i];
    var key := db.jobs[id].spec.limit.value.key;
    var rows, running := KeyRows(db, locked, key), RunningKeyed(db, key);
    KeyRowsAre(db, locked, key);
    assert AllRunning(db, key, running);
    assert id in rows;
    assert FilledAt(db, locked, picked, key, running, 0);
    assert rows[0] in rows;
    assert rows[0] in locked && KeyIn(db, rows[0]) == Some(key);
  }

  /** A fetch takes the first of the unkeyed rows it finds. If keyed work is due
      then, it locks the first of the keyed rows with room that it finds later, as
      many as the limit has left over and at least one, and takes of each key as
      many as there is room for: all of them, if no two are of one key. */
  lemma FetchTakes(db: Table, q: Query, probe: real, now: real, skipped: set<JobId>, f: Fetching, after: Table,
                   unkeyed: set<JobId>, keyed: set<JobId>) returns (locked: seq<JobId>)
    requires Answer(db, q, probe, now, skipped, f, after)
    requires forall id :: id in unkeyed <==> Unkeyed(db, q, id)
    requires forall id :: id in keyed <==> Keyed(f.between, q.(now := now, skipped := skipped), id)
    ensures TakesFirst(db, unkeyed, q.limit, f.unkeyed)
    ensures f.waiting <==> f.unkeyedOk && KeyedIsDue(f.asked, q.queues, if f.unkeyed == [] then probe else q.now)
    ensures f.waiting ==>
              TakesFirst(f.between, keyed, Rest(q.limit, |f.unkeyed|), locked) && FillsKeys(f.between, locked, f.keyed)
    ensures f.waiting && DifferentKeys(f.between, locked) ==> SetOf(f.keyed) == SetOf(locked) && |f.keyed| == |locked|
    ensures !f.waiting ==> f.keyed == []
  {
    UnkeyedPassTakes(db, q, f.unkeyed, f.unkeyedOk, f.afterUnkeyed, unkeyed);
    WaitingIsDue(f.asked, q.queues, if f.unkeyed == [] then probe else q.now);
    locked := [];
    if f.waiting {
      var second := Second(q, |f.unkeyed|, now, skipped);
      forall id ensures id in keyed <==> Keyed(f.between, second, id) {}
      locked := KeyedPassTakes(f.between, second, f.keyed, f.keyedOk, after, keyed);
      if DifferentKeys(f.between, locked) {
        DifferentKeysAllTaken(f.between, second, locked, f.keyed, keyed);
      }
    }
  }
}
