/** The `gylo_job` and `gylo_edge` tables, and every statement that writes
    them.

    A statement is a function from the table it saw to the table it proposes.
    All of its common table expressions read the one snapshot it started from,
    so each proposed row is a function of the old table alone. Clock readings,
    the rows `SKIP LOCKED` passed over and the random draws are arguments. */
module JobTable {
  import opened Prelude
  import opened Graph
  import Backoff

  type JobId = nat
  type WorkerId = nat
  type WorkflowId = nat

  datatype JobState = Available | Running | Completed | Discarded | Cancelled

  /** A `scheduled_at` value; a blocked workflow node is parked at infinity. */
  datatype Instant = At(time: real) | Infinity {
    predicate Reached(now: real) {
      At? && time <= now
    }
  }

  /** At most `max` jobs carrying `key` may run at once. */
  datatype Limit = Limit(key: string, max: int)

  /** What a caller asks to have run. Fixed for the life of the row. */
  datatype NewJob = NewJob(
    queue: string,
    task: string,
    payload: Bytes,
    priority: int,
    maxAttempts: int,
    limit: Option<Limit>,
    durable: bool)

  datatype Failure = Failure(attempt: int, at: real, error: string)

  datatype Job = Job(
    spec: NewJob,
    workflow: Option<WorkflowId>,
    uniqueKey: Option<Bytes>,
    state: JobState,
    attempt: int,
    errors: seq<Failure>,
    scheduledAt: Instant,
    startedAt: Option<real>,
    finalizedAt: Option<real>,
    lockedBy: Option<WorkerId>,
    leaseExpiresAt: Option<real>,
    result: Option<Bytes>,
    pendingDeps: int)
  {
    predicate Live() {
      state.Available? || state.Running?
    }

    /** Ended without completing. */
    predicate Dead() {
      state.Discarded? || state.Cancelled?
    }

    predicate HeldBy(worker: WorkerId) {
      state.Running? && lockedBy == Some(worker)
    }

    predicate DueBy(now: real) {
      state.Available? && scheduledAt.Reached(now)
    }

    predicate Expired(now: real) {
      state.Running? && leaseExpiresAt.Some? && leaseExpiresAt.value < now
    }

    /** The row-level CHECK constraints of the migrations. */
    predicate Checks() {
      && attempt <= spec.maxAttempts
      && (lockedBy.None? <==> leaseExpiresAt.None?)
      && (spec.limit.Some? ==> spec.limit.value.max > 0)
      && pendingDeps >= 0
    }

    function Leased(worker: WorkerId, lease: real, now: real): Job {
      this.(state := Running,
            lockedBy := Some(worker),
            leaseExpiresAt := Some(now + lease),
            startedAt := Some(now),
            attempt := attempt + 1)
    }

    function Finished(outcome: Option<Bytes>, now: real): Job {
      this.(state := Completed,
            finalizedAt := Some(now),
            lockedBy := None,
            leaseExpiresAt := None,
            result := outcome)
    }

    /** One or more of the parents this row waits for have completed. */
    function Unblocked(parents: nat, now: real): Job {
      this.(pendingDeps := pendingDeps - parents,
            scheduledAt := if pendingDeps - parents == 0 then At(now) else scheduledAt)
    }

    function Buried(error: string, now: real): Job {
      this.(state := Discarded,
            finalizedAt := Some(now),
            lockedBy := None,
            leaseExpiresAt := None,
            errors := errors + [Failure(attempt, now, error)])
    }

    function Rescheduled(error: string, delay: real, now: real): Job {
      this.(state := Available,
            lockedBy := None,
            leaseExpiresAt := None,
            scheduledAt := At(now + delay),
            errors := errors + [Failure(attempt, now, error)])
    }

    function Released(): Job {
      this.(state := Available, lockedBy := None, leaseExpiresAt := None)
    }

    function LeaseUntil(expiry: real): Job {
      this.(leaseExpiresAt := Some(expiry))
    }

    function CancelledByUser(now: real): Job {
      this.(state := Cancelled, finalizedAt := Some(now), lockedBy := None, leaseExpiresAt := None)
    }

    function CancelledByCascade(now: real): Job {
      this.(state := Cancelled, finalizedAt := Some(now))
    }

    function Revived(now: real): Job {
      this.(state := Available,
            attempt := 0,
            scheduledAt := At(now),
            lockedBy := None,
            leaseExpiresAt := None,
            finalizedAt := None)
    }
  }

  /** A freshly inserted row. */
  function Inserted(spec: NewJob, workflow: Option<WorkflowId>, uniqueKey: Option<Bytes>,
                    pending: nat, delay: real, now: real): Job
  {
    Job(spec, workflow, uniqueKey, Available, 0, [],
        if pending > 0 then Infinity else At(now + delay),
        None, None, None, None, None, pending)
  }

  /** `used` are the ids the sequence has given to rows that were inserted. Ids are
      drawn before their transaction commits, so they appear in any order. */
  datatype Table = Table(jobs: map<JobId, Job>, edges: set<Edge>, used: set<JobId>)

  const EmptyTable := Table(map[], {}, {})

  /** The partial unique index over live rows. */
  predicate UniqueLive(jobs: map<JobId, Job>) {
    forall a, b :: a in jobs && b in jobs && jobs[a].Live() && jobs[b].Live()
                   && jobs[a].uniqueKey.Some? && jobs[a].uniqueKey == jobs[b].uniqueKey
                   ==> a == b
  }

  /** Everything the database itself enforces. A statement whose proposal
      breaks it is aborted as a whole. */
  ghost predicate Constraints(db: Table) {
    && (forall id :: id in db.jobs ==> db.jobs[id].Checks())
    && UniqueLive(db.jobs)
  }

  predicate InQueue(job: Job, queue: Option<string>) {
    queue.None? || job.spec.queue == queue.value
  }

  // ---- inserting -----------------------------------------------------------

  function Enqueue(db: Table, id: JobId, spec: NewJob, delay: real, now: real): Table {
    db.(jobs := db.jobs[id := Inserted(spec, None, None, 0, delay, now)], used := db.used + {id})
  }

  predicate KeyIsLive(db: Table, key: Bytes) {
    exists id :: id in db.jobs && db.jobs[id].Live() && db.jobs[id].uniqueKey == Some(key)
  }

  /** `ON CONFLICT ... DO NOTHING` against the live rows. The row offered is checked
      before a conflict is looked for, so a bad one stands in the way of the whole
      statement even where the conflict would have kept it out. */
  ghost function EnqueueUnique(db: Table, id: JobId, spec: NewJob, key: Bytes, delay: real, now: real): Table {
    var row := Inserted(spec, None, Some(key), 0, delay, now);
    if KeyIsLive(db, key) && row.Checks() then db
    else db.(jobs := db.jobs[id := row], used := db.used + {id})
  }

  datatype Node = Node(spec: NewJob, delay: real)

  /** The position of an inserted node among the ids it was given. */
  ghost predicate NodeAt(ids: seq<JobId>, i: nat, id: JobId) {
    i < |ids| && ids[i] == id
  }

  ghost function PositionOf(ids: seq<JobId>, id: JobId): (i: nat)
    requires id in ids
    ensures NodeAt(ids, i, id)
  {
    var i :| 0 <= i < |ids| && ids[i] == id;
    i
  }

  function SetOf(ids: seq<JobId>): set<JobId> {
    set id | id in ids
  }

  function EdgeRows(edges: set<Edge>, ids: seq<JobId>): set<Edge>
    requires forall e :: e in edges ==> e.0 < |ids| && e.1 < |ids|
  {
    set e | e in edges :: (ids[e.0], ids[e.1])
  }

  /** A whole workflow becomes visible at once: every node with its in-degree
      as the count of unmet dependencies, and every edge between them. */
  ghost function InsertWorkflow(db: Table, flow: WorkflowId, nodes: seq<Node>, edges: set<Edge>,
                                ids: seq<JobId>, now: real): Table
    requires |ids| == |nodes|
    requires forall e :: e in edges ==> e.0 < |ids| && e.1 < |ids|
  {
    var added := map id | id in ids ::
      var i := PositionOf(ids, id);
      Inserted(nodes[i].spec, Some(flow), None, InDegree(edges, i), nodes[i].delay, now);
    Table(db.jobs + added,
          db.edges + EdgeRows(edges, ids),
          db.used + SetOf(ids))
  }

  // ---- leasing -------------------------------------------------------------

  /** Both fetch statements end in this update of the rows they chose. */
  function Lease(db: Table, picked: set<JobId>, worker: WorkerId, lease: real, now: real): Table {
    db.(jobs := map id | id in db.jobs ::
          if id in picked then db.jobs[id].Leased(worker, lease, now) else db.jobs[id])
  }

  function Renew(db: Table, ids: set<JobId>, worker: WorkerId, lease: real, now: real): Table {
    db.(jobs := map id | id in db.jobs ::
          if id in ids && db.jobs[id].HeldBy(worker) then db.jobs[id].LeaseUntil(now + lease) else db.jobs[id])
  }

  const Microsecond := 0.000001

  function Abandon(db: Table, ids: set<JobId>, worker: WorkerId, now: real): Table {
    db.(jobs := map id | id in db.jobs ::
          if id in ids && db.jobs[id].HeldBy(worker) then db.jobs[id].LeaseUntil(now - Microsecond) else db.jobs[id])
  }

  /** The error a reclaim that buries a job leaves behind. */
  const LeaseExpired := "lease expired before the worker reported an outcome"

  function Reclaim(db: Table, victims: set<JobId>, now: real): Table {
    db.(jobs := map id | id in db.jobs ::
          if id !in victims then db.jobs[id]
          else if db.jobs[id].attempt >= db.jobs[id].spec.maxAttempts
          then db.jobs[id].Buried(LeaseExpired, now)
          else db.jobs[id].Released())
  }

  // ---- settling ------------------------------------------------------------

  /** The reported rows the reporting worker still holds. */
  function Reported<R>(db: Table, reports: map<JobId, R>, worker: WorkerId): set<JobId> {
    set id | id in reports && id in db.jobs && db.jobs[id].HeldBy(worker)
  }

  /** The completing parents of a row. */
  function Finishing(db: Table, done: set<JobId>, child: JobId): set<JobId> {
    set p | p in done && (p, child) in db.edges
  }

  function CompletedRow(db: Table, reports: map<JobId, Option<Bytes>>, done: set<JobId>, now: real, id: JobId): Job
    requires id in db.jobs
    requires done <= reports.Keys
  {
    if id in done then db.jobs[id].Finished(reports[id], now)
    else if Finishing(db, done, id) != {} then db.jobs[id].Unblocked(|Finishing(db, done, id)|, now)
    else db.jobs[id]
  }

  function Complete(db: Table, reports: map<JobId, Option<Bytes>>, worker: WorkerId, now: real): Table {
    var done := Reported(db, reports, worker);
    db.(jobs := map id | id in db.jobs :: CompletedRow(db, reports, done, now, id))
  }

  ghost function Discard(db: Table, reports: map<JobId, string>, worker: WorkerId, now: real): Table {
    var dead := Reported(db, reports, worker);
    db.(jobs := map id | id in db.jobs ::
          if id in dead then db.jobs[id].Buried(reports[id], now)
          else if db.jobs[id].state.Available? && Downstream(db.edges, dead, id)
          then db.jobs[id].CancelledByCascade(now)
          else db.jobs[id])
  }

  /** A retryable failure, with the random draw its delay will use. */
  datatype Setback = Setback(error: string, draw: real)

  function Retry(db: Table, reports: map<JobId, Setback>, worker: WorkerId, base: real, cap: real, now: real): Table {
    var failed := Reported(db, reports, worker);
    db.(jobs := map id | id in db.jobs ::
          if id !in failed then db.jobs[id]
          else if db.jobs[id].attempt < db.jobs[id].spec.maxAttempts
          then db.jobs[id].Rescheduled(reports[id].error,
                                       Backoff.Delay(base, cap, db.jobs[id].attempt, reports[id].draw), now)
          else db.jobs[id].Buried(reports[id].error, now))
  }

  // ---- operating -----------------------------------------------------------

  function Cancel(db: Table, ids: set<JobId>, now: real): Table {
    db.(jobs := map id | id in db.jobs ::
          if id in ids && db.jobs[id].state.Available? then db.jobs[id].CancelledByUser(now) else db.jobs[id])
  }

  predicate ToRevive(job: Job, id: JobId, ids: Option<set<JobId>>, queue: Option<string>) {
    job.state.Discarded? && (ids.None? || id in ids.value) && InQueue(job, queue)
  }

  function Revive(db: Table, ids: Option<set<JobId>>, queue: Option<string>, now: real): Table {
    db.(jobs := map id | id in db.jobs ::
          if ToRevive(db.jobs[id], id, ids, queue) then db.jobs[id].Revived(now) else db.jobs[id])
  }

  /** Deleting a row deletes the edges at either end of it. */
  function Delete(db: Table, victims: set<JobId>): Table {
    db.(jobs := map id | id in db.jobs && id !in victims :: db.jobs[id],
        edges := set e | e in db.edges && e.0 !in victims && e.1 !in victims)
  }

  /** Retention may take a finished row only when no member of its workflow is
      still waiting or running. */
  predicate Prunable(db: Table, id: JobId, states: set<JobState>, olderThan: real,
                     queue: Option<string>, now: real)
  {
    && id in db.jobs
    && var job := db.jobs[id];
    && job.state in states
    && job.finalizedAt.Some? && job.finalizedAt.value < now - olderThan
    && InQueue(job, queue)
    && (job.workflow.None? ||
        forall other :: other in db.jobs && db.jobs[other].workflow == job.workflow ==> !db.jobs[other].Live())
  }

  function Purgeable(db: Table, queue: Option<string>): set<JobId> {
    set id | id in db.jobs && db.jobs[id].state.Discarded? && InQueue(db.jobs[id], queue)
  }
}
