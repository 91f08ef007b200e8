/** The queue as a state machine: one step per SQL statement, run by any number
    of workers, callers and operators in any order.

    A run is just a sequence of operations. Executing one is total: an operation
    whose rows are not there to be picked changes nothing, and one that would
    break a constraint of the database is aborted and changes nothing either.
    So a statement about every sequence of operations is a statement about
    every run. */
module Queue {
  import opened Prelude
  import opened Graph
  import opened JobTable

  datatype Op =
    | DoEnqueue(id: JobId, spec: NewJob, delay: real, now: real)
    | DoEnqueueUnique(id: JobId, spec: NewJob, key: Bytes, delay: real, now: real)
    | DoInsertWorkflow(flow: WorkflowId, nodes: seq<Node>, edges: set<Edge>, rowIds: seq<JobId>, now: real)
    | DoLease(picked: set<JobId>, worker: WorkerId, lease: real, now: real)
    | DoRenew(ids: set<JobId>, worker: WorkerId, lease: real, now: real)
    | DoAbandon(ids: set<JobId>, worker: WorkerId, now: real)
    | DoReclaim(victims: set<JobId>, now: real)
    | DoComplete(results: map<JobId, Option<Bytes>>, worker: WorkerId, now: real)
    | DoDiscard(errors: map<JobId, string>, worker: WorkerId, now: real)
    | DoRetry(setbacks: map<JobId, Setback>, worker: WorkerId, base: real, cap: real, now: real)
    | DoCancel(ids: set<JobId>, now: real)
    | DoRevive(chosen: Option<set<JobId>>, queue: Option<string>, now: real)
    | DoPrune(victims: set<JobId>, states: set<JobState>, olderThan: real, queue: Option<string>, now: real)
    | DoPurge(queue: Option<string>)

  /** An identity column gives no id twice, and the rows of one transaction get
      theirs in order. */
  ghost predicate FreshIds(db: Table, ids: seq<JobId>) {
    && (forall i :: 0 <= i < |ids| ==> ids[i] !in db.used)
    && (forall i, j :: 0 <= i < j < |ids| ==> ids[i] < ids[j])
  }

  /** Whether the rows and values an operation names are ones its statement
      could have chosen in this table. */
  ghost predicate Enabled(db: Table, op: Op) {
    match op
    case DoEnqueue(id, _, _, _) => id !in db.used
    case DoEnqueueUnique(id, _, _, _, _) => id !in db.used
    case DoInsertWorkflow(_, nodes, edges, ids, _) =>
      && |ids| == |nodes|
      && FreshIds(db, ids)
      && (forall e :: e in edges ==> e.0 < |ids| && e.1 < |ids|)
    case DoLease(picked, _, _, now) => forall id :: id in picked ==> id in db.jobs && db.jobs[id].DueBy(now)
    case DoReclaim(victims, now) => forall id :: id in victims ==> id in db.jobs && db.jobs[id].Expired(now)
    case DoPrune(victims, states, olderThan, queue, now) =>
      && states <= {Completed, Discarded, Cancelled}
      && forall id :: id in victims ==> Prunable(db, id, states, olderThan, queue, now)
    case _ => true
  }

  /** What the statement proposes. */
  ghost function Proposed(db: Table, op: Op): Table
    requires Enabled(db, op)
  {
    match op
    case DoEnqueue(id, spec, delay, now) => Enqueue(db, id, spec, delay, now)
    case DoEnqueueUnique(id, spec, key, delay, now) => EnqueueUnique(db, id, spec, key, delay, now)
    case DoInsertWorkflow(flow, nodes, edges, ids, now) => InsertWorkflow(db, flow, nodes, edges, ids, now)
    case DoLease(picked, worker, lease, now) => Lease(db, picked, worker, lease, now)
    case DoRenew(ids, worker, lease, now) => Renew(db, ids, worker, lease, now)
    case DoAbandon(ids, worker, now) => Abandon(db, ids, worker, now)
    case DoReclaim(victims, now) => Reclaim(db, victims, now)
    case DoComplete(results, worker, now) => Complete(db, results, worker, now)
    case DoDiscard(errors, worker, now) => Discard(db, errors, worker, now)
    case DoRetry(setbacks, worker, base, cap, now) => Retry(db, setbacks, worker, base, cap, now)
    case DoCancel(ids, now) => Cancel(db, ids, now)
    case DoRevive(chosen, queue, now) => Revive(db, chosen, queue, now)
    case DoPrune(victims, _, _, _, _) => Delete(db, victims)
    case DoPurge(queue) => Delete(db, Purgeable(db, queue))
  }

  ghost predicate Aborts(db: Table, op: Op) {
    Enabled(db, op) && !Constraints(Proposed(db, op))
  }

  ghost function Exec(db: Table, op: Op): Table {
    if Enabled(db, op) && Constraints(Proposed(db, op)) then Proposed(db, op) else db
  }

  /** What an observer who never forgets has seen in the table: edges and rows
      vanish when history is pruned, so promises about the past need this. */
  datatype History = History(inserted: set<Edge>, completed: set<JobId>, leased: set<JobId>)

  function InState(db: Table, state: JobState): set<JobId> {
    set id | id in db.jobs && db.jobs[id].state == state
  }

  function Observe(seen: History, db: Table): History {
    History(seen.inserted + db.edges,
            seen.completed + InState(db, Completed),
            seen.leased + InState(db, Running))
  }

  ghost function TableAfter(run: seq<Op>): Table {
    if run == [] then EmptyTable else Exec(TableAfter(run[..|run| - 1]), run[|run| - 1])
  }

  ghost function SeenAfter(run: seq<Op>): History {
    if run == [] then History({}, {}, {})
    else Observe(SeenAfter(run[..|run| - 1]), TableAfter(run))
  }

  lemma StepAt(run: seq<Op>, i: nat)
    requires i < |run|
    ensures TableAfter(run[..i + 1]) == Exec(TableAfter(run[..i]), run[i])
    ensures SeenAfter(run[..i + 1]) == Observe(SeenAfter(run[..i]), TableAfter(run[..i + 1]))
  {
    assert run[..i + 1][..i] == run[..i];
  }

  // ---- the invariant -------------------------------------------------------

  /** What holds of each row by itself. */
  predicate RowOk(job: Job) {
    && job.Checks()
    && (job.state.Running? <==> job.lockedBy.Some?)
    && (job.Live() <==> job.finalizedAt.None?)
    && 0 <= job.attempt
    && (job.state.Available? ==> (job.scheduledAt.Infinity? <==> job.pendingDeps > 0))
    && (job.state.Running? ==> job.attempt >= 1 && job.scheduledAt.At?)
    && (job.state.Running? || job.state.Completed? || job.state.Discarded? ==> job.pendingDeps == 0)
  }

  /** The inserted parents of a row that have never completed. */
  function Unmet(seen: History, id: JobId): set<JobId> {
    set e | e in seen.inserted && e.1 == id && e.0 !in seen.completed :: e.0
  }

  /** Edges are exactly the inserted ones whose two rows are both still there. */
  ghost predicate EdgesExact(db: Table, seen: History) {
    && db.edges <= seen.inserted
    && (forall e :: e in seen.inserted ==> (e in db.edges <==> e.0 in db.jobs && e.1 in db.jobs))
  }

  ghost predicate KnownIds(db: Table, seen: History) {
    && (forall id :: id in db.jobs ==> id in db.used)
    && (forall e :: e in seen.inserted ==> e.0 in db.used && e.1 in db.used)
    && (forall id :: id in seen.leased ==> id in db.used)
    && seen.completed <= seen.leased
  }

  ghost predicate RowsOk(db: Table) {
    forall id :: id in db.jobs ==> RowOk(db.jobs[id])
  }

  ghost predicate StatesSeen(db: Table, seen: History) {
    && (forall id :: id in db.jobs ==> (id in seen.completed <==> db.jobs[id].state.Completed?))
    && (forall id :: id in db.jobs && db.jobs[id].state.Running? ==> id in seen.leased)
  }

  /** The count a row carries is the number of inserted parents that have never
      completed. */
  ghost predicate PendingExact(db: Table, seen: History) {
    forall id :: id in db.jobs ==> db.jobs[id].pendingDeps == |Unmet(seen, id)|
  }

  /** Nothing has ever been leased with a parent still to complete. */
  ghost predicate LeasedInOrder(seen: History) {
    forall id :: id in seen.leased ==> Unmet(seen, id) == {}
  }

  ghost predicate Inv(db: Table, seen: History) {
    && RowsOk(db)
    && UniqueLive(db.jobs)
    && KnownIds(db, seen)
    && EdgesExact(db, seen)
    && StatesSeen(db, seen)
    && PendingExact(db, seen)
    && LeasedInOrder(seen)
  }
}
