/** Every step of every run keeps the invariant, and no statement is ever
    aborted by a constraint except where the caller's own values break it. */
module QueueInvariant {
  import opened Prelude
  import opened Graph
  import opened JobTable
  import opened Queue

  lemma ObserveNothingNew(db: Table, seen: History)
    requires Inv(db, seen)
    ensures Observe(seen, db) == seen
  {
    assert InState(db, Completed) <= seen.completed;
    assert InState(db, Running) <= seen.leased;
  }

  /** Updates that neither insert, delete nor complete rows. */
  lemma TouchKeepsInv(db: Table, seen: History, next: Table)
    requires Inv(db, seen) && UniqueLive(next.jobs)
    requires next.jobs.Keys == db.jobs.Keys && next.edges == db.edges && next.used == db.used
    requires forall id :: id in next.jobs ==>
               && RowOk(next.jobs[id])
               && next.jobs[id].pendingDeps == db.jobs[id].pendingDeps
               && (next.jobs[id].state.Completed? <==> db.jobs[id].state.Completed?)
    ensures Inv(next, Observe(seen, next))
  {
    var now := Observe(seen, next);
    assert now.inserted == seen.inserted;
    assert now.completed == seen.completed;
    forall id ensures Unmet(now, id) == Unmet(seen, id) {}
    forall id | id in now.leased && id !in seen.leased ensures Unmet(now, id) == {} && id in next.used {
      assert next.jobs[id].state.Running?;
      assert db.jobs[id].pendingDeps == 0;
    }
  }

  lemma DeleteKeepsInv(db: Table, seen: History, victims: set<JobId>)
    requires Inv(db, seen)
    ensures Inv(Delete(db, victims), Observe(seen, Delete(db, victims)))
  {
    var next := Delete(db, victims);
    var now := Observe(seen, next);
    assert now.inserted == seen.inserted;
    assert InState(next, Completed) <= seen.completed;
    assert InState(next, Running) <= seen.leased;
    assert now == seen;
  }

  /** Whatever touches rows one by one never adds a live row, except revival. */
  lemma FewerLive(db: Table, next: Table)
    requires UniqueLive(db.jobs) && next.jobs.Keys <= db.jobs.Keys
    requires forall id :: id in next.jobs ==>
               next.jobs[id].uniqueKey == db.jobs[id].uniqueKey && (next.jobs[id].Live() ==> db.jobs[id].Live())
    ensures UniqueLive(next.jobs)
  {}

  /** The new rows and edges of an insertion, told apart from the old ones. */
  ghost predicate Grows(db: Table, next: Table) {
    && db.used <= next.used
    && db.jobs.Keys <= next.jobs.Keys && db.edges <= next.edges
    && (forall id :: id in db.jobs ==> next.jobs[id] == db.jobs[id])
    && (forall id :: id in next.jobs && id !in db.jobs ==>
          id !in db.used && id in next.used && next.jobs[id].state.Available?)
    && (forall e :: e in next.edges && e !in db.edges ==>
          e.0 in next.jobs && e.1 in next.jobs && e.0 !in db.jobs && e.1 !in db.jobs)
  }

  lemma InsertionSeen(db: Table, seen: History, next: Table)
    requires Inv(db, seen) && Grows(db, next)
    ensures Observe(seen, next) == seen.(inserted := seen.inserted + next.edges)
    ensures KnownIds(next, Observe(seen, next)) && EdgesExact(next, Observe(seen, next))
    ensures StatesSeen(next, Observe(seen, next))
  {
    assert InState(next, Completed) <= seen.completed;
    assert InState(next, Running) <= seen.leased;
    var now := Observe(seen, next);
    forall e | e in now.inserted
      ensures e in next.edges <==> e.0 in next.jobs && e.1 in next.jobs
      ensures e.0 in next.used && e.1 in next.used
    {
      if e in seen.inserted {
        assert e.0 in db.used && e.1 in db.used;
      }
    }
  }

  lemma InsertKeepsInv(db: Table, seen: History, next: Table)
    requires Inv(db, seen) && Grows(db, next) && UniqueLive(next.jobs) && RowsOk(next)
    requires forall id :: id in next.jobs && id !in db.jobs ==> next.jobs[id].pendingDeps == InDegree(next.edges, id)
    ensures Inv(next, Observe(seen, next))
  {
    var now := Observe(seen, next);
    InsertionSeen(db, seen, next);
    forall id | id in db.used ensures Unmet(now, id) == Unmet(seen, id) {
      assert forall e :: e in now.inserted && e.1 == id ==> e in seen.inserted;
    }
    forall id | id in next.jobs && id !in db.jobs ensures next.jobs[id].pendingDeps == |Unmet(now, id)| {
      ParentsOfNewRow(db, seen, next, id);
    }
  }

  /** Every parent of a new row is itself new, so none has completed. */
  lemma ParentsOfNewRow(db: Table, seen: History, next: Table, id: JobId)
    requires Inv(db, seen) && Grows(db, next) && id !in db.used
    requires Observe(seen, next) == seen.(inserted := seen.inserted + next.edges)
    ensures |Unmet(Observe(seen, next), id)| == InDegree(next.edges, id)
  {
    var now := Observe(seen, next);
    forall e | e in now.inserted && e.1 == id ensures e in Into(next.edges, id) && e.0 !in now.completed {
      assert e !in seen.inserted;
      assert e.0 !in db.used;
      assert e.0 !in seen.leased;
    }
    assert Unmet(now, id) == Sources(Into(next.edges, id));
    SourcesCount(Into(next.edges, id), id);
  }

  function Sources(edges: set<Edge>): set<JobId> {
    set e | e in edges :: e.0
  }

  lemma {:induction false} SourcesCount(into: set<Edge>, id: JobId)
    requires forall e :: e in into ==> e.1 == id
    ensures |Sources(into)| == |into|
    decreases |into|
  {
    if into != {} {
      var e :| e in into;
      var rest := into - {e};
      SourcesCount(rest, id);
      assert e.0 !in Sources(rest);
      assert Sources(into) == Sources(rest) + {e.0};
    }
  }

  // ---- statement by statement ----------------------------------------------

  lemma LeaseKeepsInv(db: Table, seen: History, picked: set<JobId>, worker: WorkerId, lease: real, now: real)
    requires Inv(db, seen)
    requires forall id :: id in picked ==> id in db.jobs && db.jobs[id].DueBy(now)
    requires Constraints(Lease(db, picked, worker, lease, now))
    ensures Inv(Lease(db, picked, worker, lease, now), Observe(seen, Lease(db, picked, worker, lease, now)))
  {
    var next := Lease(db, picked, worker, lease, now);
    FewerLive(db, next);
    TouchKeepsInv(db, seen, next);
  }

  lemma RenewKeepsInv(db: Table, seen: History, ids: set<JobId>, worker: WorkerId, lease: real, now: real)
    requires Inv(db, seen)
    ensures Constraints(Renew(db, ids, worker, lease, now))
    ensures Inv(Renew(db, ids, worker, lease, now), Observe(seen, Renew(db, ids, worker, lease, now)))
  {
    var next := Renew(db, ids, worker, lease, now);
    FewerLive(db, next);
    TouchKeepsInv(db, seen, next);
  }

  lemma AbandonKeepsInv(db: Table, seen: History, ids: set<JobId>, worker: WorkerId, now: real)
    requires Inv(db, seen)
    ensures Constraints(Abandon(db, ids, worker, now))
    ensures Inv(Abandon(db, ids, worker, now), Observe(seen, Abandon(db, ids, worker, now)))
  {
    var next := Abandon(db, ids, worker, now);
    FewerLive(db, next);
    TouchKeepsInv(db, seen, next);
  }

  lemma ReclaimKeepsInv(db: Table, seen: History, victims: set<JobId>, now: real)
    requires Inv(db, seen)
    requires forall id :: id in victims ==> id in db.jobs && db.jobs[id].Expired(now)
    ensures Constraints(Reclaim(db, victims, now))
    ensures Inv(Reclaim(db, victims, now), Observe(seen, Reclaim(db, victims, now)))
  {
    var next := Reclaim(db, victims, now);
    ReclaimTouches(db, victims, now);
    FewerLive(db, next);
    TouchKeepsInv(db, seen, next);
  }

  lemma ReclaimTouches(db: Table, victims: set<JobId>, now: real)
    requires RowsOk(db) && forall id :: id in victims ==> id in db.jobs && db.jobs[id].Expired(now)
    ensures forall id :: id in db.jobs ==> Touched(db.jobs[id], Reclaim(db, victims, now).jobs[id])
  {}

  /** An update that neither completes nor revives a row, nor touches its count. */
  predicate Touched(before: Job, after: Job) {
    && RowOk(after) && after.pendingDeps == before.pendingDeps && after.uniqueKey == before.uniqueKey
    && (after.state.Completed? <==> before.state.Completed?) && (after.Live() ==> before.Live())
  }

  lemma DiscardKeepsInv(db: Table, seen: History, errors: map<JobId, string>, worker: WorkerId, now: real)
    requires Inv(db, seen)
    ensures Constraints(Discard(db, errors, worker, now))
    ensures Inv(Discard(db, errors, worker, now), Observe(seen, Discard(db, errors, worker, now)))
  {
    var next := Discard(db, errors, worker, now);
    DiscardTouches(db, errors, worker, now);
    FewerLive(db, next);
    TouchKeepsInv(db, seen, next);
  }

  lemma DiscardTouches(db: Table, errors: map<JobId, string>, worker: WorkerId, now: real)
    requires RowsOk(db)
    ensures forall id :: id in db.jobs ==> Touched(db.jobs[id], Discard(db, errors, worker, now).jobs[id])
  {}

  lemma RetryKeepsInv(db: Table, seen: History, setbacks: map<JobId, Setback>, worker: WorkerId,
                      base: real, cap: real, now: real)
    requires Inv(db, seen)
    ensures Constraints(Retry(db, setbacks, worker, base, cap, now))
    ensures Inv(Retry(db, setbacks, worker, base, cap, now),
                Observe(seen, Retry(db, setbacks, worker, base, cap, now)))
  {
    var next := Retry(db, setbacks, worker, base, cap, now);
    RetryTouches(db, setbacks, worker, base, cap, now);
    FewerLive(db, next);
    TouchKeepsInv(db, seen, next);
  }

  lemma RetryTouches(db: Table, setbacks: map<JobId, Setback>, worker: WorkerId, base: real, cap: real, now: real)
    requires RowsOk(db)
    ensures forall id :: id in db.jobs ==> Touched(db.jobs[id], Retry(db, setbacks, worker, base, cap, now).jobs[id])
  {}

  lemma CancelKeepsInv(db: Table, seen: History, ids: set<JobId>, now: real)
    requires Inv(db, seen)
    ensures Constraints(Cancel(db, ids, now))
    ensures Inv(Cancel(db, ids, now), Observe(seen, Cancel(db, ids, now)))
  {
    var next := Cancel(db, ids, now);
    FewerLive(db, next);
    TouchKeepsInv(db, seen, next);
  }

  lemma ReviveKeepsInv(db: Table, seen: History, chosen: Option<set<JobId>>, queue: Option<string>, now: real)
    requires Inv(db, seen)
    ensures Constraints(Revive(db, chosen, queue, now)) <==> UniqueLive(Revive(db, chosen, queue, now).jobs)
    ensures Constraints(Revive(db, chosen, queue, now)) ==>
              Inv(Revive(db, chosen, queue, now), Observe(seen, Revive(db, chosen, queue, now)))
  {
    var next := Revive(db, chosen, queue, now);
    if UniqueLive(next.jobs) {
      TouchKeepsInv(db, seen, next);
    }
  }

  // ---- completion ----------------------------------------------------------

  /** Rows being completed and rows being released are never the same row, so
      no row is updated twice by the statement. */
  lemma DoneAndReleasedDisjoint(db: Table, seen: History, done: set<JobId>, id: JobId)
    requires Inv(db, seen)
    requires forall p :: p in done ==> p in db.jobs && db.jobs[p].state.Running?
    requires id in done
    ensures Finishing(db, done, id) == {}
  {
    assert Unmet(seen, id) == {};
    assert Finishing(db, done, id) <= Unmet(seen, id);
  }

  lemma FinishingAreUnmet(db: Table, seen: History, done: set<JobId>, id: JobId)
    requires Inv(db, seen) && id in db.jobs
    requires forall p :: p in done ==> p in db.jobs && db.jobs[p].state.Running?
    ensures Finishing(db, done, id) == Unmet(seen, id) * done
    ensures |Finishing(db, done, id)| <= |Unmet(seen, id)|
    ensures |Unmet(seen, id) - done| == |Unmet(seen, id)| - |Finishing(db, done, id)|
  {
    assert Unmet(seen, id) == (Unmet(seen, id) * done) + (Unmet(seen, id) - done);
  }

  /** What completion does to the state of one row. */
  ghost predicate SettledState(before: Job, after: Job, done: bool) {
    && after.uniqueKey == before.uniqueKey
    && (after.Live() ==> before.Live())
    && (after.state.Completed? <==> before.state.Completed? || done)
    && (after.state.Running? ==> before.state.Running?)
  }

  lemma CompletedRowOk(db: Table, seen: History, results: map<JobId, Option<Bytes>>, done: set<JobId>, now: real,
                       id: JobId)
    requires Inv(db, seen) && id in db.jobs && done <= results.Keys
    requires forall p :: p in done ==> p in db.jobs && db.jobs[p].state.Running?
    ensures RowOk(CompletedRow(db, results, done, now, id))
    ensures SettledState(db.jobs[id], CompletedRow(db, results, done, now, id), id in done)
    ensures CompletedRow(db, results, done, now, id).pendingDeps == |Unmet(seen, id) - done|
  {
    FinishingAreUnmet(db, seen, done, id);
    if id in done {
      DoneAndReleasedDisjoint(db, seen, done, id);
    }
  }

  ghost predicate Finishes(db: Table, done: set<JobId>, next: Table) {
    && next.jobs.Keys == db.jobs.Keys && next.edges == db.edges && next.used == db.used
    && (forall p :: p in done ==> p in db.jobs && db.jobs[p].state.Running?)
    && forall id :: id in db.jobs ==> SettledState(db.jobs[id], next.jobs[id], id in done)
  }

  lemma CompletionSeen(db: Table, seen: History, done: set<JobId>, next: Table)
    requires StatesSeen(db, seen) && EdgesExact(db, seen) && KnownIds(db, seen) && Finishes(db, done, next)
    ensures Observe(seen, next) == seen.(completed := seen.completed + done)
    ensures StatesSeen(next, Observe(seen, next)) && EdgesExact(next, Observe(seen, next))
    ensures KnownIds(next, Observe(seen, next))
  {
    assert InState(next, Completed) <= seen.completed + done;
    assert done <= InState(next, Completed);
    assert InState(next, Running) <= seen.leased;
    assert next.edges <= seen.inserted;
  }

  lemma UnmetAfterCompletion(seen: History, done: set<JobId>, id: nat)
    ensures Unmet(seen.(completed := seen.completed + done), id) == Unmet(seen, id) - done
  {}

  lemma CompleteKeepsInv(db: Table, seen: History, results: map<JobId, Option<Bytes>>, worker: WorkerId, now: real)
    requires Inv(db, seen)
    ensures Constraints(Complete(db, results, worker, now))
    ensures Inv(Complete(db, results, worker, now), Observe(seen, Complete(db, results, worker, now)))
  {
    var next := Complete(db, results, worker, now);
    var done := Reported(db, results, worker);
    CompletedRowsOk(db, seen, results, worker, now);
    NobodyLeasedWaits(seen, done);
    FewerLive(db, next);
    CompletionSeen(db, seen, done, next);
  }

  lemma CompletedRowsOk(db: Table, seen: History, results: map<JobId, Option<Bytes>>, worker: WorkerId, now: real)
    requires Inv(db, seen)
    ensures var next := Complete(db, results, worker, now);
            var done := Reported(db, results, worker);
            && RowsOk(next) && Finishes(db, done, next)
            && PendingExact(next, seen.(completed := seen.completed + done))
  {
    var next := Complete(db, results, worker, now);
    var done := Reported(db, results, worker);
    forall id | id in db.jobs
      ensures SettledState(db.jobs[id], next.jobs[id], id in done) && RowOk(next.jobs[id])
      ensures next.jobs[id].pendingDeps == |Unmet(seen.(completed := seen.completed + done), id)|
    {
      CompletedRowOk(db, seen, results, done, now, id);
      UnmetAfterCompletion(seen, done, id);
    }
  }

  lemma NobodyLeasedWaits(seen: History, done: set<JobId>)
    requires LeasedInOrder(seen)
    ensures LeasedInOrder(seen.(completed := seen.completed + done))
  {
    forall id | id in seen.leased ensures Unmet(seen.(completed := seen.completed + done), id) == {} {
      UnmetAfterCompletion(seen, done, id);
    }
  }

  // ---- inserting -----------------------------------------------------------

  lemma EnqueueKeepsInv(db: Table, seen: History, id: JobId, job: Job)
    requires Inv(db, seen) && id !in db.used
    requires job.state.Available? && job.attempt == 0 && job.pendingDeps == 0 && job.scheduledAt.At?
    requires job.lockedBy.None? && job.finalizedAt.None?
    requires Constraints(db.(jobs := db.jobs[id := job], used := db.used + {id}))
    ensures Inv(db.(jobs := db.jobs[id := job], used := db.used + {id}),
                Observe(seen, db.(jobs := db.jobs[id := job], used := db.used + {id})))
  {
    var next := db.(jobs := db.jobs[id := job], used := db.used + {id});
    assert id !in db.jobs;
    assert Into(next.edges, id) == {};
    InsertKeepsInv(db, seen, next);
  }

  lemma EdgeRowOnce(edges: set<Edge>, ids: seq<JobId>, e: Edge)
    requires forall f :: f in edges ==> f.0 < |ids| && f.1 < |ids|
    requires forall j, k :: 0 <= j < k < |ids| ==> ids[j] < ids[k]
    requires e.0 < |ids| && e.1 < |ids| && e !in edges
    ensures (ids[e.0], ids[e.1]) !in EdgeRows(edges, ids)
  {
    forall f | f in edges ensures (ids[f.0], ids[f.1]) != (ids[e.0], ids[e.1]) {
      assert f.0 != e.0 || f.1 != e.1;
    }
  }

  /** Each edge into a node becomes one edge row into its job. */
  lemma {:induction false} EdgeRowsInto(edges: set<Edge>, ids: seq<JobId>, i: nat)
    requires forall e :: e in edges ==> e.0 < |ids| && e.1 < |ids|
    requires forall j, k :: 0 <= j < k < |ids| ==> ids[j] < ids[k]
    requires i < |ids|
    ensures InDegree(EdgeRows(edges, ids), ids[i]) == InDegree(edges, i)
    decreases |edges|
  {
    if edges == {} {
      assert EdgeRows(edges, ids) == {};
      assert Into(edges, i) == {} && Into(EdgeRows(edges, ids), ids[i]) == {};
    } else {
      var e :| e in edges;
      var rest := edges - {e};
      EdgeRowsInto(rest, ids, i);
      EdgeRowOnce(rest, ids, e);
      var row := (ids[e.0], ids[e.1]);
      assert EdgeRows(edges, ids) == EdgeRows(rest, ids) + {row};
      IntoGrows(rest, e, i);
      IntoGrows(EdgeRows(rest, ids), row, ids[i]);
      assert rest + {e} == edges;
      assert ids[e.1] == ids[i] <==> e.1 == i;
    }
  }

  lemma WorkflowGrows(db: Table, seen: History, flow: WorkflowId, nodes: seq<Node>, edges: set<Edge>,
                      ids: seq<JobId>, now: real)
    requires Inv(db, seen) && |ids| == |nodes| && FreshIds(db, ids)
    requires forall e :: e in edges ==> e.0 < |ids| && e.1 < |ids|
    ensures Grows(db, InsertWorkflow(db, flow, nodes, edges, ids, now))
  {
    var next := InsertWorkflow(db, flow, nodes, edges, ids, now);
    forall id | id in ids ensures id !in db.used && id in next.used && id !in db.jobs {
      var i := PositionOf(ids, id);
    }
    forall e | e in EdgeRows(edges, ids) ensures e.0 in ids && e.1 in ids {}
  }

  lemma WorkflowRow(db: Table, flow: WorkflowId, nodes: seq<Node>, edges: set<Edge>,
                    ids: seq<JobId>, now: real, id: JobId)
    requires |ids| == |nodes| && FreshIds(db, ids) && id in ids
    requires forall e :: e in edges ==> e.0 < |ids| && e.1 < |ids|
    requires forall e :: e in db.edges ==> e.1 in db.used
    ensures var next := InsertWorkflow(db, flow, nodes, edges, ids, now);
            var i := PositionOf(ids, id);
            && next.jobs[id] == Inserted(nodes[i].spec, Some(flow), None, InDegree(next.edges, id), nodes[i].delay, now)
  {
    var next := InsertWorkflow(db, flow, nodes, edges, ids, now);
    var i := PositionOf(ids, id);
    EdgeRowsInto(edges, ids, i);
    assert Into(next.edges, id) == Into(EdgeRows(edges, ids), ids[i]);
  }

  lemma WorkflowKeepsInv(db: Table, seen: History, flow: WorkflowId, nodes: seq<Node>, edges: set<Edge>,
                         ids: seq<JobId>, now: real)
    requires Inv(db, seen) && |ids| == |nodes| && FreshIds(db, ids)
    requires forall e :: e in edges ==> e.0 < |ids| && e.1 < |ids|
    requires Constraints(InsertWorkflow(db, flow, nodes, edges, ids, now))
    ensures Inv(InsertWorkflow(db, flow, nodes, edges, ids, now),
                Observe(seen, InsertWorkflow(db, flow, nodes, edges, ids, now)))
  {
    var next := InsertWorkflow(db, flow, nodes, edges, ids, now);
    WorkflowGrows(db, seen, flow, nodes, edges, ids, now);
    forall id | id in next.jobs && id !in db.jobs
      ensures RowOk(next.jobs[id]) && next.jobs[id].pendingDeps == InDegree(next.edges, id)
    {
      WorkflowRow(db, flow, nodes, edges, ids, now, id);
      assert next.jobs[id].Checks();
    }
    InsertKeepsInv(db, seen, next);
  }

  // ---- constraints -----------------------------------------------------------

  predicate Inserts(op: Op) {
    op.DoEnqueue? || op.DoEnqueueUnique? || op.DoInsertWorkflow?
  }

  /** No statement other than an insert, a lease or an operator's retry can be
      aborted. */
  lemma NeverAborts(db: Table, seen: History, op: Op)
    requires Inv(db, seen) && Enabled(db, op) && !Inserts(op) && !op.DoLease? && !op.DoRevive?
    ensures Exec(db, op) == Proposed(db, op)
  {
    match op
    case DoRenew(ids, worker, lease, now) => RenewKeepsInv(db, seen, ids, worker, lease, now);
    case DoAbandon(ids, worker, now) => AbandonKeepsInv(db, seen, ids, worker, now);
    case DoReclaim(victims, now) => ReclaimKeepsInv(db, seen, victims, now);
    case DoComplete(results, worker, now) => CompleteKeepsInv(db, seen, results, worker, now);
    case DoDiscard(errors, worker, now) => DiscardKeepsInv(db, seen, errors, worker, now);
    case DoRetry(setbacks, worker, base, cap, now) => RetryKeepsInv(db, seen, setbacks, worker, base, cap, now);
    case DoCancel(ids, now) => CancelKeepsInv(db, seen, ids, now);
    case DoPrune(victims, _, _, _, _) => DeleteKeepsInv(db, seen, victims);
    case DoPurge(queue) => DeleteKeepsInv(db, seen, Purgeable(db, queue));
  }

  /** What the table asks of a new job: a positive limit, if any, and no
      negative number of attempts. Zero attempts pass. */
  predicate Insertable(spec: NewJob) {
    (spec.limit.Some? ==> spec.limit.value.max > 0) && spec.maxAttempts >= 0
  }

  /** A due row that a lease cannot take without breaking its bound. */
  predicate Exhausted(db: Table, picked: set<JobId>) {
    exists id :: id in picked && id in db.jobs && db.jobs[id].attempt >= db.jobs[id].spec.maxAttempts
  }

  /** Two rows that an operator's retry would make live under one unique key:
      one it revives, and one it also revives or that is live already. */
  ghost predicate KeyClash(db: Table, chosen: Option<set<JobId>>, queue: Option<string>) {
    exists a, b :: Clash(db, chosen, queue, a, b)
  }

  ghost predicate Clash(db: Table, chosen: Option<set<JobId>>, queue: Option<string>, a: JobId, b: JobId) {
    && a in db.jobs && b in db.jobs && a != b
    && db.jobs[a].uniqueKey.Some? && db.jobs[a].uniqueKey == db.jobs[b].uniqueKey
    && ToRevive(db.jobs[a], a, chosen, queue)
    && (db.jobs[b].Live() || ToRevive(db.jobs[b], b, chosen, queue))
  }

  /** Each statement is aborted exactly when the values handed to it, or the
      rows it picked, break a constraint: a new job that is not insertable, a
      batch with a row that has no attempt left, or a revived unique key that is
      live again elsewhere. Nothing else ever is. */
  lemma AbortsExactlyWhen(db: Table, seen: History, op: Op)
    requires Inv(db, seen) && Enabled(db, op)
    ensures Aborts(db, op) <==>
      match op
      case DoEnqueue(_, spec, _, _) => !Insertable(spec)
      case DoEnqueueUnique(_, spec, _, _, _) => !Insertable(spec)
      case DoInsertWorkflow(_, nodes, _, _, _) => exists i :: 0 <= i < |nodes| && !Insertable(nodes[i].spec)
      case DoLease(picked, _, _, _) => Exhausted(db, picked)
      case DoRevive(chosen, queue, _) => KeyClash(db, chosen, queue)
      case _ => false
  {
    match op
    case DoEnqueue(_, _, _, _) => EnqueueAborts(db, seen, op);
    case DoEnqueueUnique(_, _, _, _, _) => EnqueueAborts(db, seen, op);
    case DoInsertWorkflow(flow, nodes, edges, ids, now) => WorkflowAborts(db, seen, flow, nodes, edges, ids, now);
    case DoLease(picked, worker, lease, now) => LeaseAborts(db, seen, picked, worker, lease, now);
    case DoRevive(chosen, queue, now) => ReviveAborts(db, seen, chosen, queue, now);
    case _ => NeverAborts(db, seen, op);
  }

  lemma EnqueueAborts(db: Table, seen: History, op: Op)
    requires RowsOk(db) && UniqueLive(db.jobs) && KnownIds(db, seen) && Enabled(db, op)
    requires op.DoEnqueue? || op.DoEnqueueUnique?
    ensures Aborts(db, op) <==> !Insertable(op.spec)
  {
    var next := Proposed(db, op);
    if next != db {
      assert next.jobs[op.id].spec == op.spec;
    }
  }

  lemma LeaseAborts(db: Table, seen: History, picked: set<JobId>, worker: WorkerId, lease: real, now: real)
    requires Inv(db, seen) && Enabled(db, DoLease(picked, worker, lease, now))
    ensures Constraints(Lease(db, picked, worker, lease, now)) <==> !Exhausted(db, picked)
  {
    var next := Lease(db, picked, worker, lease, now);
    FewerLive(db, next);
    forall id | id in picked ensures next.jobs[id].Checks() <==> db.jobs[id].attempt < db.jobs[id].spec.maxAttempts {}
  }

  lemma WorkflowAborts(db: Table, seen: History, flow: WorkflowId, nodes: seq<Node>, edges: set<Edge>,
                       ids: seq<JobId>, now: real)
    requires Inv(db, seen) && |ids| == |nodes| && FreshIds(db, ids)
    requires forall e :: e in edges ==> e.0 < |ids| && e.1 < |ids|
    ensures Constraints(InsertWorkflow(db, flow, nodes, edges, ids, now)) <==>
              forall i :: 0 <= i < |nodes| ==> Insertable(nodes[i].spec)
  {
    var next := InsertWorkflow(db, flow, nodes, edges, ids, now);
    WorkflowGrows(db, seen, flow, nodes, edges, ids, now);
    forall i | 0 <= i < |ids| ensures ids[i] in next.jobs && next.jobs[ids[i]].uniqueKey.None?
                              ensures next.jobs[ids[i]].Checks() <==> Insertable(nodes[i].spec) {
      WorkflowRow(db, flow, nodes, edges, ids, now, ids[i]);
      assert PositionOf(ids, ids[i]) == i;
    }
    AddedRowsCheck(db, next, ids);
    if Constraints(next) {
      assert forall i :: 0 <= i < |ids| ==> next.jobs[ids[i]].Checks();
    }
  }

  lemma AddedRowsCheck(db: Table, next: Table, ids: seq<JobId>)
    requires RowsOk(db) && UniqueLive(db.jobs)
    requires next.jobs.Keys == db.jobs.Keys + (set id | id in ids)
    requires forall id :: id in db.jobs ==> id !in ids && next.jobs[id] == db.jobs[id]
    requires forall i :: 0 <= i < |ids| ==> next.jobs[ids[i]].uniqueKey.None?
    ensures Constraints(next) <==> forall i :: 0 <= i < |ids| ==> next.jobs[ids[i]].Checks()
  {
    assert UniqueLive(next.jobs);
    if forall i :: 0 <= i < |ids| ==> next.jobs[ids[i]].Checks() {
      forall id | id in next.jobs ensures next.jobs[id].Checks() {}
    }
  }

  lemma RevivedRow(db: Table, chosen: Option<set<JobId>>, queue: Option<string>, now: real, id: JobId)
    requires id in db.jobs
    ensures var row := Revive(db, chosen, queue, now).jobs[id];
            && row.uniqueKey == db.jobs[id].uniqueKey
            && (row.Live() <==> db.jobs[id].Live() || ToRevive(db.jobs[id], id, chosen, queue))
  {}

  lemma ReviveClashes(db: Table, chosen: Option<set<JobId>>, queue: Option<string>, now: real)
    requires UniqueLive(db.jobs)
    ensures UniqueLive(Revive(db, chosen, queue, now).jobs) <==> !KeyClash(db, chosen, queue)
  {
    var jobs := Revive(db, chosen, queue, now).jobs;
    forall id | id in db.jobs ensures jobs[id].uniqueKey == db.jobs[id].uniqueKey
                              ensures jobs[id].Live() <==>
                                        db.jobs[id].Live() || ToRevive(db.jobs[id], id, chosen, queue) {
      RevivedRow(db, chosen, queue, now, id);
    }
    if a, b :| Clash(db, chosen, queue, a, b) {
      assert jobs[a].Live() && jobs[b].Live();
    } else {
      forall a, b | a in jobs && b in jobs && jobs[a].Live() && jobs[b].Live()
                    && jobs[a].uniqueKey.Some? && jobs[a].uniqueKey == jobs[b].uniqueKey
        ensures a == b
      {
        assert !Clash(db, chosen, queue, a, b) && !Clash(db, chosen, queue, b, a);
      }
    }
  }

  lemma ReviveAborts(db: Table, seen: History, chosen: Option<set<JobId>>, queue: Option<string>, now: real)
    requires Inv(db, seen)
    ensures Constraints(Revive(db, chosen, queue, now)) <==> !KeyClash(db, chosen, queue)
  {
    ReviveKeepsInv(db, seen, chosen, queue, now);
    ReviveClashes(db, chosen, queue, now);
  }

  // ---- every step, every run -----------------------------------------------

  lemma InsertionKeepsInv(db: Table, seen: History, op: Op)
    requires Inv(db, seen) && Inserts(op) && Enabled(db, op) && Constraints(Proposed(db, op))
    ensures Inv(Proposed(db, op), Observe(seen, Proposed(db, op)))
  {
    match op
    case DoEnqueue(id, spec, delay, now) =>
      EnqueueKeepsInv(db, seen, id, Inserted(spec, None, None, 0, delay, now));
    case DoEnqueueUnique(id, spec, key, delay, now) =>
      if Proposed(db, op) == db {
        ObserveNothingNew(db, seen);
      } else {
        EnqueueKeepsInv(db, seen, id, Inserted(spec, None, Some(key), 0, delay, now));
      }
    case DoInsertWorkflow(flow, nodes, edges, ids, now) => WorkflowKeepsInv(db, seen, flow, nodes, edges, ids, now);
  }

  lemma UpdateKeepsInv(db: Table, seen: History, op: Op)
    requires Inv(db, seen) && !Inserts(op) && Enabled(db, op) && Constraints(Proposed(db, op))
    ensures Inv(Proposed(db, op), Observe(seen, Proposed(db, op)))
  {
    match op
    case DoLease(picked, worker, lease, now) => LeaseKeepsInv(db, seen, picked, worker, lease, now);
    case DoRenew(ids, worker, lease, now) => RenewKeepsInv(db, seen, ids, worker, lease, now);
    case DoAbandon(ids, worker, now) => AbandonKeepsInv(db, seen, ids, worker, now);
    case DoReclaim(victims, now) => ReclaimKeepsInv(db, seen, victims, now);
    case DoComplete(results, worker, now) => CompleteKeepsInv(db, seen, results, worker, now);
    case DoDiscard(errors, worker, now) => DiscardKeepsInv(db, seen, errors, worker, now);
    case DoRetry(setbacks, worker, base, cap, now) => RetryKeepsInv(db, seen, setbacks, worker, base, cap, now);
    case DoCancel(ids, now) => CancelKeepsInv(db, seen, ids, now);
    case DoRevive(chosen, queue, now) => ReviveKeepsInv(db, seen, chosen, queue, now);
    case DoPrune(victims, _, _, _, _) => DeleteKeepsInv(db, seen, victims);
    case DoPurge(queue) => DeleteKeepsInv(db, seen, Purgeable(db, queue));
  }

  lemma StepKeepsInv(db: Table, seen: History, op: Op)
    requires Inv(db, seen)
    ensures Inv(Exec(db, op), Observe(seen, Exec(db, op)))
  {
    if !Enabled(db, op) || Aborts(db, op) {
      ObserveNothingNew(db, seen);
    } else if Inserts(op) {
      InsertionKeepsInv(db, seen, op);
    } else {
      UpdateKeepsInv(db, seen, op);
    }
  }

  lemma {:induction false} ReachableInv(run: seq<Op>)
    ensures Inv(TableAfter(run), SeenAfter(run))
    decreases |run|
  {
    if run == [] {
      assert forall id: nat :: Unmet(History({}, {}, {}), id) == {};
    } else {
      var before := run[..|run| - 1];
      ReachableInv(before);
      StepKeepsInv(TableAfter(before), SeenAfter(before), run[|run| - 1]);
    }
  }
}
