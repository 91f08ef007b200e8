/** What may happen to one job over a whole run: the states it passes through,
    who may end its lease, and how its attempts and errors are counted. */
module Lifecycle {
  import opened Prelude
  import opened JobTable
  import Backoff
  import opened Queue
  import opened QueueInvariant

  predicate Finalised(job: Job) {
    !job.Live()
  }

  /** The only changes a single statement makes to a row that it keeps. */
  predicate Evolves(before: Job, after: Job) {
    && after.spec == before.spec
    && after.workflow == before.workflow
    && after.uniqueKey == before.uniqueKey
    && match (before.state, after.state)
       case (Available, Available) => after.attempt == before.attempt && after.errors == before.errors
       case (Available, Running) => after.attempt == before.attempt + 1 && after.errors == before.errors
       case (Available, Cancelled) => after.attempt == before.attempt && after.errors == before.errors
       case (Running, Running) => after == before.(leaseExpiresAt := after.leaseExpiresAt)
       case (Running, Available) =>
         after.attempt == before.attempt &&
         (after.errors == before.errors || Appends(before, after))
       case (Running, Completed) => after.attempt == before.attempt && after.errors == before.errors
       case (Running, Discarded) => after.attempt == before.attempt && Appends(before, after)
       case (Discarded, Available) => after.attempt == 0 && after.errors == before.errors
       case (Cancelled, Cancelled) => after.attempt == before.attempt && after.errors == before.errors
       case (Completed, Completed) => after == before
       case (Discarded, Discarded) => after == before
       case _ => false
  }

  /** One more error entry, carrying the attempt that failed. */
  predicate Appends(before: Job, after: Job) {
    && |after.errors| == |before.errors| + 1
    && after.errors[..|before.errors|] == before.errors
    && after.errors[|before.errors|].attempt == before.attempt
  }

  /** A statement evolves every row it keeps, deletes only finished rows and
      inserts only fresh, unattempted ones. */
  ghost predicate TableEvolves(db: Table, next: Table) {
    && (forall id :: id in db.jobs && id in next.jobs ==> Evolves(db.jobs[id], next.jobs[id]))
    && (forall id :: id in db.jobs && id !in next.jobs ==> Finalised(db.jobs[id]))
    && (forall id :: id !in db.jobs && id in next.jobs ==>
          && id !in db.used && next.jobs[id].state.Available?
          && next.jobs[id].attempt == 0 && next.jobs[id].errors == [])
    && db.used <= next.used
  }

  lemma CompletedRowEvolves(db: Table, seen: History, results: map<JobId, Option<Bytes>>, worker: WorkerId, now: real,
                            id: JobId)
    requires Inv(db, seen) && id in db.jobs
    ensures Evolves(db.jobs[id], CompletedRow(db, results, Reported(db, results, worker), now, id))
  {
    var done := Reported(db, results, worker);
    FinishingAreUnmet(db, seen, done, id);
    assert Finishing(db, done, id) != {} ==> db.jobs[id].pendingDeps > 0;
  }

  lemma CompleteEvolves(db: Table, seen: History, results: map<JobId, Option<Bytes>>, worker: WorkerId, now: real)
    requires Inv(db, seen)
    ensures TableEvolves(db, Complete(db, results, worker, now))
  {
    forall id | id in db.jobs
      ensures Evolves(db.jobs[id], CompletedRow(db, results, Reported(db, results, worker), now, id))
    {
      CompletedRowEvolves(db, seen, results, worker, now, id);
    }
  }

  lemma LeasingEvolves(db: Table, picked: set<JobId>, worker: WorkerId, lease: real, now: real)
    requires Enabled(db, DoLease(picked, worker, lease, now))
    ensures TableEvolves(db, Lease(db, picked, worker, lease, now))
  {}

  lemma RenewingEvolves(db: Table, op: Op)
    requires op.DoRenew? || op.DoAbandon?
    ensures TableEvolves(db, Proposed(db, op))
  {}

  lemma BuryingEvolves(job: Job, error: string, now: real)
    requires job.state.Running?
    ensures Evolves(job, job.Buried(error, now))
  {}

  lemma ReschedulingEvolves(job: Job, error: string, delay: real, now: real)
    requires job.state.Running?
    ensures Evolves(job, job.Rescheduled(error, delay, now))
    ensures Evolves(job, job.Released())
  {}

  lemma DiscardEvolves(db: Table, errors: map<JobId, string>, worker: WorkerId, now: real)
    ensures TableEvolves(db, Discard(db, errors, worker, now))
  {
    forall id | id in db.jobs ensures Evolves(db.jobs[id], Discard(db, errors, worker, now).jobs[id]) {
      if db.jobs[id].state.Running? && id in errors {
        BuryingEvolves(db.jobs[id], errors[id], now);
      }
    }
  }

  lemma RetryEvolves(db: Table, setbacks: map<JobId, Setback>, worker: WorkerId, base: real, cap: real, now: real)
    ensures TableEvolves(db, Retry(db, setbacks, worker, base, cap, now))
  {
    forall id | id in db.jobs ensures Evolves(db.jobs[id], Retry(db, setbacks, worker, base, cap, now).jobs[id]) {
      var job := db.jobs[id];
      if job.state.Running? && id in setbacks {
        BuryingEvolves(job, setbacks[id].error, now);
        ReschedulingEvolves(job, setbacks[id].error, Backoff.Delay(base, cap, job.attempt, setbacks[id].draw), now);
      }
    }
  }

  lemma ReclaimEvolves(db: Table, victims: set<JobId>, now: real)
    requires Enabled(db, DoReclaim(victims, now))
    ensures TableEvolves(db, Reclaim(db, victims, now))
  {
    forall id | id in db.jobs ensures Evolves(db.jobs[id], Reclaim(db, victims, now).jobs[id]) {
      if id in victims {
        BuryingEvolves(db.jobs[id], LeaseExpired, now);
        ReschedulingEvolves(db.jobs[id], "", 0.0, now);
      }
    }
  }

  lemma CancellingEvolves(db: Table, ids: set<JobId>, now: real)
    ensures TableEvolves(db, Cancel(db, ids, now))
  {}

  lemma RevivingEvolves(db: Table, op: Op)
    requires Enabled(db, op) && op.DoRevive?
    ensures TableEvolves(db, Proposed(db, op))
  {}

  lemma DeletingEvolves(db: Table, op: Op)
    requires Enabled(db, op)
    requires op.DoPrune? || op.DoPurge?
    ensures TableEvolves(db, Proposed(db, op))
  {}

  lemma EnqueueEvolves(db: Table, seen: History, op: Op)
    requires KnownIds(db, seen) && Enabled(db, op)
    requires op.DoEnqueue? || op.DoEnqueueUnique?
    ensures TableEvolves(db, Proposed(db, op))
  {}

  lemma WorkflowEvolves(db: Table, seen: History, op: Op)
    requires Inv(db, seen) && Enabled(db, op) && op.DoInsertWorkflow?
    ensures TableEvolves(db, Proposed(db, op))
  {
    WorkflowGrows(db, seen, op.flow, op.nodes, op.edges, op.rowIds, op.now);
  }

  lemma LeaseholdersEvolve(db: Table, seen: History, op: Op)
    requires Inv(db, seen) && Enabled(db, op)
    requires op.DoLease? || op.DoRenew? || op.DoAbandon? || op.DoReclaim? || op.DoComplete? || op.DoDiscard? ||
             op.DoRetry?
    ensures TableEvolves(db, Proposed(db, op))
  {
    match op
    case DoLease(picked, worker, lease, now) => LeasingEvolves(db, picked, worker, lease, now);
    case DoRenew(_, _, _, _) => RenewingEvolves(db, op);
    case DoAbandon(_, _, _) => RenewingEvolves(db, op);
    case DoReclaim(victims, now) => ReclaimEvolves(db, victims, now);
    case DoComplete(results, worker, now) => CompleteEvolves(db, seen, results, worker, now);
    case DoDiscard(errors, worker, now) => DiscardEvolves(db, errors, worker, now);
    case DoRetry(setbacks, worker, base, cap, now) => RetryEvolves(db, setbacks, worker, base, cap, now);
  }

  lemma CallersEvolve(db: Table, seen: History, op: Op)
    requires Inv(db, seen) && Enabled(db, op)
    requires Inserts(op) || op.DoCancel? || op.DoRevive? || op.DoPrune? || op.DoPurge?
    ensures TableEvolves(db, Proposed(db, op))
  {
    match op
    case DoCancel(ids, now) => CancellingEvolves(db, ids, now);
    case DoRevive(_, _, _) => RevivingEvolves(db, op);
    case DoPrune(_, _, _, _, _) => DeletingEvolves(db, op);
    case DoPurge(_) => DeletingEvolves(db, op);
    case DoEnqueue(_, _, _, _) => EnqueueEvolves(db, seen, op);
    case DoEnqueueUnique(_, _, _, _, _) => EnqueueEvolves(db, seen, op);
    case DoInsertWorkflow(_, _, _, _, _) => WorkflowEvolves(db, seen, op);
  }

  lemma NothingEvolves(db: Table)
    ensures TableEvolves(db, db)
  {}

  lemma StepEvolves(db: Table, seen: History, op: Op)
    requires Inv(db, seen)
    ensures TableEvolves(db, Exec(db, op))
  {
    if !Enabled(db, op) || Aborts(db, op) {
      NothingEvolves(db);
    } else if Inserts(op) || op.DoCancel? || op.DoRevive? || op.DoPrune? || op.DoPurge? {
      CallersEvolve(db, seen, op);
    } else {
      LeaseholdersEvolve(db, seen, op);
    }
  }

  lemma RunEvolves(run: seq<Op>, i: nat)
    requires i < |run|
    ensures TableEvolves(TableAfter(run[..i]), TableAfter(run[..i + 1]))
  {
    ReachableInv(run[..i]);
    StepEvolves(TableAfter(run[..i]), SeenAfter(run[..i]), run[i]);
    assert run[..i + 1][..i] == run[..i];
  }

  /** A completed job is final: at every later point of the run its row is
      unchanged or has been pruned, so it is never leased again. */
  lemma {:induction false} CompletedIsFinal(run: seq<Op>, m: nat, n: nat, id: JobId)
    requires m <= n <= |run|
    requires id in TableAfter(run[..m]).jobs && TableAfter(run[..m]).jobs[id].state.Completed?
    ensures id in TableAfter(run[..n]).jobs ==> TableAfter(run[..n]).jobs[id] == TableAfter(run[..m]).jobs[id]
    ensures id in TableAfter(run[..n]).used
    decreases n - m
  {
    if m < n {
      CompletedIsFinal(run, m, n - 1, id);
      RunEvolves(run, n - 1);
      CompletedStays(TableAfter(run[..n - 1]), TableAfter(run[..n]), id);
    } else {
      ReachableInv(run[..m]);
    }
  }

  lemma CompletedStays(db: Table, next: Table, id: JobId)
    requires TableEvolves(db, next) && id in db.used && (id in db.jobs ==> db.jobs[id].state.Completed?)
    ensures id in next.used && (id in next.jobs ==> id in db.jobs && next.jobs[id] == db.jobs[id])
  {}

  // ---- leases --------------------------------------------------------------

  predicate Holds(db: Table, worker: WorkerId, id: JobId) {
    id in db.jobs && db.jobs[id].HeldBy(worker)
  }

  /** Statements that report outcomes. */
  predicate Settles(op: Op) {
    op.DoComplete? || op.DoRetry? || op.DoDiscard?
  }

  function Settled(op: Op): set<JobId>
    requires Settles(op)
  {
    match op
    case DoComplete(results, _, _) => results.Keys
    case DoRetry(setbacks, _, _, _, _) => setbacks.Keys
    case DoDiscard(errors, _, _) => errors.Keys
  }

  /** A settling statement ends every lease of its worker that it reports on,
      starts none and leaves the others as they are. */
  lemma SettlingEnds(db: Table, seen: History, op: Op, id: JobId)
    requires Inv(db, seen) && Settles(op)
    ensures Holds(Exec(db, op), op.worker, id) <==> Holds(db, op.worker, id) && id !in Settled(op)
    ensures Holds(Exec(db, op), op.worker, id) ==> Exec(db, op).jobs[id] == db.jobs[id]
  {
    NeverAborts(db, seen, op);
    if op.DoComplete? {
      CompletionEnds(db, seen, op, id);
    }
  }

  lemma CompletionEnds(db: Table, seen: History, op: Op, id: JobId)
    requires Inv(db, seen) && op.DoComplete?
    ensures var next := Complete(db, op.results, op.worker, op.now);
            && (Holds(next, op.worker, id) <==> Holds(db, op.worker, id) && id !in op.results)
            && (Holds(next, op.worker, id) ==> next.jobs[id] == db.jobs[id])
  {
    if id in db.jobs {
      FinishingAreUnmet(db, seen, Reported(db, op.results, op.worker), id);
    }
  }

  predicate IsRunning(db: Table, id: JobId) {
    id in db.jobs && db.jobs[id].state.Running?
  }

  /** A lease ends in one of two ways: the worker holding it reports on the
      job, or the lease had run out and was reclaimed. */
  predicate EndsLease(db: Table, op: Op, id: JobId)
    requires IsRunning(db, id)
  {
    match op
    case DoComplete(results, worker, _) => id in results && db.jobs[id].lockedBy == Some(worker)
    case DoDiscard(errors, worker, _) => id in errors && db.jobs[id].lockedBy == Some(worker)
    case DoRetry(setbacks, worker, _, _, _) => id in setbacks && db.jobs[id].lockedBy == Some(worker)
    case DoReclaim(victims, now) => id in victims && db.jobs[id].Expired(now)
    case _ => false
  }

  lemma LeaseEndsProperly(db: Table, seen: History, op: Op, id: JobId)
    requires Inv(db, seen) && IsRunning(db, id) && Enabled(db, op)
    ensures !IsRunning(Exec(db, op), id) <==> EndsLease(db, op, id)
  {
    if op.DoComplete? || op.DoDiscard? || op.DoRetry? || op.DoReclaim? {
      SettlingEndsLease(db, seen, op, id);
    } else {
      StepEvolves(db, seen, op);
      OthersKeepLease(db, op, id);
    }
  }

  lemma SettlingEndsLease(db: Table, seen: History, op: Op, id: JobId)
    requires Inv(db, seen) && IsRunning(db, id) && Enabled(db, op)
    requires op.DoComplete? || op.DoDiscard? || op.DoRetry? || op.DoReclaim?
    ensures !IsRunning(Exec(db, op), id) <==> EndsLease(db, op, id)
  {
    NeverAborts(db, seen, op);
    ProposedEndsLease(db, op, id);
    if op.DoComplete? {
      FinishingAreUnmet(db, seen, Reported(db, op.results, op.worker), id);
    }
  }

  lemma ProposedEndsLease(db: Table, op: Op, id: JobId)
    requires IsRunning(db, id) && Enabled(db, op)
    requires op.DoComplete? || op.DoDiscard? || op.DoRetry? || op.DoReclaim?
    ensures !IsRunning(Proposed(db, op), id) <==> EndsLease(db, op, id)
  {}

  lemma OthersKeepLease(db: Table, op: Op, id: JobId)
    requires RowsOk(db) && KnownIds(db, History({}, {}, {})) && IsRunning(db, id) && Enabled(db, op)
    requires TableEvolves(db, Exec(db, op))
    requires !op.DoComplete? && !op.DoDiscard? && !op.DoRetry? && !op.DoReclaim?
    ensures IsRunning(Exec(db, op), id)
  {
    assert id in Exec(db, op).jobs;
    if op.DoInsertWorkflow? {
      assert id !in op.rowIds;
    }
  }

  /** The worker on whose behalf a statement is fenced, if any. */
  function FencedTo(op: Op): Option<WorkerId> {
    match op
    case DoRenew(_, worker, _, _) => Some(worker)
    case DoAbandon(_, worker, _) => Some(worker)
    case DoComplete(_, worker, _) => Some(worker)
    case DoDiscard(_, worker, _) => Some(worker)
    case DoRetry(_, worker, _, _, _) => Some(worker)
    case _ => None
  }

  /** No report, renewal or abandonment by one worker touches a row another
      worker is running. */
  lemma Fencing(db: Table, seen: History, op: Op, id: JobId)
    requires Inv(db, seen) && FencedTo(op).Some?
    requires IsRunning(db, id) && db.jobs[id].lockedBy != FencedTo(op)
    ensures id in Exec(db, op).jobs && Exec(db, op).jobs[id] == db.jobs[id]
  {
    if op.DoComplete? {
      CompletionFenced(db, seen, op, id);
    } else {
      OthersFenced(db, op, id);
    }
  }

  lemma CompletionFenced(db: Table, seen: History, op: Op, id: JobId)
    requires Inv(db, seen) && op.DoComplete? && IsRunning(db, id) && db.jobs[id].lockedBy != Some(op.worker)
    ensures id in Exec(db, op).jobs && Exec(db, op).jobs[id] == db.jobs[id]
  {
    FinishingAreUnmet(db, seen, Reported(db, op.results, op.worker), id);
  }

  lemma OthersFenced(db: Table, op: Op, id: JobId)
    requires FencedTo(op).Some? && !op.DoComplete?
    requires IsRunning(db, id) && db.jobs[id].lockedBy != FencedTo(op)
    ensures id in Exec(db, op).jobs && Exec(db, op).jobs[id] == db.jobs[id]
  {}

  // ---- attempts and errors -------------------------------------------------

  ghost predicate ResetAt(prev: Table, cur: Table, id: JobId) {
    id !in prev.jobs || id !in cur.jobs || (prev.jobs[id].state.Discarded? && cur.jobs[id].state.Available?)
  }

  /** Leases observed since the job was inserted or last reset by an operator. */
  ghost function LeasesSince(run: seq<Op>, id: JobId): nat {
    if run == [] then 0 else
    var prev, cur := TableAfter(run[..|run| - 1]), TableAfter(run);
    if ResetAt(prev, cur, id) then 0
    else LeasesSince(run[..|run| - 1], id) + if !IsRunning(prev, id) && IsRunning(cur, id) then 1 else 0
  }

  /** How many errors the job had when it was last reset. */
  ghost function ErrorsBefore(run: seq<Op>, id: JobId): nat {
    if run == [] then 0 else
    var prev, cur := TableAfter(run[..|run| - 1]), TableAfter(run);
    if id !in prev.jobs || id !in cur.jobs then 0
    else if ResetAt(prev, cur, id) then |cur.jobs[id].errors|
    else ErrorsBefore(run[..|run| - 1], id)
  }

  /** Error entries from `mark` on carry strictly increasing attempts, none
      beyond the current one, which has no entry while it is still running. */
  predicate ErrorsOrdered(job: Job, mark: nat) {
    && mark <= |job.errors|
    && (forall i, j :: mark <= i < j < |job.errors| ==> job.errors[i].attempt < job.errors[j].attempt)
    && (forall i :: mark <= i < |job.errors| ==> 1 <= job.errors[i].attempt <= job.attempt)
    && (job.state.Running? ==> forall i :: mark <= i < |job.errors| ==> job.errors[i].attempt < job.attempt)
  }

  lemma EvolvesKeepsOrder(before: Job, after: Job, mark: nat)
    requires Evolves(before, after) && RowOk(before) && ErrorsOrdered(before, mark)
    ensures ErrorsOrdered(after, if before.state.Discarded? && after.state.Available? then |after.errors| else mark)
  {
    assert forall i :: 0 <= i < |before.errors| && |after.errors| > |before.errors| ==>
        after.errors[i] == after.errors[..|before.errors|][i];
  }

  /** In every run, the attempt counter is the number of leases since insertion
      or the last operator reset, and the errors recorded since then are in
      attempt order. */
  lemma {:induction false} AttemptsCounted(run: seq<Op>, id: JobId)
    requires id in TableAfter(run).jobs
    ensures TableAfter(run).jobs[id].attempt == LeasesSince(run, id)
    ensures ErrorsOrdered(TableAfter(run).jobs[id], ErrorsBefore(run, id))
    decreases |run|
  {
    if run != [] {
      var n := |run| - 1;
      ReachableInv(run[..n]);
      RunEvolves(run, n);
      assert run[..n + 1] == run;
      if id in TableAfter(run[..n]).jobs {
        AttemptsCounted(run[..n], id);
        CountsKept(TableAfter(run[..n]), TableAfter(run), id, LeasesSince(run[..n], id), ErrorsBefore(run[..n], id));
      }
    }
  }

  /** One step of the count, over two successive tables. */
  lemma CountsKept(prev: Table, cur: Table, id: JobId, leases: nat, mark: nat)
    requires TableEvolves(prev, cur) && RowsOk(prev) && id in prev.jobs && id in cur.jobs
    requires prev.jobs[id].attempt == leases && ErrorsOrdered(prev.jobs[id], mark)
    ensures cur.jobs[id].attempt ==
              if ResetAt(prev, cur, id) then 0 else leases + if !IsRunning(prev, id) && IsRunning(cur, id) then 1 else 0
    ensures ErrorsOrdered(cur.jobs[id], if ResetAt(prev, cur, id) then |cur.jobs[id].errors| else mark)
  {
    EvolvesKeepsOrder(prev.jobs[id], cur.jobs[id], mark);
  }
}
