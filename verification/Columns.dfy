/** What the statements write, column by column and told without the model's own
    row functions: which rows a statement may change at all, and what its clock, its
    texts and its results leave in them. */
module Columns {
  import opened Prelude
  import opened Graph
  import opened JobTable
  import opened Queue
  import opened QueueInvariant
  import Effects

  /** The jobs among the reported ones that the reporting worker is running. */
  predicate Reports(db: Table, reported: set<JobId>, worker: WorkerId, id: JobId) {
    id in reported && id in db.jobs && db.jobs[id].state.Running? && db.jobs[id].lockedBy == Some(worker)
  }

  /** Whether a statement is about a row: named by it and in the state it asks for,
      or waiting for a job it completes, or downstream of one it buries. */
  ghost predicate About(db: Table, op: Op, id: JobId) {
    && id in db.jobs
    && match op
       case DoLease(picked, _, _, _) => id in picked
       case DoRenew(ids, worker, _, _) => Reports(db, ids, worker, id)
       case DoAbandon(ids, worker, _) => Reports(db, ids, worker, id)
       case DoReclaim(victims, _) => id in victims
       case DoComplete(results, worker, _) =>
         Reports(db, results.Keys, worker, id)
         || exists p :: (p, id) in db.edges && Reports(db, results.Keys, worker, p)
       case DoDiscard(errors, worker, _) =>
         Reports(db, errors.Keys, worker, id)
         || (db.jobs[id].state.Available?
             && exists p :: Reports(db, errors.Keys, worker, p) && Reaches(db.edges, p, id))
       case DoRetry(setbacks, worker, _, _, _) => Reports(db, setbacks.Keys, worker, id)
       case DoCancel(ids, _) => id in ids && db.jobs[id].state.Available?
       case DoRevive(chosen, queue, _) =>
         && db.jobs[id].state.Discarded? && (chosen.None? || id in chosen.value)
         && (queue.None? || db.jobs[id].spec.queue == queue.value)
       case DoPrune(victims, _, _, _, _) => id in victims
       case DoPurge(queue) => db.jobs[id].state.Discarded? && (queue.None? || db.jobs[id].spec.queue == queue.value)
       case _ => false
  }

  predicate Kept(db: Table, next: Table, id: JobId)
    requires id in db.jobs
  {
    id in next.jobs && next.jobs[id] == db.jobs[id]
  }

  lemma CompletionIsAbout(db: Table, op: Op, id: JobId)
    requires op.DoComplete? && id in db.jobs && !About(db, op, id)
    ensures Kept(db, Exec(db, op), id)
  {
    var done := Reported(db, op.results, op.worker);
    assert Finishing(db, done, id) == {} by {
      if p :| p in Finishing(db, done, id) {
        assert (p, id) in db.edges && Reports(db, op.results.Keys, op.worker, p);
      }
    }
  }

  lemma DiscardIsAbout(db: Table, op: Op, id: JobId)
    requires op.DoDiscard? && id in db.jobs && !About(db, op, id)
    ensures Kept(db, Exec(db, op), id)
  {}

  lemma InsertIsAbout(db: Table, seen: History, op: Op, id: JobId)
    requires KnownIds(db, seen) && Inserts(op) && id in db.jobs
    ensures Kept(db, Exec(db, op), id)
  {
    if Enabled(db, op) && op.DoInsertWorkflow? {
      assert id !in op.rowIds;
    }
  }

  lemma OthersAreAbout(db: Table, op: Op, id: JobId)
    requires !op.DoComplete? && !op.DoDiscard? && !Inserts(op) && id in db.jobs && !About(db, op, id)
    ensures Kept(db, Exec(db, op), id)
  {}

  /** A statement leaves every row alone that it is not about. */
  lemma OnlyItsRowsChange(db: Table, seen: History, op: Op, id: JobId)
    requires Inv(db, seen) && id in db.jobs && !About(db, op, id)
    ensures Kept(db, Exec(db, op), id)
  {
    if op.DoComplete? {
      CompletionIsAbout(db, op, id);
    } else if op.DoDiscard? {
      DiscardIsAbout(db, op, id);
    } else if Inserts(op) {
      InsertIsAbout(db, seen, op, id);
    } else {
      OthersAreAbout(db, op, id);
    }
  }

  // ---- what is left in the columns -----------------------------------------

  /** The text a statement has for a job that failed. */
  function TextFor(op: Op, id: JobId): string {
    match op
    case DoDiscard(errors, _, _) => if id in errors then errors[id] else ""
    case DoRetry(setbacks, _, _, _, _) => if id in setbacks then setbacks[id].error else ""
    case DoReclaim(_, _) => LeaseExpired
    case _ => ""
  }

  /** Statements that read the clock. */
  predicate Clocked(op: Op) {
    !op.DoPurge?
  }

  /** Every column that changes tells when, why or what by the statement's own
      values. */
  predicate Tells(op: Op, id: JobId, before: Job, after: Job) {
    && (before.Live() && !after.Live() ==> Clocked(op) && after.finalizedAt == Some(op.now))
    && (!before.state.Running? && after.state.Running? ==> op.DoLease? && after.startedAt == Some(op.now))
    && (after.errors != before.errors ==>
          Clocked(op) && after.errors == before.errors + [Failure(before.attempt, op.now, TextFor(op, id))])
    && (after.result != before.result ==> op.DoComplete? && id in op.results && after.result == op.results[id])
    && (after.scheduledAt != before.scheduledAt && !op.DoRetry? ==>
          (op.DoComplete? || op.DoRevive?) && after.scheduledAt == At(op.now))
    && (after.startedAt != before.startedAt ==> op.DoLease?)
    && (after.finalizedAt != before.finalizedAt ==> after.Live() != before.Live())
  }

  ghost predicate TellsAt(db: Table, op: Op, next: Table, id: JobId) {
    id in db.jobs && id in next.jobs ==> Tells(op, id, db.jobs[id], next.jobs[id])
  }

  lemma FinishedTells(op: Op, id: JobId, before: Job)
    requires op.DoComplete? && id in op.results && before.Live()
    ensures Tells(op, id, before, before.Finished(op.results[id], op.now))
  {}

  lemma UnblockedTells(op: Op, id: JobId, before: Job, finishing: nat)
    requires op.DoComplete? && finishing <= before.pendingDeps
    ensures Tells(op, id, before, before.Unblocked(finishing, op.now))
  {}

  lemma CompletionTells(db: Table, seen: History, op: Op, id: JobId)
    requires Inv(db, seen) && op.DoComplete?
    ensures TellsAt(db, op, Exec(db, op), id)
  {
    var done := Reported(db, op.results, op.worker);
    if id in done {
      FinishedTells(op, id, db.jobs[id]);
    } else if id in db.jobs && Finishing(db, done, id) != {} {
      FinishingAreUnmet(db, seen, done, id);
      UnblockedTells(op, id, db.jobs[id], |Finishing(db, done, id)|);
    }
  }

  lemma BuriedTells(op: Op, id: JobId, before: Job)
    requires (op.DoDiscard? || op.DoRetry? || op.DoReclaim?) && before.Live()
    ensures Tells(op, id, before, before.Buried(TextFor(op, id), op.now))
  {}

  lemma DiscardTells(db: Table, op: Op, id: JobId)
    requires op.DoDiscard?
    ensures TellsAt(db, op, Exec(db, op), id)
  {
    if id in Reported(db, op.errors, op.worker) {
      BuriedTells(op, id, db.jobs[id]);
    }
  }

  lemma RetryTells(db: Table, op: Op, id: JobId)
    requires op.DoRetry?
    ensures TellsAt(db, op, Exec(db, op), id)
  {
    if id in Reported(db, op.setbacks, op.worker) {
      BuriedTells(op, id, db.jobs[id]);
    }
  }

  lemma ReclaimTells(db: Table, op: Op, id: JobId)
    requires op.DoReclaim?
    ensures TellsAt(db, op, Exec(db, op), id)
  {
    if Enabled(db, op) && id in op.victims {
      BuriedTells(op, id, db.jobs[id]);
    }
  }

  lemma LeaseTells(db: Table, op: Op, id: JobId)
    requires op.DoLease? || op.DoRenew? || op.DoAbandon?
    ensures TellsAt(db, op, Exec(db, op), id)
  {}

  lemma CallerTells(db: Table, seen: History, op: Op, id: JobId)
    requires RowsOk(db) && KnownIds(db, seen)
    requires Inserts(op) || op.DoCancel? || op.DoRevive? || op.DoPrune? || op.DoPurge?
    ensures TellsAt(db, op, Exec(db, op), id)
  {
    if Inserts(op) && id in db.jobs {
      InsertIsAbout(db, seen, op, id);
    }
  }

  /** Whatever a statement changes of a row that stays, the new value is the one the
      statement was given: its clock, the text or the result reported for that job. */
  lemma ColumnsTell(db: Table, seen: History, op: Op, id: JobId)
    requires Inv(db, seen)
    ensures TellsAt(db, op, Exec(db, op), id)
  {
    if op.DoComplete? {
      CompletionTells(db, seen, op, id);
    } else if op.DoDiscard? {
      DiscardTells(db, op, id);
    } else if op.DoRetry? {
      RetryTells(db, op, id);
    } else if op.DoReclaim? {
      ReclaimTells(db, op, id);
    } else if op.DoLease? || op.DoRenew? || op.DoAbandon? {
      LeaseTells(db, op, id);
    } else {
      CallerTells(db, seen, op, id);
    }
  }

  /** And every failure that its worker reports is written down. */
  lemma FailureIsWritten(db: Table, seen: History, op: Op, id: JobId)
    requires Inv(db, seen)
    requires (op.DoDiscard? && Reports(db, op.errors.Keys, op.worker, id))
             || (op.DoRetry? && Reports(db, op.setbacks.Keys, op.worker, id))
    ensures var next := Exec(db, op);
            && id in next.jobs
            && next.jobs[id].errors == db.jobs[id].errors + [Failure(db.jobs[id].attempt, op.now, TextFor(op, id))]
            && (op.DoDiscard? ==> next.jobs[id].state.Discarded?)
  {
    NeverAborts(db, seen, op);
  }

  // ---- rows that go --------------------------------------------------------

  /** Over for longer than `age`, and part of no workflow that has a live member. */
  predicate Old(db: Table, id: JobId, age: real, now: real)
    requires id in db.jobs
  {
    && db.jobs[id].finalizedAt.Some? && db.jobs[id].finalizedAt.value + age < now
    && (db.jobs[id].workflow.Some? ==>
          forall m :: m in db.jobs && db.jobs[m].workflow == db.jobs[id].workflow ==>
                        !db.jobs[m].state.Available? && !db.jobs[m].state.Running?)
  }

  predicate QueueIs(job: Job, queue: Option<string>) {
    match queue
    case None => true
    case Some(name) => job.spec.queue == name
  }

  /** Rows are deleted by retention, each of them over, old enough and of the states
      and the queue asked for, and by purging, all dead letters of the queue, and by
      nothing else. */
  lemma GoneExactly(db: Table, seen: History, op: Op, id: JobId)
    requires Inv(db, seen) && Enabled(db, op) && id in db.jobs
    ensures id !in Exec(db, op).jobs <==>
            || (op.DoPrune? && id in op.victims)
            || (op.DoPurge? && db.jobs[id].state.Discarded? && QueueIs(db.jobs[id], op.queue))
    ensures op.DoPrune? && id in op.victims ==>
            && db.jobs[id].state in op.states && !db.jobs[id].Live()
            && QueueIs(db.jobs[id], op.queue) && Old(db, id, op.olderThan, op.now)
  {
    if op.DoPrune? || op.DoPurge? {
      NeverAborts(db, seen, op);
    } else if Inserts(op) {
      InsertIsAbout(db, seen, op, id);
    }
  }

  /** A cancellation ends the waiting jobs it names, at once, and leaves the running
      ones running. */
  lemma CancelledExactly(db: Table, seen: History, ids: set<JobId>, now: real, id: JobId)
    requires Inv(db, seen) && id in db.jobs
    ensures var next := Exec(db, DoCancel(ids, now));
            && id in next.jobs
            && next.jobs[id].state == if id in ids && db.jobs[id].state.Available? then Cancelled
                                      else db.jobs[id].state
  {
    NeverAborts(db, seen, DoCancel(ids, now));
  }

  // ---- new rows ------------------------------------------------------------

  /** A new job is the one that was asked for, and due from its delay on. */
  lemma EnqueuedAsAsked(db: Table, op: Op)
    requires (op.DoEnqueue? || op.DoEnqueueUnique?) && Enabled(db, op) && !Aborts(db, op)
    requires op.DoEnqueueUnique? ==> !KeyIsLive(db, op.key)
    ensures var next := Exec(db, op);
            && op.id in next.jobs && next.jobs[op.id].spec == op.spec && next.jobs[op.id].workflow.None?
            && next.jobs[op.id].uniqueKey == (if op.DoEnqueueUnique? then Some(op.key) else None)
            && Effects.DueFrom(next.jobs[op.id], op.now + op.delay)
            && next.jobs.Keys == db.jobs.Keys + {op.id}
  {}

  /** A workflow node is the job written for it, due from its delay on if it waits
      for nobody and not due at all otherwise. */
  lemma NodesAsAsked(db: Table, op: Op, i: nat)
    requires op.DoInsertWorkflow? && Enabled(db, op) && !Aborts(db, op) && i < |op.rowIds|
    ensures var next := Exec(db, op);
            && i < |op.nodes| && op.rowIds[i] in next.jobs
            && next.jobs[op.rowIds[i]].spec == op.nodes[i].spec && next.jobs[op.rowIds[i]].workflow == Some(op.flow)
            && next.jobs[op.rowIds[i]].uniqueKey.None?
            && if exists p :: (p, i) in op.edges then Effects.NeverDue(next.jobs[op.rowIds[i]])
               else Effects.DueFrom(next.jobs[op.rowIds[i]], op.now + op.nodes[i].delay)
  {
    assert PositionOf(op.rowIds, op.rowIds[i]) == i;
    if p :| (p, i) in op.edges {
      assert (p, i) in Into(op.edges, i);
    } else {
      assert Into(op.edges, i) == {};
    }
  }
}
