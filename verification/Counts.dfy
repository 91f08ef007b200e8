/** What the statements of the backend count and take, told by the rows before and
    after: the numbers they return are of the rows they changed. */
module Counts {
  import opened Prelude
  import opened JobTable
  import opened Queue
  import opened QueueInvariant
  import opened Rows
  import opened Backend
  import Columns

  /** The rows a statement took from one state to another. */
  function Turned(db: Table, next: Table, from: JobState, to: JobState): set<JobId> {
    set id | id in db.jobs && id in next.jobs && db.jobs[id].state == from && next.jobs[id].state == to
  }

  /** A completion counts the jobs it completed. */
  lemma CompletionCounts(db: Table, seen: History, results: map<JobId, Option<Bytes>>, worker: WorkerId, now: real)
    requires Inv(db, seen)
    ensures var next := Exec(db, DoComplete(results, worker, now));
            Reported(db, results, worker) == Turned(db, next, Running, Completed)
  {
    NeverAborts(db, seen, DoComplete(results, worker, now));
  }

  /** A terminal failure counts the jobs it dead-lettered, and not those it
      cancelled. */
  lemma DiscardCounts(db: Table, seen: History, errors: map<JobId, string>, worker: WorkerId, now: real)
    requires Inv(db, seen)
    ensures var next := Exec(db, DoDiscard(errors, worker, now));
            Reported(db, errors, worker) == Turned(db, next, Running, Discarded)
  {
    NeverAborts(db, seen, DoDiscard(errors, worker, now));
  }

  /** A retry counts the jobs that wait again and those it dead-lettered. */
  lemma RetryCounts(db: Table, seen: History, setbacks: map<JobId, Setback>, worker: WorkerId, base: real, cap: real,
                    now: real)
    requires Inv(db, seen)
    ensures var next := Exec(db, DoRetry(setbacks, worker, base, cap, now));
            var failed := Reported(db, setbacks, worker);
            && OutOfAttempts(db, failed) == Turned(db, next, Running, Discarded)
            && failed - OutOfAttempts(db, failed) == Turned(db, next, Running, Available)
  {
    NeverAborts(db, seen, DoRetry(setbacks, worker, base, cap, now));
  }

  /** So does a reclaim. */
  lemma ReclaimCounts(db: Table, seen: History, victims: set<JobId>, now: real)
    requires Inv(db, seen) && Enabled(db, DoReclaim(victims, now))
    ensures var next := Exec(db, DoReclaim(victims, now));
            && OutOfAttempts(db, victims) == Turned(db, next, Running, Discarded)
            && victims - OutOfAttempts(db, victims) == Turned(db, next, Running, Available)
  {
    NeverAborts(db, seen, DoReclaim(victims, now));
  }

  /** A cancellation counts the jobs it cancelled. */
  lemma CancelCounts(db: Table, seen: History, ids: set<JobId>, now: real)
    requires Inv(db, seen)
    ensures WaitingAmong(db, ids) == Turned(db, Exec(db, DoCancel(ids, now)), Available, Cancelled)
  {
    NeverAborts(db, seen, DoCancel(ids, now));
  }

  /** An operator's retry returns the jobs it revived. */
  lemma ReviveCounts(db: Table, seen: History, chosen: Option<set<JobId>>, queue: Option<string>, now: real)
    requires Inv(db, seen) && !KeyClash(db, chosen, queue)
    ensures ToReviveIn(db, chosen, queue) ==
            Turned(db, Exec(db, DoRevive(chosen, queue, now)), Discarded, Available)
  {
    ReviveAborts(db, seen, chosen, queue, now);
  }

  /** What retention may take, by the columns. */
  predicate Expendable(db: Table, id: JobId, states: set<JobState>, age: real, queue: Option<string>, now: real) {
    && id in db.jobs && db.jobs[id].state in states && Columns.QueueIs(db.jobs[id], queue)
    && Columns.Old(db, id, age, now)
  }

  /** Both are over, and the one ended no later than the other. */
  predicate NoLater(db: Table, a: JobId, b: JobId) {
    && a in db.jobs && b in db.jobs && db.jobs[a].finalizedAt.Some? && db.jobs[b].finalizedAt.Some?
    && db.jobs[a].finalizedAt.value <= db.jobs[b].finalizedAt.value
  }

  /** Retention takes the rows that ended first among those it may take and nobody has
      locked, as many as the limit allows. */
  lemma PruneTakes(db: Table, states: set<JobState>, age: real, queue: Option<string>, now: real, skipped: set<JobId>,
                   limit: nat, victims: set<JobId>, wanted: set<JobId>)
    requires Oldest(db, PrunableRows(db, states, age, queue, now, skipped), limit, victims)
    requires forall id :: id in wanted <==> Expendable(db, id, states, age, queue, now) && id !in skipped
    ensures victims <= wanted && |victims| == if |wanted| < limit then |wanted| else limit
    ensures forall v, w :: v in victims && w in wanted && w !in victims ==> NoLater(db, v, w)
  {
    forall id ensures id in wanted <==> id in PrunableRows(db, states, age, queue, now, skipped) {
      assert Expendable(db, id, states, age, queue, now) <==> Prunable(db, id, states, age, queue, now);
    }
    assert wanted == PrunableRows(db, states, age, queue, now, skipped);
  }
}
