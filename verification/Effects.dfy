/** What a statement means for a job from the outside: when it can be fetched or
    reclaimed again, what is remembered of it, and for how long. */
module Effects {
  import opened Prelude
  import opened JobTable
  import Backoff
  import opened Queue
  import opened QueueInvariant
  import opened Lifecycle
  import opened FanIn

  /** The row can be fetched from `start` on and not before. */
  ghost predicate DueFrom(job: Job, start: real) {
    forall t :: job.DueBy(t) <==> t >= start
  }

  ghost predicate NeverDue(job: Job) {
    forall t :: !job.DueBy(t)
  }

  /** A reclaim at `t` may take the row. */
  ghost predicate Reclaimable(db: Table, id: JobId, t: real) {
    exists victims :: id in victims && Enabled(db, DoReclaim(victims, t))
  }

  lemma ReclaimableWhenExpired(db: Table, id: JobId, t: real)
    requires id in db.jobs
    ensures Reclaimable(db, id, t) <==> db.jobs[id].Expired(t)
  {
    if db.jobs[id].Expired(t) {
      assert id in {id} && Enabled(db, DoReclaim({id}, t));
    }
  }

  /** A lease protects its job for exactly its length. */
  lemma LeaseProtects(db: Table, seen: History, picked: set<JobId>, worker: WorkerId, lease: real, now: real, id: JobId)
    requires Inv(db, seen) && Enabled(db, DoLease(picked, worker, lease, now)) && !Exhausted(db, picked) && id in picked
    ensures var next := Exec(db, DoLease(picked, worker, lease, now));
            && id in next.jobs && next.jobs[id].HeldBy(worker)
            && forall t :: Reclaimable(next, id, t) <==> t > now + lease
  {
    var next := Lease(db, picked, worker, lease, now);
    AbortsExactlyWhen(db, seen, DoLease(picked, worker, lease, now));
    forall t ensures Reclaimable(next, id, t) <==> t > now + lease {
      ReclaimableWhenExpired(next, id, t);
    }
  }

  /** A renewal by the holder does so anew, whatever was left. */
  lemma RenewalProtects(db: Table, seen: History, ids: set<JobId>, worker: WorkerId, lease: real, now: real, id: JobId)
    requires Inv(db, seen) && id in ids && id in db.jobs && db.jobs[id].HeldBy(worker)
    ensures var next := Exec(db, DoRenew(ids, worker, lease, now));
            && id in next.jobs && next.jobs[id].HeldBy(worker)
            && forall t :: Reclaimable(next, id, t) <==> t > now + lease
  {
    var next := Renew(db, ids, worker, lease, now);
    NeverAborts(db, seen, DoRenew(ids, worker, lease, now));
    forall t ensures Reclaimable(next, id, t) <==> t > now + lease {
      ReclaimableWhenExpired(next, id, t);
    }
  }

  /** What a failed session abandons can be recovered at once: the reclaim that
      follows, at no earlier a moment, makes it due as it was before the lease,
      or buries it if that was its last attempt. */
  lemma HandedBackAtOnce(db: Table, seen: History, ids: set<JobId>, worker: WorkerId, now: real, t: real, id: JobId)
    requires Inv(db, seen) && id in ids && id in db.jobs && db.jobs[id].HeldBy(worker) && t >= now
    ensures var next := Exec(db, DoAbandon(ids, worker, now));
            && Enabled(next, DoReclaim({id}, t))
            && var back := Exec(next, DoReclaim({id}, t));
               id in back.jobs
               && if db.jobs[id].attempt < db.jobs[id].spec.maxAttempts
                  then DueFrom(back.jobs[id], db.jobs[id].scheduledAt.time)
                  else back.jobs[id].state.Discarded?
  {
    var next := Abandon(db, ids, worker, now);
    NeverAborts(db, seen, DoAbandon(ids, worker, now));
    StepKeepsInv(db, seen, DoAbandon(ids, worker, now));
    NeverAborts(next, Observe(seen, next), DoReclaim({id}, t));
    RecoveredRow(next, id, t);
  }

  lemma RecoveredRow(db: Table, id: JobId, t: real)
    requires id in db.jobs && db.jobs[id].state.Running? && db.jobs[id].scheduledAt.At?
    ensures var row := Reclaim(db, {id}, t).jobs[id];
            if db.jobs[id].attempt < db.jobs[id].spec.maxAttempts
            then DueFrom(row, db.jobs[id].scheduledAt.time) && row.errors == db.jobs[id].errors
            else row.state.Discarded?
                 && Remembers(db.jobs[id], row, LeaseExpired, t)
  {}

  /** One more error than before, for this attempt, with this text. */
  predicate Remembers(before: Job, after: Job, text: string, at: real) {
    after.errors == before.errors + [Failure(before.attempt, at, text)]
  }

  /** A retryable failure is remembered. With attempts left the job comes due in
      the jitter window of its backoff and at no other time; without, it never
      does. */
  lemma RetryBacksOff(db: Table, seen: History, setbacks: map<JobId, Setback>, worker: WorkerId,
                      base: real, cap: real, now: real, id: JobId) returns (start: real)
    requires Inv(db, seen) && id in setbacks && id in db.jobs && db.jobs[id].HeldBy(worker)
    requires base > 0.0 && cap > 0.0 && 0.0 <= setbacks[id].draw < 1.0
    ensures var next := Exec(db, DoRetry(setbacks, worker, base, cap, now));
            var nominal := Backoff.Nominal(base, cap, db.jobs[id].attempt);
            && id in next.jobs && Remembers(db.jobs[id], next.jobs[id], setbacks[id].error, now)
            && (db.jobs[id].attempt < db.jobs[id].spec.maxAttempts ==>
                  DueFrom(next.jobs[id], start) && now + nominal / 2.0 <= start < now + nominal)
            && (db.jobs[id].attempt >= db.jobs[id].spec.maxAttempts ==>
                  next.jobs[id].state.Discarded? && NeverDue(next.jobs[id]))
  {
    var job := db.jobs[id];
    NeverAborts(db, seen, DoRetry(setbacks, worker, base, cap, now));
    Backoff.DelayWithinHalf(base, cap, job.attempt, setbacks[id].draw);
    start := now + Backoff.Delay(base, cap, job.attempt, setbacks[id].draw);
    RetriedRow(db, setbacks, worker, base, cap, now, id);
  }

  lemma RetriedRow(db: Table, setbacks: map<JobId, Setback>, worker: WorkerId, base: real, cap: real, now: real,
                   id: JobId)
    requires id in setbacks && id in db.jobs && db.jobs[id].HeldBy(worker)
    ensures var row := Retry(db, setbacks, worker, base, cap, now).jobs[id];
            && Remembers(db.jobs[id], row, setbacks[id].error, now)
            && if db.jobs[id].attempt < db.jobs[id].spec.maxAttempts
               then DueFrom(row, now + Backoff.Delay(base, cap, db.jobs[id].attempt, setbacks[id].draw))
               else row.state.Discarded?
  {}

  /** An operator's retry that commits makes the job due at once with all its
      attempts, and forgets none of its errors. */
  lemma ReviveStartsOver(db: Table, seen: History, chosen: Option<set<JobId>>, queue: Option<string>, now: real,
                         id: JobId)
    requires Inv(db, seen) && id in db.jobs && ToRevive(db.jobs[id], id, chosen, queue) && !KeyClash(db, chosen, queue)
    ensures var next := Exec(db, DoRevive(chosen, queue, now));
            && id in next.jobs && DueFrom(next.jobs[id], now)
            && next.jobs[id].attempt == 0 <= next.jobs[id].spec.maxAttempts
            && next.jobs[id].errors == db.jobs[id].errors && next.jobs[id].finalizedAt.None?
  {
    ReviveAborts(db, seen, chosen, queue, now);
  }

  /** Completing its last unmet parents makes a waiting child due at that very
      moment; completing only some of them leaves it parked. */
  lemma LastParentReleases(db: Table, seen: History, results: map<JobId, Option<Bytes>>, worker: WorkerId, now: real,
                           c: JobId)
    requires Inv(db, seen) && c in db.jobs && db.jobs[c].state.Available? && Unmet(seen, c) != {}
    ensures var next := Exec(db, DoComplete(results, worker, now));
            && c in next.jobs
            && if Unmet(seen, c) <= Reported(db, results, worker) then
                  DueFrom(next.jobs[c], now) else NeverDue(next.jobs[c])
  {
    var done := Reported(db, results, worker);
    var unmet := Unmet(seen, c);
    NeverAborts(db, seen, DoComplete(results, worker, now));
    FinishingAreUnmet(db, seen, done, c);
    if unmet <= done {
      assert unmet - done == {};
    } else {
      var p :| p in unmet && p !in done;
      assert p in unmet - done;
    }
    ReleasedRow(db, results, worker, now, c);
  }

  lemma ReleasedRow(db: Table, results: map<JobId, Option<Bytes>>, worker: WorkerId, now: real, c: JobId)
    requires c in db.jobs && RowOk(db.jobs[c]) && db.jobs[c].state.Available? && db.jobs[c].pendingDeps > 0
    requires |Finishing(db, Reported(db, results, worker), c)| <= db.jobs[c].pendingDeps
    ensures var row := Complete(db, results, worker, now).jobs[c];
            if |Finishing(db, Reported(db, results, worker), c)| == db.jobs[c].pendingDeps
            then DueFrom(row, now) else NeverDue(row)
  {}

  /** A cancelled job was not running, and never runs: not in any continuation. */
  lemma {:induction false} CancelledNeverRuns(run: seq<Op>, m: nat, n: nat, id: JobId)
    requires m <= n <= |run| && StateAt(run, m, id, Cancelled)
    ensures id in TableAfter(run[..n]).jobs ==> TableAfter(run[..n]).jobs[id].state.Cancelled?
    ensures id in TableAfter(run[..n]).used
    decreases n - m
  {
    if m < n {
      CancelledNeverRuns(run, m, n - 1, id);
      RunEvolves(run, n - 1);
      CancelledStays(TableAfter(run[..n - 1]), TableAfter(run[..n]), id);
    } else {
      ReachableInv(run[..m]);
    }
  }

  lemma CancelledStays(db: Table, next: Table, id: JobId)
    requires TableEvolves(db, next) && id in db.used && (id in db.jobs ==> db.jobs[id].state.Cancelled?)
    ensures id in next.used && (id in next.jobs ==> next.jobs[id].state.Cancelled?)
  {}

  /** The result a worker reports for a job it holds is the result anyone reads
      at every later point of the run, for as long as the row is kept. */
  lemma ResultIsKept(run: seq<Op>, m: nat, n: nat, id: JobId)
    requires m < n <= |run| && run[m].DoComplete? && id in run[m].results
    requires id in TableAfter(run[..m]).jobs && TableAfter(run[..m]).jobs[id].HeldBy(run[m].worker)
    ensures id in TableAfter(run[..n]).jobs ==>
              TableAfter(run[..n]).jobs[id].state.Completed? &&
                TableAfter(run[..n]).jobs[id].result == run[m].results[id]
  {
    ReachableInv(run[..m]);
    StepAt(run, m);
    ResultIsStored(TableAfter(run[..m]), SeenAfter(run[..m]), run[m], id);
    CompletedIsFinal(run, m + 1, n, id);
  }

  lemma ResultIsStored(db: Table, seen: History, op: Op, id: JobId)
    requires Inv(db, seen) && op.DoComplete? && id in op.results && id in db.jobs && db.jobs[id].HeldBy(op.worker)
    ensures var next := Exec(db, op);
            && id in next.jobs && next.jobs[id].state.Completed? && next.jobs[id].result == op.results[id]
            && next.jobs[id].finalizedAt == Some(op.now)
  {
    NeverAborts(db, seen, op);
  }
}
