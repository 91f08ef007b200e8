/** Statements the table refuses: when a fetch or an operator's retry is aborted
    by a constraint, that both happen, and what keeps the first from happening. */
module Refusals {
  import opened Prelude
  import opened JobTable
  import opened Queue
  import opened QueueInvariant

  // ---- attempts ------------------------------------------------------------

  /** In every run, those that enqueue jobs with no attempts included: a fetch
      is aborted, whole and without effect, exactly when the batch it picked has
      a row with no attempt left. */
  lemma FetchAbortsExactlyWhen(run: seq<Op>, picked: set<JobId>, worker: WorkerId, lease: real, now: real)
    requires Enabled(TableAfter(run), DoLease(picked, worker, lease, now))
    ensures Aborts(TableAfter(run), DoLease(picked, worker, lease, now)) <==> Exhausted(TableAfter(run), picked)
    ensures Exhausted(TableAfter(run), picked) ==>
              Exec(TableAfter(run), DoLease(picked, worker, lease, now)) == TableAfter(run)
  {
    ReachableInv(run);
    AbortsExactlyWhen(TableAfter(run), SeenAfter(run), DoLease(picked, worker, lease, now));
  }

  /** Every job the operation inserts may be attempted at least once. Nothing
      checks this. */
  predicate Attemptable(op: Op) {
    match op
    case DoEnqueue(_, spec, _, _) => spec.maxAttempts >= 1
    case DoEnqueueUnique(_, spec, _, _, _) => spec.maxAttempts >= 1
    case DoInsertWorkflow(_, nodes, _, _, _) => forall i :: 0 <= i < |nodes| ==> nodes[i].spec.maxAttempts >= 1
    case _ => true
  }

  predicate AttemptLeft(job: Job) {
    1 <= job.spec.maxAttempts && (job.state.Available? ==> job.attempt < job.spec.maxAttempts)
  }

  ghost predicate AttemptsLeft(db: Table) {
    forall id :: id in db.jobs ==> AttemptLeft(db.jobs[id])
  }

  lemma SetbacksKeepAttempts(db: Table, op: Op)
    requires AttemptsLeft(db) && Enabled(db, op) && (op.DoRetry? || op.DoReclaim?)
    ensures AttemptsLeft(Proposed(db, op))
  {}

  lemma InsertsKeepAttempts(db: Table, seen: History, op: Op)
    requires Inv(db, seen) && AttemptsLeft(db) && Inserts(op) && Attemptable(op) && Enabled(db, op)
    ensures AttemptsLeft(Proposed(db, op))
  {
    var next := Proposed(db, op);
    if op.DoInsertWorkflow? {
      forall id | id in op.rowIds ensures AttemptLeft(next.jobs[id]) {
        WorkflowRow(db, op.flow, op.nodes, op.edges, op.rowIds, op.now, id);
      }
    }
  }

  lemma OthersKeepAttempts(db: Table, op: Op)
    requires AttemptsLeft(db) && RowsOk(db) && Enabled(db, op) && !Inserts(op) && !op.DoRetry? && !op.DoReclaim?
    ensures AttemptsLeft(Proposed(db, op))
  {}

  lemma {:induction false} RunsKeepAttempts(run: seq<Op>)
    requires forall i :: 0 <= i < |run| ==> Attemptable(run[i])
    ensures AttemptsLeft(TableAfter(run))
    decreases |run|
  {
    if run != [] {
      var n := |run| - 1;
      var db := TableAfter(run[..n]);
      RunsKeepAttempts(run[..n]);
      ReachableInv(run[..n]);
      if Exec(db, run[n]) != db {
        StepKeepsAttempts(db, SeenAfter(run[..n]), run[n]);
      }
    }
  }

  lemma StepKeepsAttempts(db: Table, seen: History, op: Op)
    requires Inv(db, seen) && AttemptsLeft(db) && Attemptable(op) && Enabled(db, op)
    ensures AttemptsLeft(Proposed(db, op))
  {
    if Inserts(op) {
      InsertsKeepAttempts(db, seen, op);
    } else if op.DoRetry? || op.DoReclaim? {
      SetbacksKeepAttempts(db, op);
    } else {
      OthersKeepAttempts(db, op);
    }
  }

  /** As long as every job may be attempted, no fetch of any run is aborted. */
  lemma AttemptableRunsNeverAbortAFetch(run: seq<Op>, picked: set<JobId>, worker: WorkerId, lease: real, now: real)
    requires forall i :: 0 <= i < |run| ==> Attemptable(run[i])
    requires Enabled(TableAfter(run), DoLease(picked, worker, lease, now))
    ensures !Aborts(TableAfter(run), DoLease(picked, worker, lease, now))
  {
    RunsKeepAttempts(run);
    FetchAbortsExactlyWhen(run, picked, worker, lease, now);
  }

  function Plain(maxAttempts: int): NewJob {
    NewJob("default", "task", [], 0, maxAttempts, None, false)
  }

  /** And a job for which it is not so is easily made: one enqueued with no
      attempts is accepted, and then no batch it shares with a healthy job can
      be leased. */
  lemma ZeroAttemptsPoisonsTheQueue(run: seq<Op>, worker: WorkerId)
    requires |run| == 2
    requires run[0] == DoEnqueue(0, Plain(0), 0.0, 0.0) && run[1] == DoEnqueue(1, Plain(20), 0.0, 0.0)
    ensures Enabled(TableAfter(run), DoLease({0, 1}, worker, 30.0, 0.0))
    ensures Aborts(TableAfter(run), DoLease({0, 1}, worker, 30.0, 0.0))
  {
    BothQueued(run);
    assert run[..2] == run;
    FetchAbortsExactlyWhen(run, {0, 1}, worker, 30.0, 0.0);
  }

  lemma FirstOfBoth(run: seq<Op>)
    requires |run| >= 1 && run[0] == DoEnqueue(0, Plain(0), 0.0, 0.0)
    ensures var db := TableAfter(run[..1]);
            db.used == {0} && 0 in db.jobs && db.jobs[0] == Inserted(Plain(0), None, None, 0, 0.0, 0.0)
  {
    StepAt(run, 0);
    Enqueued(run[..0], 0, Plain(0));
  }

  lemma BothQueued(run: seq<Op>)
    requires |run| >= 2
    requires run[0] == DoEnqueue(0, Plain(0), 0.0, 0.0) && run[1] == DoEnqueue(1, Plain(20), 0.0, 0.0)
    ensures var db := TableAfter(run[..2]);
            && 0 in db.jobs && db.jobs[0] == Inserted(Plain(0), None, None, 0, 0.0, 0.0)
            && 1 in db.jobs && db.jobs[1] == Inserted(Plain(20), None, None, 0, 0.0, 0.0)
  {
    FirstOfBoth(run);
    StepAt(run, 1);
    Enqueued(run[..1], 1, Plain(20));
  }

  lemma Enqueued(run: seq<Op>, id: JobId, spec: NewJob)
    requires id !in TableAfter(run).used && Insertable(spec)
    ensures var db := TableAfter(run);
            Exec(db, DoEnqueue(id, spec, 0.0, 0.0)) ==
              db.(jobs := db.jobs[id := Inserted(spec, None, None, 0, 0.0, 0.0)], used := db.used + {id})
  {
    ReachableInv(run);
    AbortsExactlyWhen(TableAfter(run), SeenAfter(run), DoEnqueue(id, spec, 0.0, 0.0));
  }

  // ---- unique keys ---------------------------------------------------------

  /** A job with a unique key is queued and dead-lettered, another is queued with
      the same key, and an operator retries the first. */
  predicate RevivesItsRival(run: seq<Op>, key: Bytes) {
    && |run| == 4
    && run[0] == DoEnqueueUnique(0, Plain(1), key, 0.0, 0.0)
    && run[1] == DoLease({0}, 7, 30.0, 0.0)
    && run[2] == DoDiscard(map[0 := "boom"], 7, 1.0)
    && run[3] == DoEnqueueUnique(1, Plain(1), key, 0.0, 2.0)
  }

  predicate Alone(db: Table, key: Bytes) {
    && db.jobs.Keys == {0} && db.edges == {} && db.used == {0}
    && db.jobs[0].uniqueKey == Some(key) && db.jobs[0].spec == Plain(1)
  }

  lemma FirstQueued(db: Table, seen: History, key: Bytes)
    requires Inv(db, seen) && db == EmptyTable
    ensures var next := Exec(db, DoEnqueueUnique(0, Plain(1), key, 0.0, 0.0));
            Alone(next, key) && next.jobs[0] == Inserted(Plain(1), None, Some(key), 0, 0.0, 0.0)
  {
    AbortsExactlyWhen(db, seen, DoEnqueueUnique(0, Plain(1), key, 0.0, 0.0));
  }

  lemma FirstLeased(db: Table, seen: History, key: Bytes)
    requires Inv(db, seen) && Alone(db, key) && db.jobs[0] == Inserted(Plain(1), None, Some(key), 0, 0.0, 0.0)
    ensures var next := Exec(db, DoLease({0}, 7, 30.0, 0.0));
            Alone(next, key) && next.jobs[0].HeldBy(7)
  {
    AbortsExactlyWhen(db, seen, DoLease({0}, 7, 30.0, 0.0));
  }

  lemma FirstBuried(db: Table, seen: History, key: Bytes)
    requires Inv(db, seen) && Alone(db, key) && db.jobs[0].HeldBy(7)
    ensures var next := Exec(db, DoDiscard(map[0 := "boom"], 7, 1.0));
            Alone(next, key) && next.jobs[0].state.Discarded?
  {
    NeverAborts(db, seen, DoDiscard(map[0 := "boom"], 7, 1.0));
  }

  /** A dead letter and a live job of the same key. */
  predicate Rivals(db: Table, key: Bytes) {
    && 0 in db.jobs && db.jobs[0].state.Discarded? && db.jobs[0].uniqueKey == Some(key)
    && 1 in db.jobs && db.jobs[1].Live() && db.jobs[1].uniqueKey == Some(key)
  }

  lemma SecondQueued(db: Table, seen: History, key: Bytes)
    requires Inv(db, seen) && Alone(db, key) && db.jobs[0].state.Discarded?
    ensures Rivals(Exec(db, DoEnqueueUnique(1, Plain(1), key, 0.0, 2.0)), key)
  {
    AbortsExactlyWhen(db, seen, DoEnqueueUnique(1, Plain(1), key, 0.0, 2.0));
  }

  /** Then the operator's retry of everything is aborted by the unique index and
      revives nobody. */
  lemma RivalKeyAbortsTheRetry(run: seq<Op>, key: Bytes, now: real)
    requires RevivesItsRival(run, key)
    ensures KeyClash(TableAfter(run), None, None)
    ensures Aborts(TableAfter(run), DoRevive(None, None, now))
    ensures Exec(TableAfter(run), DoRevive(None, None, now)) == TableAfter(run)
  {
    RivalIsLive(run, key);
    ReachableInv(run);
    assert Clash(TableAfter(run), None, None, 0, 1);
    AbortsExactlyWhen(TableAfter(run), SeenAfter(run), DoRevive(None, None, now));
  }

  lemma RivalIsLive(run: seq<Op>, key: Bytes)
    requires RevivesItsRival(run, key)
    ensures Rivals(TableAfter(run), key)
  {
    DeadLettered(run, key);
    RivalJoins(run[..3], run[3], key);
    assert run == run[..3] + [run[3]];
  }

  lemma RivalJoins(run: seq<Op>, op: Op, key: Bytes)
    requires Alone(TableAfter(run), key) && TableAfter(run).jobs[0].state.Discarded?
    requires op == DoEnqueueUnique(1, Plain(1), key, 0.0, 2.0)
    ensures Rivals(TableAfter(run + [op]), key)
  {
    ReachableInv(run);
    SecondQueued(TableAfter(run), SeenAfter(run), key);
    assert (run + [op])[..|run|] == run;
  }

  lemma DeadLettered(run: seq<Op>, key: Bytes)
    requires RevivesItsRival(run, key)
    ensures Alone(TableAfter(run[..3]), key) && TableAfter(run[..3]).jobs[0].state.Discarded?
  {
    ReachableInv(run[..0]);
    StepAt(run, 0);
    FirstQueued(TableAfter(run[..0]), SeenAfter(run[..0]), key);
    ReachableInv(run[..1]);
    StepAt(run, 1);
    FirstLeased(TableAfter(run[..1]), SeenAfter(run[..1]), key);
    ReachableInv(run[..2]);
    StepAt(run, 2);
    FirstBuried(TableAfter(run[..2]), SeenAfter(run[..2]), key);
  }
}
