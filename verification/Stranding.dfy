/** Workflows that can still make progress.

    Only `DISCARD_MANY` cascades. A job that dies in any other way (out of
    attempts in `RETRY_MANY` or `RECLAIM`, or cancelled by a user) leaves its
    children waiting for a parent that will not finish. This module proves
    exactly when that happens, that it is permanent, and that a queue where it
    has not happened always has something to run. */
module Stranding {
  import opened Prelude
  import opened Graph
  import opened JobTable
  import opened Queue
  import opened QueueInvariant
  import opened Lifecycle
  import opened Refusals
  import opened Cascade

  predicate LiveRow(db: Table, id: JobId) {
    id in db.jobs && db.jobs[id].Live()
  }

  /** A parent that will never release its children by itself. */
  predicate Lost(db: Table, seen: History, p: JobId) {
    p !in seen.completed && !LiveRow(db, p)
  }

  predicate StrandedBy(db: Table, seen: History, p: JobId, c: JobId) {
    (p, c) in seen.inserted && Lost(db, seen, p) && LiveRow(db, c)
  }

  ghost predicate NoneStranded(db: Table, seen: History) {
    forall p, c :: !StrandedBy(db, seen, p, c)
  }

  predicate OutOfAttempts(job: Job) {
    job.attempt >= job.spec.maxAttempts
  }

  /** The jobs an operation kills without cancelling what depends on them. */
  function KilledAlone(db: Table, op: Op): set<JobId> {
    match op
    case DoCancel(ids, _) => set id | id in ids && id in db.jobs && db.jobs[id].state.Available?
    case DoRetry(setbacks, worker, _, _, _) =>
      set id | id in Reported(db, setbacks, worker) && OutOfAttempts(db.jobs[id])
    case DoReclaim(victims, _) => set id | id in victims && id in db.jobs && OutOfAttempts(db.jobs[id])
    case _ => {}
  }

  /** Every job killed alone has no child still to run, other than ones killed
      with it. This can be read off the table before the call. */
  predicate Clean(db: Table, op: Op) {
    forall e :: e in db.edges && e.0 in KilledAlone(db, op) && LiveRow(db, e.1) ==> e.1 in KilledAlone(db, op)
  }

  /** Which rows an operation takes from live to dead. */
  lemma DeathsAre(db: Table, op: Op, id: JobId)
    requires RowsOk(db) && Enabled(db, op)
    requires !Inserts(op) && !op.DoComplete? && !op.DoPrune? && !op.DoPurge? && !op.DoDiscard?
    requires LiveRow(db, id)
    ensures LiveRow(Proposed(db, op), id) <==> id !in KilledAlone(db, op)
  {}

  lemma KilledRowsWereWaited(db: Table, seen: History, op: Op, p: JobId)
    requires Inv(db, seen) && Enabled(db, op) && p in KilledAlone(db, op)
    ensures LiveRow(db, p) && p !in seen.completed
  {}

  /** An unclean step strands a child at once. */
  lemma UncleanStrands(db: Table, seen: History, op: Op)
    requires Inv(db, seen) && Enabled(db, op) && !Clean(db, op)
    ensures !NoneStranded(Exec(db, op), Observe(seen, Exec(db, op)))
  {
    var e :| e in db.edges && e.0 in KilledAlone(db, op) && LiveRow(db, e.1) && e.1 !in KilledAlone(db, op);
    NeverAborts(db, seen, op);
    var next := Exec(db, op);
    KilledRowsWereWaited(db, seen, op, e.0);
    DeathsAre(db, op, e.0);
    DeathsAre(db, op, e.1);
    NothingCompletes(db, seen, op);
    assert StrandedBy(next, Observe(seen, next), e.0, e.1);
  }

  lemma NothingCompletes(db: Table, seen: History, op: Op)
    requires Inv(db, seen) && !op.DoComplete?
    ensures Observe(seen, Exec(db, op)).completed == seen.completed
  {
    StepEvolves(db, seen, op);
    StepKeepsInv(db, seen, op);
    var next := Exec(db, op);
    forall id | id in InState(next, Completed) ensures id in seen.completed {
      if id in db.jobs && !db.jobs[id].state.Completed? {
        OnlyCompleteCompletes(db, op, id);
      }
    }
  }

  lemma OnlyCompleteCompletes(db: Table, op: Op, id: JobId)
    requires id in db.jobs && !db.jobs[id].state.Completed? && !op.DoComplete?
    ensures id in Exec(db, op).jobs ==> !Exec(db, op).jobs[id].state.Completed?
  {
    if Enabled(db, op) && op.DoInsertWorkflow? && id in op.rowIds {
      assert Exec(db, op).jobs[id].state.Available? || Exec(db, op) == db;
    }
  }

  /** What a waiting row's parent being there means, before or after a step. */
  predicate Awaits(db: Table, seen: History, p: JobId, c: JobId) {
    (p, c) in seen.inserted && p !in seen.completed && LiveRow(db, c)
  }

  /** Completing kills nobody but the jobs reported. */
  lemma CompletionSpares(db: Table, results: map<JobId, Option<Bytes>>, worker: WorkerId, now: real, id: JobId)
    requires id in db.jobs && id !in Reported(db, results, worker)
    ensures Complete(db, results, worker, now).jobs[id].state == db.jobs[id].state
  {}

  lemma CompletionIsSeen(db: Table, seen: History, results: map<JobId, Option<Bytes>>, worker: WorkerId, now: real)
    ensures var next := Complete(db, results, worker, now);
            seen.completed + Reported(db, results, worker) <= Observe(seen, next).completed
  {
    assert Reported(db, results, worker) <= InState(Complete(db, results, worker, now), Completed);
  }

  lemma CompletionServes(db: Table, seen: History, results: map<JobId, Option<Bytes>>, worker: WorkerId, now: real,
                         p: JobId, c: JobId)
    requires Inv(db, seen) && NoneStranded(db, seen)
    requires var next := Complete(db, results, worker, now); Awaits(next, Observe(seen, next), p, c)
    ensures LiveRow(Complete(db, results, worker, now), p)
  {
    CompleteEvolves(db, seen, results, worker, now);
    assert LiveRow(db, c);
    assert !StrandedBy(db, seen, p, c);
    CompletionIsSeen(db, seen, results, worker, now);
    CompletionSpares(db, results, worker, now, p);
  }

  lemma CompleteKeepsServed(db: Table, seen: History, op: Op, p: JobId, c: JobId)
    requires Inv(db, seen) && NoneStranded(db, seen) && op.DoComplete?
    requires Awaits(Exec(db, op), Observe(seen, Exec(db, op)), p, c)
    ensures LiveRow(Exec(db, op), p)
  {
    NeverAborts(db, seen, op);
    CompletionServes(db, seen, op.results, op.worker, op.now, p, c);
  }

  lemma InsertKeepsServed(db: Table, seen: History, op: Op, p: JobId, c: JobId)
    requires Inv(db, seen) && NoneStranded(db, seen) && Inserts(op)
    requires Awaits(Exec(db, op), Observe(seen, Exec(db, op)), p, c)
    ensures LiveRow(Exec(db, op), p)
  {
    var next := Exec(db, op);
    if next != db && op.DoInsertWorkflow? {
      WorkflowGrows(db, seen, op.flow, op.nodes, op.edges, op.rowIds, op.now);
    }
    if (p, c) in seen.inserted {
      assert c in db.used;
      assert LiveRow(db, c);
      assert !StrandedBy(db, seen, p, c);
      assert LiveRow(db, p);
      assert p in next.jobs && next.jobs[p] == db.jobs[p];
    } else {
      assert (p, c) in next.edges && (p, c) !in db.edges;
      assert Grows(db, next);
    }
  }

  lemma DiscardKeepsServed(db: Table, seen: History, op: Op, p: JobId, c: JobId)
    requires Inv(db, seen) && NoneStranded(db, seen) && op.DoDiscard?
    requires Awaits(Exec(db, op), Observe(seen, Exec(db, op)), p, c)
    ensures LiveRow(Exec(db, op), p)
  {
    NeverAborts(db, seen, op);
    NothingCompletes(db, seen, op);
    var dead := Reported(db, op.errors, op.worker);
    assert LiveRow(db, c);
    assert !StrandedBy(db, seen, p, c);
    assert (p, c) in db.edges;
    EdgeReaches(db.edges, p, c);
    DownstreamWaits(db, seen, p, c);
    assert p !in dead;
    if a :| a in dead && Reaches(db.edges, a, p) {
      ReachExtends(db.edges, a, p, c);
      assert Downstream(db.edges, dead, c);
    }
  }

  lemma OtherwiseServed(db: Table, seen: History, op: Op, p: JobId, c: JobId)
    requires Inv(db, seen) && NoneStranded(db, seen) && Clean(db, op)
    requires !Inserts(op) && !op.DoComplete? && !op.DoDiscard?
    requires Awaits(Exec(db, op), Observe(seen, Exec(db, op)), p, c)
    ensures LiveRow(Exec(db, op), p)
  {
    AwaitedBefore(db, seen, op, p, c);
    assert !StrandedBy(db, seen, p, c);
    if Exec(db, op) != db {
      if op.DoPrune? || op.DoPurge? {
        DeletionSpares(db, op, p);
      } else {
        DeathsAre(db, op, p);
        DeathsAre(db, op, c);
        assert (p, c) in db.edges;
      }
    }
  }

  lemma AwaitedBefore(db: Table, seen: History, op: Op, p: JobId, c: JobId)
    requires Inv(db, seen) && !Inserts(op) && !op.DoComplete?
    requires Awaits(Exec(db, op), Observe(seen, Exec(db, op)), p, c)
    ensures Awaits(db, seen, p, c)
  {
    NothingCompletes(db, seen, op);
    StepEvolves(db, seen, op);
    NoNewEdges(db, op);
    assert p in Unmet(seen, c);
  }

  lemma DeletionSpares(db: Table, op: Op, id: JobId)
    requires (op.DoPrune? || op.DoPurge?) && LiveRow(db, id)
    ensures LiveRow(Exec(db, op), id)
  {}

  /** Per step and exactly: from a state in which nobody waits in vain, the next
      state is one again if and only if the operation was clean. */
  lemma StrandsExactlyWhenUnclean(db: Table, seen: History, op: Op)
    requires Inv(db, seen) && NoneStranded(db, seen) && Enabled(db, op)
    ensures NoneStranded(Exec(db, op), Observe(seen, Exec(db, op))) <==> Clean(db, op)
  {
    var next := Exec(db, op);
    var after := Observe(seen, next);
    if !Clean(db, op) {
      UncleanStrands(db, seen, op);
    } else {
      forall p, c | Awaits(next, after, p, c) ensures LiveRow(next, p) {
        if op.DoComplete? {
          CompleteKeepsServed(db, seen, op, p, c);
        } else if Inserts(op) {
          InsertKeepsServed(db, seen, op, p, c);
        } else if op.DoDiscard? {
          DiscardKeepsServed(db, seen, op, p, c);
        } else {
          OtherwiseServed(db, seen, op, p, c);
        }
      }
      forall p, c ensures !StrandedBy(next, after, p, c) {
        assert StrandedBy(next, after, p, c) ==> Awaits(next, after, p, c);
      }
    }
  }

  // ---- whole runs ----------------------------------------------------------

  ghost predicate CleanAt(run: seq<Op>, i: nat)
    requires i < |run|
  {
    Enabled(TableAfter(run[..i]), run[i]) ==> Clean(TableAfter(run[..i]), run[i])
  }

  ghost predicate CleanRun(run: seq<Op>) {
    forall i :: 0 <= i < |run| ==> CleanAt(run, i)
  }

  lemma {:induction false} CleanRunsStrandNobody(run: seq<Op>)
    requires CleanRun(run)
    ensures NoneStranded(TableAfter(run), SeenAfter(run))
    decreases |run|
  {
    if run != [] {
      var n := |run| - 1;
      var before := run[..n];
      forall i | 0 <= i < n ensures CleanAt(before, i) {
        assert before[..i] == run[..i];
        assert CleanAt(run, i);
      }
      CleanRunsStrandNobody(before);
      ReachableInv(before);
      assert CleanAt(run, n);
      if Enabled(TableAfter(before), run[n]) {
        StrandsExactlyWhenUnclean(TableAfter(before), SeenAfter(before), run[n]);
      } else {
        ObserveNothingNew(TableAfter(before), SeenAfter(before));
      }
    }
  }

  /** A row the next fetch could take, now or once its delay has passed, or one
      that is running already. */
  predicate Runnable(job: Job) {
    job.state.Running? || (job.state.Available? && job.scheduledAt.At?)
  }

  ghost predicate ServedBy(db: Table, seen: History, r: JobId, c: JobId) {
    && r in db.jobs && Runnable(db.jobs[r])
    && (r == c || Reaches(seen.inserted, r, c))
  }

  // ---- and once stranded ---------------------------------------------------

  /** A cancelled or deleted parent stays so under every operation; a discarded
      one until an operator retries it. */
  predicate Gone(db: Table, p: JobId) {
    p in db.used && (p !in db.jobs || db.jobs[p].state.Cancelled?)
  }

  predicate GoneUnlessRevived(db: Table, p: JobId) {
    p in db.used && (p !in db.jobs || db.jobs[p].Dead())
  }

  lemma GoneStays(db: Table, seen: History, op: Op, p: JobId)
    requires Inv(db, seen)
    ensures Gone(db, p) ==> Gone(Exec(db, op), p)
    ensures GoneUnlessRevived(db, p) && !op.DoRevive? ==> GoneUnlessRevived(Exec(db, op), p)
  {
    StepEvolves(db, seen, op);
    if p in db.jobs && db.jobs[p].state.Discarded? && !op.DoRevive? {
      OnlyReviveRevives(db, seen, op, p);
    }
  }

  lemma OnlyReviveRevives(db: Table, seen: History, op: Op, p: JobId)
    requires Inv(db, seen) && p in db.jobs && db.jobs[p].state.Discarded? && !op.DoRevive?
    ensures p in Exec(db, op).jobs ==> Exec(db, op).jobs[p].Dead()
  {
    if op.DoComplete? {
      CompletionSpares(db, op.results, op.worker, op.now, p);
    } else {
      OthersDoNotRevive(db, seen, op, p);
    }
  }

  lemma OthersDoNotRevive(db: Table, seen: History, op: Op, p: JobId)
    requires KnownIds(db, seen) && p in db.jobs && db.jobs[p].state.Discarded? && !op.DoRevive? && !op.DoComplete?
    ensures p in Exec(db, op).jobs ==> Exec(db, op).jobs[p].Dead()
  {
    if Enabled(db, op) && op.DoInsertWorkflow? {
      assert p !in op.rowIds;
    }
  }

  lemma GoneIsNotCompleted(db: Table, seen: History, op: Op, p: JobId)
    requires GoneUnlessRevived(Exec(db, op), p) && p !in seen.completed
    ensures p !in Observe(seen, Exec(db, op)).completed
  {}

  /** After `n` steps, `c` has a parent that is gone and never completed. */
  ghost predicate LostAt(run: seq<Op>, n: nat, p: JobId, c: JobId)
    requires n <= |run|
  {
    && (p, c) in SeenAfter(run[..n]).inserted && p !in SeenAfter(run[..n]).completed
    && GoneUnlessRevived(TableAfter(run[..n]), p)
  }

  lemma LostStays(run: seq<Op>, k: nat, p: JobId, c: JobId)
    requires k < |run| && LostAt(run, k, p, c)
    requires Gone(TableAfter(run[..k]), p) || !run[k].DoRevive?
    ensures LostAt(run, k + 1, p, c)
    ensures Gone(TableAfter(run[..k]), p) ==> Gone(TableAfter(run[..k + 1]), p)
  {
    ReachableInv(run[..k]);
    StepAt(run, k);
    GoneStays(TableAfter(run[..k]), SeenAfter(run[..k]), run[k], p);
    GoneIsNotCompleted(TableAfter(run[..k]), SeenAfter(run[..k]), run[k], p);
  }

  /** A child of a lost parent is never leased: not in any continuation, when
      the parent was cancelled or its row is gone; not before an operator
      retries the parent, when it was discarded. */
  lemma {:induction false} StrandedForever(run: seq<Op>, m: nat, n: nat, p: JobId, c: JobId)
    requires m <= n <= |run| && LostAt(run, m, p, c)
    requires Gone(TableAfter(run[..m]), p) || forall k :: m <= k < n ==> !run[k].DoRevive?
    ensures LostAt(run, n, p, c) && c !in SeenAfter(run[..n]).leased
    ensures Gone(TableAfter(run[..m]), p) ==> Gone(TableAfter(run[..n]), p)
    decreases n - m
  {
    if m < n {
      StrandedForever(run, m, n - 1, p, c);
      LostStays(run, n - 1, p, c);
    }
    LostParentHolds(run, n, p, c);
  }

  lemma LostParentHolds(run: seq<Op>, n: nat, p: JobId, c: JobId)
    requires n <= |run| && LostAt(run, n, p, c)
    ensures c !in SeenAfter(run[..n]).leased
  {
    ReachableInv(run[..n]);
    assert p in Unmet(SeenAfter(run[..n]), c);
  }

  // ---- workflows -----------------------------------------------------------

  ghost predicate ForwardRun(run: seq<Op>) {
    forall i :: 0 <= i < |run| && run[i].DoInsertWorkflow? ==> Forward(run[i].edges)
  }

  ghost predicate EdgesWithin(db: Table) {
    forall e :: e in db.edges ==> e.0 in db.jobs && e.1 in db.jobs && db.jobs[e.0].workflow == db.jobs[e.1].workflow
  }

  lemma InsertedEdges(db: Table, seen: History, op: Op)
    requires Inv(db, seen) && op.DoInsertWorkflow? && Exec(db, op) != db
    ensures forall e :: e in Exec(db, op).edges && e !in db.edges ==>
              && e.0 in Exec(db, op).jobs && Exec(db, op).jobs[e.0].workflow == Some(op.flow)
              && e.1 in Exec(db, op).jobs && Exec(db, op).jobs[e.1].workflow == Some(op.flow)
              && (Forward(op.edges) ==> e.0 < e.1)
  {
    var next := Exec(db, op);
    var ids := op.rowIds;
    forall e | e in next.edges && e !in db.edges
      ensures e.0 in ids && e.1 in ids && (Forward(op.edges) ==> e.0 < e.1)
    {
      var f :| f in op.edges && e == (ids[f.0], ids[f.1]);
    }
    forall id | id in ids ensures id in next.jobs && next.jobs[id].workflow == Some(op.flow) {
      WorkflowRow(db, op.flow, op.nodes, op.edges, ids, op.now, id);
    }
  }

  lemma NoNewEdges(db: Table, op: Op)
    requires !op.DoInsertWorkflow? || Exec(db, op) == db
    ensures Exec(db, op).edges <= db.edges
  {}

  lemma EdgesKeepTheirRows(db: Table, seen: History, op: Op)
    requires Inv(db, seen) && EdgesWithin(db) && (!op.DoInsertWorkflow? || Exec(db, op) == db)
    ensures forall e :: e in Exec(db, op).edges ==> e.0 in Exec(db, op).jobs && e.1 in Exec(db, op).jobs
  {}

  lemma StepKeepsWithin(db: Table, seen: History, op: Op)
    requires Inv(db, seen) && EdgesWithin(db)
    ensures EdgesWithin(Exec(db, op))
    ensures !op.DoInsertWorkflow? ==> Exec(db, op).edges <= db.edges
  {
    StepEvolves(db, seen, op);
    var next := Exec(db, op);
    if op.DoInsertWorkflow? && next != db {
      InsertedEdges(db, seen, op);
      WorkflowGrows(db, seen, op.flow, op.nodes, op.edges, op.rowIds, op.now);
    } else {
      NoNewEdges(db, op);
      EdgesKeepTheirRows(db, seen, op);
    }
  }

  lemma {:induction false} RunsKeepWithin(run: seq<Op>)
    ensures EdgesWithin(TableAfter(run))
    ensures ForwardRun(run) ==> Forward(SeenAfter(run).inserted)
    decreases |run|
  {
    if run != [] {
      var n := |run| - 1;
      var before, op := run[..n], run[n];
      forall i | 0 <= i < n ensures before[i] == run[i] {}
      RunsKeepWithin(before);
      ReachableInv(before);
      StepKeepsWithin(TableAfter(before), SeenAfter(before), op);
      if op.DoInsertWorkflow? && TableAfter(run) != TableAfter(before) {
        InsertedEdges(TableAfter(before), SeenAfter(before), op);
      }
    }
  }

  /** Where nobody is stranded and edges point forward, as those of every
      composed workflow do, each live job is runnable itself or waits on an
      ancestor that is. */
  lemma {:induction false} AncestorsShareWorkflow(db: Table, seen: History, c: JobId) returns (r: JobId)
    requires Inv(db, seen) && NoneStranded(db, seen) && Forward(seen.inserted) && EdgesWithin(db) && LiveRow(db, c)
    ensures ServedBy(db, seen, r, c) && db.jobs[r].workflow == db.jobs[c].workflow
    decreases c
  {
    if Runnable(db.jobs[c]) {
      r := c;
    } else {
      assert Unmet(seen, c) != {};
      var p :| p in Unmet(seen, c);
      assert (p, c) in seen.inserted;
      assert !StrandedBy(db, seen, p, c);
      assert (p, c) in db.edges;
      r := AncestorsShareWorkflow(db, seen, p);
      if r == p {
        EdgeReaches(seen.inserted, p, c);
      } else {
        ReachExtends(seen.inserted, r, p, c);
      }
    }
  }

  /** In every clean run of composed workflows no graph is parked: whenever a
      member of a workflow is still live, some member of that workflow is
      running or has a finite time at which it will. */
  lemma NoParkedGraph(run: seq<Op>, c: JobId) returns (r: JobId)
    requires CleanRun(run) && ForwardRun(run) && LiveRow(TableAfter(run), c)
    ensures LiveRow(TableAfter(run), r) && Runnable(TableAfter(run).jobs[r])
    ensures TableAfter(run).jobs[r].workflow == TableAfter(run).jobs[c].workflow
    ensures r == c || Reaches(SeenAfter(run).inserted, r, c)
  {
    ReachableInv(run);
    CleanRunsStrandNobody(run);
    RunsKeepWithin(run);
    r := AncestorsShareWorkflow(TableAfter(run), SeenAfter(run), c);
  }

  // ---- a chain that stops --------------------------------------------------

  const TwoSteps := DoInsertWorkflow(0, [Node(Plain(1), 0.0), Node(Plain(20), 0.0)], {(0, 1)}, [0, 1], 0.0)
  const FirstLease := DoLease({0}, 7, 30.0, 0.0)
  const LastFailure := DoRetry(map[0 := Setback("boom", 0.0)], 7, 1.0, 3600.0, 1.0)

  /** A chain of two is inserted, its first step leased, and that step fails
      retryably on its only attempt. */
  predicate LosesItsFirstStep(run: seq<Op>) {
    |run| == 3 && run[0] == TwoSteps && run[1] == FirstLease && run[2] == LastFailure
  }

  predicate OneThenTheOther(db: Table) {
    && db.jobs.Keys == {0, 1} && db.edges == {(0, 1)}
    && db.jobs[1] == Inserted(Plain(20), Some(0), None, 1, 0.0, 0.0)
  }

  lemma InsertCommits(db: Table, seen: History, op: Op)
    requires Inv(db, seen) && op.DoInsertWorkflow? && Enabled(db, op)
    requires forall i :: 0 <= i < |op.nodes| ==> Insertable(op.nodes[i].spec)
    ensures Exec(db, op) == InsertWorkflow(db, op.flow, op.nodes, op.edges, op.rowIds, op.now)
  {
    AbortsExactlyWhen(db, seen, op);
  }

  /** Two nodes, one after the other, in an empty table. */
  predicate IsPair(nodes: seq<Node>, edges: set<Edge>, ids: seq<JobId>) {
    |nodes| == 2 && edges == {(0, 1)} && |ids| == 2 && ids[0] == 0 && ids[1] == 1
  }

  lemma PairEdges(edges: set<Edge>, ids: seq<JobId>)
    requires |ids| == 2 && edges == {(0, 1)} && ids[0] == 0 && ids[1] == 1
    ensures EdgeRows(edges, ids) == {(0, 1)} && InDegree(edges, 0) == 0 && InDegree(edges, 1) == 1
  {
    assert Into(edges, 0) == {} && Into(edges, 1) == {(0, 1)};
  }

  lemma NodeInserted(db: Table, flow: WorkflowId, nodes: seq<Node>, edges: set<Edge>, ids: seq<JobId>, i: nat)
    requires i < |ids| == |nodes| && forall e :: e in edges ==> e.0 < |ids| && e.1 < |ids|
    requires forall j, k :: 0 <= j < k < |ids| ==> ids[j] < ids[k]
    ensures var next := InsertWorkflow(db, flow, nodes, edges, ids, 0.0);
            && ids[i] in next.jobs
            && next.jobs[ids[i]] == Inserted(nodes[i].spec, Some(flow), None, InDegree(edges, i), nodes[i].delay, 0.0)
  {
    assert PositionOf(ids, ids[i]) == i;
  }

  lemma PairKeys(db: Table, flow: WorkflowId, nodes: seq<Node>, edges: set<Edge>, ids: seq<JobId>)
    requires db == EmptyTable && IsPair(nodes, edges, ids)
    ensures InsertWorkflow(db, flow, nodes, edges, ids, 0.0).jobs.Keys == {0, 1}
    ensures InsertWorkflow(db, flow, nodes, edges, ids, 0.0).edges == {(0, 1)}
  {
    PairEdges(edges, ids);
    assert forall id :: id in ids <==> id == 0 || id == 1;
  }

  lemma PairNode(next: Table, flow: WorkflowId, nodes: seq<Node>, edges: set<Edge>, ids: seq<JobId>, i: nat)
    requires IsPair(nodes, edges, ids) && i < 2 && i in next.jobs
    requires next.jobs[i] == Inserted(nodes[i].spec, Some(flow), None, InDegree(edges, i), nodes[i].delay, 0.0)
    ensures next.jobs[i] == Inserted(nodes[i].spec, Some(flow), None, i, nodes[i].delay, 0.0)
  {
    PairEdges(edges, ids);
  }

  lemma PairInserted(db: Table, flow: WorkflowId, nodes: seq<Node>, edges: set<Edge>, ids: seq<JobId>, i: nat)
    requires db == EmptyTable && IsPair(nodes, edges, ids) && i < 2
    ensures var next := InsertWorkflow(db, flow, nodes, edges, ids, 0.0);
            i in next.jobs && next.jobs[i] == Inserted(nodes[i].spec, Some(flow), None, i, nodes[i].delay, 0.0)
  {
    NodeInserted(db, flow, nodes, edges, ids, i);
    PairNode(InsertWorkflow(db, flow, nodes, edges, ids, 0.0), flow, nodes, edges, ids, i);
  }

  lemma TwoStepsInserted(db: Table, seen: History)
    requires Inv(db, seen) && db == EmptyTable
    ensures OneThenTheOther(Exec(db, TwoSteps))
    ensures Exec(db, TwoSteps).jobs[0] == Inserted(Plain(1), Some(0), None, 0, 0.0, 0.0)
  {
    assert Enabled(db, TwoSteps);
    InsertCommits(db, seen, TwoSteps);
    PairKeys(db, 0, TwoSteps.nodes, TwoSteps.edges, TwoSteps.rowIds);
    PairInserted(db, 0, TwoSteps.nodes, TwoSteps.edges, TwoSteps.rowIds, 0);
    PairInserted(db, 0, TwoSteps.nodes, TwoSteps.edges, TwoSteps.rowIds, 1);
  }

  lemma FirstLeaseCommits(db: Table, seen: History)
    requires Inv(db, seen) && OneThenTheOther(db) && db.jobs[0] == Inserted(Plain(1), Some(0), None, 0, 0.0, 0.0)
    ensures var next := Exec(db, FirstLease);
            OneThenTheOther(next) && next.jobs[0] == db.jobs[0].Leased(7, 30.0, 0.0)
  {
    assert Enabled(db, FirstLease);
    AbortsExactlyWhen(db, seen, FirstLease);
    OnlyOneLease(db);
  }

  lemma OnlyOneLease(db: Table)
    requires db.jobs.Keys == {0, 1}
    ensures var next := Lease(db, {0}, 7, 30.0, 0.0);
            && next.jobs.Keys == {0, 1} && next.edges == db.edges
            && next.jobs[0] == db.jobs[0].Leased(7, 30.0, 0.0) && next.jobs[1] == db.jobs[1]
  {}

  lemma LastFailureBuries(db: Table, seen: History)
    requires Inv(db, seen) && OneThenTheOther(db)
    requires db.jobs[0] == Inserted(Plain(1), Some(0), None, 0, 0.0, 0.0).Leased(7, 30.0, 0.0)
    ensures var next := Exec(db, LastFailure);
            OneThenTheOther(next) && next.jobs[0].state.Discarded?
  {
    NeverAborts(db, seen, LastFailure);
    OnlyOneReport(db);
  }

  lemma OnlyOneReport(db: Table)
    requires db.jobs.Keys == {0, 1} && db.jobs[0].HeldBy(7) && db.jobs[0].attempt >= db.jobs[0].spec.maxAttempts
    ensures var next := Proposed(db, LastFailure);
            && next.jobs.Keys == {0, 1} && next.edges == db.edges
            && next.jobs[0].state.Discarded? && next.jobs[1] == db.jobs[1]
  {}

  lemma FirstIsInserted(run: seq<Op>)
    requires |run| >= 1 && run[0] == TwoSteps
    ensures OneThenTheOther(TableAfter(run[..1]))
    ensures TableAfter(run[..1]).jobs[0] == Inserted(Plain(1), Some(0), None, 0, 0.0, 0.0)
  {
    ReachableInv(run[..0]);
    StepAt(run, 0);
    TwoStepsInserted(TableAfter(run[..0]), SeenAfter(run[..0]));
  }

  lemma FirstIsRunning(run: seq<Op>)
    requires |run| >= 2 && run[0] == TwoSteps && run[1] == FirstLease
    ensures OneThenTheOther(TableAfter(run[..2]))
    ensures TableAfter(run[..2]).jobs[0] == Inserted(Plain(1), Some(0), None, 0, 0.0, 0.0).Leased(7, 30.0, 0.0)
  {
    FirstIsInserted(run);
    ReachableInv(run[..1]);
    StepAt(run, 1);
    FirstLeaseCommits(TableAfter(run[..1]), SeenAfter(run[..1]));
  }

  lemma FirstIsBuried(run: seq<Op>)
    requires LosesItsFirstStep(run)
    ensures OneThenTheOther(TableAfter(run[..3]))
    ensures TableAfter(run[..3]).jobs[0].state.Discarded?
  {
    FirstIsRunning(run);
    ReachableInv(run[..2]);
    StepAt(run, 2);
    LastFailureBuries(TableAfter(run[..2]), SeenAfter(run[..2]));
  }

  lemma StoryIsOrdinary(run: seq<Op>)
    requires LosesItsFirstStep(run)
    ensures ForwardRun(run)
  {
    assert Forward(TwoSteps.edges);
  }

  lemma DiscardedParentStrands(db: Table, seen: History, p: JobId, c: JobId)
    requires Inv(db, seen) && (p, c) in db.edges && p in db.jobs && db.jobs[p].state.Discarded? && LiveRow(db, c)
    ensures StrandedBy(db, seen, p, c)
  {}

  /** The workflow documentation says a job that dead-letters cancels everything
      downstream. In a chain of two, a first step that fails retryably on its
      last attempt is dead-lettered and the second step stays parked, for good
      unless an operator retries the first. */
  lemma ExhaustedStepParksItsChain(run: seq<Op>)
    requires LosesItsFirstStep(run)
    ensures ForwardRun(run)
    ensures 0 in TableAfter(run).jobs && TableAfter(run).jobs[0].state.Discarded?
    ensures 1 in TableAfter(run).jobs && TableAfter(run).jobs[1].state.Available?
    ensures TableAfter(run).jobs[1].scheduledAt.Infinity?
    ensures StrandedBy(TableAfter(run), SeenAfter(run), 0, 1)
  {
    StoryIsOrdinary(run);
    FirstIsBuried(run);
    assert run[..3] == run;
    ParkedIsStranded(run);
  }

  lemma ParkedIsStranded(run: seq<Op>)
    requires OneThenTheOther(TableAfter(run)) && TableAfter(run).jobs[0].state.Discarded?
    ensures StrandedBy(TableAfter(run), SeenAfter(run), 0, 1)
  {
    ReachableInv(run);
    DiscardedParentStrands(TableAfter(run), SeenAfter(run), 0, 1);
  }
}
