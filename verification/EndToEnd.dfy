/** The algebra and the queue joined: what a composition promises is what every
    run of the queue obeys, from the moment the workflow is inserted. */
module EndToEnd {
  import opened Graph
  import opened JobTable
  import opened Queue
  import opened QueueInvariant
  import opened Lifecycle
  import opened FanIn
  import opened Composition
  import Stranding

  /** At step k of the run, the workflow built from `c` was inserted under
      these row ids, and the insert committed. */
  ghost predicate InsertsComposition(run: seq<Op>, k: nat, c: Comp, ids: seq<JobId>) {
    && k < |run|
    && run[k].DoInsertWorkflow?
    && run[k].nodes == Build(c).nodes && run[k].edges == Build(c).edges && run[k].rowIds == ids
    && Enabled(TableAfter(run[..k]), run[k]) && !Aborts(TableAfter(run[..k]), run[k])
  }

  lemma RightAfterInsertion(run: seq<Op>, k: nat, c: Comp, ids: seq<JobId>)
    requires InsertsComposition(run, k, c, ids)
    ensures |ids| == |Build(c).nodes| && FreshIds(TableAfter(run[..k]), ids)
    ensures forall e :: e in Build(c).edges ==> e.0 < |ids| && e.1 < |ids|
    ensures OwnEdges(SeenAfter(run[..k + 1]), Build(c).edges, ids)
    ensures Older(TableAfter(run[..k + 1]), ids)
  {
    ReachableInv(run[..k]);
    StepAt(run, k);
    InsertionOwns(TableAfter(run[..k]), SeenAfter(run[..k]), run[k]);
  }

  lemma InsertionOwns(db: Table, seen: History, op: Op)
    requires Inv(db, seen) && op.DoInsertWorkflow? && Enabled(db, op) && !Aborts(db, op)
    ensures |op.rowIds| == |op.nodes| && FreshIds(db, op.rowIds)
    ensures forall e :: e in op.edges ==> e.0 < |op.rowIds| && e.1 < |op.rowIds|
    ensures OwnEdges(Observe(seen, Exec(db, op)), op.edges, op.rowIds)
    ensures Older(Exec(db, op), op.rowIds)
  {
    WorkflowGrows(db, seen, op.flow, op.nodes, op.edges, op.rowIds, op.now);
    FreshEdgesOwn(db, seen, op, Exec(db, op));
    forall id | id in op.rowIds ensures id in Exec(db, op).used {
      var i := PositionOf(op.rowIds, id);
    }
  }

  lemma FreshEdgesOwn(db: Table, seen: History, op: Op, next: Table)
    requires KnownIds(db, seen) && EdgesExact(db, seen) && op.DoInsertWorkflow? && FreshIds(db, op.rowIds)
    requires forall e :: e in op.edges ==> e.0 < |op.rowIds| && e.1 < |op.rowIds|
    requires next.edges == db.edges + EdgeRows(op.edges, op.rowIds)
    ensures OwnEdges(Observe(seen, next), op.edges, op.rowIds)
  {
    var after := Observe(seen, next);
    forall e | e in after.inserted && (e.0 in op.rowIds || e.1 in op.rowIds)
      ensures e in EdgeRows(op.edges, op.rowIds) {
      assert e !in seen.inserted;
    }
  }

  /** The only inserted edges touching these rows are the workflow's own. */
  ghost predicate OwnEdges(seen: History, edges: set<Edge>, ids: seq<JobId>)
    requires forall e :: e in edges ==> e.0 < |ids| && e.1 < |ids|
  {
    && EdgeRows(edges, ids) <= seen.inserted
    && forall e :: e in seen.inserted && (e.0 in ids || e.1 in ids) ==> e in EdgeRows(edges, ids)
  }

  ghost predicate Older(db: Table, ids: seq<JobId>) {
    forall id :: id in ids ==> id in db.used
  }

  lemma StepKeepsOwn(db: Table, seen: History, op: Op, edges: set<Edge>, ids: seq<JobId>)
    requires Inv(db, seen) && forall e :: e in edges ==> e.0 < |ids| && e.1 < |ids|
    requires OwnEdges(seen, edges, ids) && Older(db, ids)
    ensures OwnEdges(Observe(seen, Exec(db, op)), edges, ids)
  {
    NewEdgesAreFresh(db, seen, op);
    var after := Observe(seen, Exec(db, op));
    forall e | e in after.inserted && (e.0 in ids || e.1 in ids) ensures e in EdgeRows(edges, ids) {
      assert e in seen.inserted;
    }
  }

  /** Later inserts never connect to rows that already exist. */
  lemma {:induction false} EdgesStayOwn(run: seq<Op>, m: nat, n: nat, edges: set<Edge>, ids: seq<JobId>)
    requires m <= n <= |run| && forall e :: e in edges ==> e.0 < |ids| && e.1 < |ids|
    requires OwnEdges(SeenAfter(run[..m]), edges, ids) && Older(TableAfter(run[..m]), ids)
    ensures OwnEdges(SeenAfter(run[..n]), edges, ids)
    decreases n
  {
    if n > m {
      EdgesStayOwn(run, m, n - 1, edges, ids);
      IdsGrow(run, m, n - 1);
      EdgesStayOwnAt(run, n - 1, edges, ids);
    }
  }

  lemma EdgesStayOwnAt(run: seq<Op>, i: nat, edges: set<Edge>, ids: seq<JobId>)
    requires i < |run| && forall e :: e in edges ==> e.0 < |ids| && e.1 < |ids|
    requires OwnEdges(SeenAfter(run[..i]), edges, ids) && Older(TableAfter(run[..i]), ids)
    ensures OwnEdges(SeenAfter(run[..i + 1]), edges, ids)
  {
    ReachableInv(run[..i]);
    StepAt(run, i);
    StepKeepsOwn(TableAfter(run[..i]), SeenAfter(run[..i]), run[i], edges, ids);
  }

  lemma NewEdgesAreFresh(db: Table, seen: History, op: Op)
    requires Inv(db, seen)
    ensures forall e :: e in Exec(db, op).edges && e !in seen.inserted ==> e.0 !in db.used && e.1 !in db.used
  {
    if Exec(db, op) != db && op.DoInsertWorkflow? {
      WorkflowGrows(db, seen, op.flow, op.nodes, op.edges, op.rowIds, op.now);
      assert Grows(db, Exec(db, op));
    } else {
      assert Exec(db, op).edges <= db.edges;
    }
  }

  // ---- positions and rows --------------------------------------------------

  ghost predicate Increasing(ids: seq<JobId>) {
    forall i, j :: 0 <= i < j < |ids| ==> ids[i] < ids[j]
  }

  lemma OwnEdgeAt(seen: History, edges: set<Edge>, ids: seq<JobId>, e: Edge) returns (f: Edge)
    requires forall e :: e in edges ==> e.0 < |ids| && e.1 < |ids|
    requires OwnEdges(seen, edges, ids) && e in seen.inserted && e.1 in ids
    ensures f in edges && f.0 < |ids| && f.1 < |ids| && ids[f.0] == e.0 && ids[f.1] == e.1
  {
    f :| f in edges && (ids[f.0], ids[f.1]) == e;
  }

  /** A walk over row ids that ends in this workflow never was outside it. */
  lemma {:induction false} WalkStaysInside(seen: History, edges: set<Edge>, ids: seq<JobId>, path: seq<JobId>, n: nat)
    requires forall e :: e in edges ==> e.0 < |ids| && e.1 < |ids|
    requires OwnEdges(seen, edges, ids) && IsPath(seen.inserted, path) && path[|path| - 1] in ids && n < |path|
    ensures path[n] in ids
    decreases |path| - n
  {
    if n < |path| - 1 {
      WalkStaysInside(seen, edges, ids, path, n + 1);
      var f := OwnEdgeAt(seen, edges, ids, (path[n], path[n + 1]));
    }
  }

  lemma OwnStep(seen: History, edges: set<Edge>, ids: seq<JobId>, e: Edge)
    requires forall e :: e in edges ==> e.0 < |ids| && e.1 < |ids|
    requires OwnEdges(seen, edges, ids) && Increasing(ids) && e in seen.inserted && e.0 in ids && e.1 in ids
    ensures (PositionOf(ids, e.0), PositionOf(ids, e.1)) in edges
  {
    var f := OwnEdgeAt(seen, edges, ids, e);
    assert PositionOf(ids, e.0) == f.0 && PositionOf(ids, e.1) == f.1;
  }

  ghost function Positions(ids: seq<JobId>, path: seq<JobId>): (local: seq<nat>)
    requires forall n :: 0 <= n < |path| ==> path[n] in ids
    ensures |local| == |path| && forall n :: 0 <= n < |path| ==> local[n] == PositionOf(ids, path[n])
  {
    seq(|path|, n requires 0 <= n < |path| => PositionOf(ids, path[n]))
  }

  lemma PositionsArePath(seen: History, edges: set<Edge>, ids: seq<JobId>, path: seq<JobId>)
    requires forall e :: e in edges ==> e.0 < |ids| && e.1 < |ids|
    requires Increasing(ids) && OwnEdges(seen, edges, ids) && IsPath(seen.inserted, path)
    requires forall n :: 0 <= n < |path| ==> path[n] in ids
    ensures IsPath(edges, Positions(ids, path))
  {
    var local := Positions(ids, path);
    forall n | 0 <= n < |local| - 1 ensures (local[n], local[n + 1]) in edges {
      OwnStep(seen, edges, ids, (path[n], path[n + 1]));
    }
  }

  lemma PositionBack(ids: seq<JobId>, i: nat)
    requires Increasing(ids) && i < |ids|
    ensures PositionOf(ids, ids[i]) == i
  {}

  /** So it is a walk over the positions its rows were inserted from. */
  lemma RowsWalkPositions(seen: History, edges: set<Edge>, ids: seq<JobId>, path: seq<JobId>, i: nat, j: nat)
    requires forall e :: e in edges ==> e.0 < |ids| && e.1 < |ids|
    requires Increasing(ids) && i < |ids| && j < |ids|
    requires OwnEdges(seen, edges, ids) && Joins(seen.inserted, path, ids[i], ids[j])
    ensures Reaches(edges, i, j)
  {
    forall n | 0 <= n < |path| ensures path[n] in ids {
      WalkStaysInside(seen, edges, ids, path, n);
    }
    PositionsArePath(seen, edges, ids, path);
    PositionBack(ids, i);
    PositionBack(ids, j);
    assert Joins(edges, Positions(ids, path), i, j);
  }

  lemma PositionsWalkRows(seen: History, edges: set<Edge>, ids: seq<JobId>, local: seq<nat>)
    requires forall e :: e in edges ==> e.0 < |ids| && e.1 < |ids|
    requires OwnEdges(seen, edges, ids) && IsPath(edges, local)
    ensures forall n :: 0 <= n < |local| ==> local[n] < |ids|
    ensures Reaches(seen.inserted, ids[local[0]], ids[local[|local| - 1]])
  {
    forall n | 0 <= n < |local| ensures local[n] < |ids| {
      if n < |local| - 1 {
        assert (local[n], local[n + 1]) in edges;
      } else {
        assert (local[n - 1], local[n]) in edges;
      }
    }
    var path: seq<JobId> := seq(|local|, n requires 0 <= n < |local| => ids[local[n]]);
    forall n | 0 <= n < |path| - 1 ensures (path[n], path[n + 1]) in seen.inserted {
      assert (local[n], local[n + 1]) in edges;
      assert (path[n], path[n + 1]) in EdgeRows(edges, ids);
    }
    assert Joins(seen.inserted, path, ids[local[0]], ids[local[|local| - 1]]);
  }

  /** The row of each position is for the task written there, arguments, queue,
      limits and all, for as long as it exists; and to begin with all rows do. */
  lemma RowsHoldTheTasks(run: seq<Op>, k: nat, n: nat, c: Comp, ids: seq<JobId>, i: nat)
    requires InsertsComposition(run, k, c, ids) && k < n <= |run|
    ensures |ids| == |Tasks(c)|
    ensures i < |ids| ==>
              && ids[i] in TableAfter(run[..k + 1]).jobs
              && (ids[i] in TableAfter(run[..n]).jobs ==> TableAfter(run[..n]).jobs[ids[i]].spec == Tasks(c)[i].spec)
  {
    BuildKeepsTasks(c);
    RightAfterInsertion(run, k, c, ids);
    if i < |ids| {
      InsertedForTask(run, k, c, ids, i);
      SpecIsKept(run, k + 1, n, ids[i]);
    }
  }

  lemma InsertedForTask(run: seq<Op>, k: nat, c: Comp, ids: seq<JobId>, i: nat)
    requires InsertsComposition(run, k, c, ids) && i < |ids| == |Build(c).nodes|
    ensures ids[i] in TableAfter(run[..k + 1]).jobs
    ensures TableAfter(run[..k + 1]).jobs[ids[i]].spec == Build(c).nodes[i].spec
  {
    StepAt(run, k);
    NodeIsInserted(TableAfter(run[..k]), run[k], i);
  }

  lemma NodeIsInserted(db: Table, op: Op, i: nat)
    requires op.DoInsertWorkflow? && Enabled(db, op) && !Aborts(db, op) && i < |op.rowIds|
    ensures op.rowIds[i] in Exec(db, op).jobs
    ensures i < |op.nodes| && Exec(db, op).jobs[op.rowIds[i]].spec == op.nodes[i].spec
  {
    assert PositionOf(op.rowIds, op.rowIds[i]) == i;
  }

  /** A row that is there at two moments is for the same job at both. */
  lemma {:induction false} SpecIsKept(run: seq<Op>, m: nat, n: nat, id: JobId)
    requires m <= n <= |run| && id in TableAfter(run[..m]).jobs
    ensures id in TableAfter(run[..n]).used
    ensures id in TableAfter(run[..n]).jobs ==> TableAfter(run[..n]).jobs[id].spec == TableAfter(run[..m]).jobs[id].spec
    decreases n
  {
    if m == n {
      ReachableInv(run[..m]);
    } else {
      var before := n - 1;
      SpecIsKept(run, m, before, id);
      RunEvolves(run, before);
    }
  }

  /** At every later point of every run, one row of the workflow is upstream of
      another exactly when the composition puts its task first. Branches of a
      group therefore never come to depend on each other. */
  lemma RowsFollowComposition(run: seq<Op>, k: nat, n: nat, c: Comp, ids: seq<JobId>, i: nat, j: nat)
    requires InsertsComposition(run, k, c, ids) && k < n <= |run|
    requires i < |ids| && j < |ids|
    ensures |ids| == Size(c)
    ensures Reaches(SeenAfter(run[..n]).inserted, ids[i], ids[j]) <==> Precedes(c, i, j)
  {
    RightAfterInsertion(run, k, c, ids);
    EdgesStayOwn(run, k + 1, n, Build(c).edges, ids);
    BuildMeans(c, i, j);
    RowsReachAsPositions(SeenAfter(run[..n]), Build(c).edges, ids, i, j);
  }

  lemma RowsReachAsPositions(seen: History, edges: set<Edge>, ids: seq<JobId>, i: nat, j: nat)
    requires forall e :: e in edges ==> e.0 < |ids| && e.1 < |ids|
    requires Increasing(ids) && OwnEdges(seen, edges, ids) && i < |ids| && j < |ids|
    ensures Reaches(seen.inserted, ids[i], ids[j]) <==> Reaches(edges, i, j)
  {
    if Reaches(seen.inserted, ids[i], ids[j]) {
      var path :| Joins(seen.inserted, path, ids[i], ids[j]);
      RowsWalkPositions(seen, edges, ids, path, i, j);
    }
    if Reaches(edges, i, j) {
      var local :| Joins(edges, local, i, j);
      PositionsWalkRows(seen, edges, ids, local);
    }
  }

  /** Whatever runs had all its parents completed one step earlier at least. */
  lemma RunsAfterItsParents(run: seq<Op>, n: nat, id: JobId)
    requires n < |run| && StateAt(run, n + 1, id, Running)
    ensures Unmet(SeenAfter(run[..n]), id) == {}
  {
    var before := TableAfter(run[..n]);
    ReachableInv(run[..n]);
    RunEvolves(run, n);
    StepAt(run, n);
    assert id in before.jobs;
    if !before.jobs[id].state.Running? {
      OnlyDueRowsAreLeased(before, run[n], id);
    }
  }

  lemma OnlyDueRowsAreLeased(db: Table, op: Op, id: JobId)
    requires RowsOk(db) && id in db.jobs && db.jobs[id].state.Available?
    requires id in Exec(db, op).jobs && Exec(db, op).jobs[id].state.Running?
    ensures db.jobs[id].pendingDeps == 0
  {}

  /** The end-to-end promise: for any nesting of chains, groups and chords, in
      any run of the queue, whenever a task of the composition is running, every
      task that comes before it had completed strictly earlier. */
  lemma CompositionIsObeyed(run: seq<Op>, k: nat, n: nat, c: Comp, ids: seq<JobId>, i: nat, j: nat) returns (m: nat)
    requires InsertsComposition(run, k, c, ids) && k <= n < |run|
    requires i < |ids| && j < |ids| && Precedes(c, i, j)
    requires StateAt(run, n + 1, ids[j], Running)
    ensures k < m < n + 1 && StateAt(run, m, ids[i], Completed)
  {
    LaterThanInsertion(run, k, n, c, ids, j);
    PrecedingIsUpstream(run, k, n, c, ids, i, j);
    m := UpstreamCompletedEarlier(run, n, ids[i], ids[j]);
    NotYetThere(run, k, c, ids, i, m);
  }

  lemma LaterThanInsertion(run: seq<Op>, k: nat, n: nat, c: Comp, ids: seq<JobId>, j: nat)
    requires InsertsComposition(run, k, c, ids) && k <= n < |run| && j < |ids|
    requires StateAt(run, n + 1, ids[j], Running)
    ensures k < n
  {
    NotRunningAtInsertion(run, k, c, ids, j);
  }

  lemma PrecedingIsUpstream(run: seq<Op>, k: nat, n: nat, c: Comp, ids: seq<JobId>, i: nat, j: nat)
    requires InsertsComposition(run, k, c, ids) && k < n <= |run|
    requires i < |ids| && j < |ids| && Precedes(c, i, j)
    ensures Reaches(SeenAfter(run[..n]).inserted, ids[i], ids[j])
  {
    RowsFollowComposition(run, k, n, c, ids, i, j);
  }

  /** Whatever is upstream of a running job had completed strictly earlier. */
  lemma UpstreamCompletedEarlier(run: seq<Op>, n: nat, a: JobId, b: JobId) returns (m: nat)
    requires n < |run| && StateAt(run, n + 1, b, Running)
    requires Reaches(SeenAfter(run[..n]).inserted, a, b)
    ensures m < n + 1 && StateAt(run, m, a, Completed)
  {
    RunsAfterItsParents(run, n, b);
    UpstreamOfUnblocked(run[..n], a, b);
    m := EverIsEarlier(run, n, a);
  }

  lemma EverIsEarlier(run: seq<Op>, n: nat, a: JobId) returns (m: nat)
    requires n <= |run| && Ever(run[..n], a, Completed)
    ensures m <= n && StateAt(run, m, a, Completed)
  {
    m :| StateAt(run[..n], m, a, Completed);
    assert run[..n][..m] == run[..m];
  }

  lemma UpstreamOfUnblocked(run: seq<Op>, a: JobId, b: JobId)
    requires Reaches(SeenAfter(run).inserted, a, b) && Unmet(SeenAfter(run), b) == {}
    ensures Ever(run, a, Completed)
  {
    ReachableInv(run);
    var path :| Joins(SeenAfter(run).inserted, path, a, b);
    WalkCompletedBefore(SeenAfter(run), path);
    HistoryIsObserved(run, (a, b), a);
  }

  /** The end of a walk need not have run itself, as long as it waits for
      nothing. */
  lemma WalkCompletedBefore(seen: History, path: seq<JobId>)
    requires LeasedInOrder(seen) && seen.completed <= seen.leased
    requires IsPath(seen.inserted, path) && Unmet(seen, path[|path| - 1]) == {}
    ensures path[0] in seen.completed
  {
    var k := |path| - 2;
    assert (path[k], path[k + 1]) in seen.inserted;
    assert path[k] !in Unmet(seen, path[k + 1]);
    if k > 0 {
      WalkCompleted(seen, path[..k + 1]);
    }
  }

  lemma NotRunningAtInsertion(run: seq<Op>, k: nat, c: Comp, ids: seq<JobId>, j: nat)
    requires InsertsComposition(run, k, c, ids) && j < |ids|
    ensures !StateAt(run, k + 1, ids[j], Running)
  {
    assert run[..k + 1][..k] == run[..k];
    ReachableInv(run[..k]);
    RunEvolves(run, k);
    assert ids[j] !in TableAfter(run[..k]).jobs;
  }

  /** A row id is unused before its insertion, and merely available right
      after it. */
  lemma NotYetThere(run: seq<Op>, k: nat, c: Comp, ids: seq<JobId>, i: nat, m: nat)
    requires InsertsComposition(run, k, c, ids) && i < |ids|
    requires StateAt(run, m, ids[i], Completed)
    ensures m > k
  {
    if m <= k {
      ReachableInv(run[..m]);
      IdsGrow(run, m, k);
    }
  }

  lemma {:induction false} IdsGrow(run: seq<Op>, m: nat, n: nat)
    requires m <= n <= |run|
    ensures TableAfter(run[..m]).used <= TableAfter(run[..n]).used
    decreases n - m
  {
    if m < n {
      IdsGrow(run, m, n - 1);
      RunEvolves(run, n - 1);
    }
  }

  // ---- progress ------------------------------------------------------------

  ghost predicate BuiltFrom(edges: set<Edge>, c: Comp) {
    edges == Build(c).edges
  }

  /** Every workflow the run inserts was made by the constructors. */
  ghost predicate ComposedRun(run: seq<Op>) {
    forall i :: 0 <= i < |run| && run[i].DoInsertWorkflow? ==> exists c :: BuiltFrom(run[i].edges, c)
  }

  /** In every run of composed workflows in which nothing dies without its
      descendants, a workflow with a live member has one that is running or will
      come due: the member itself, or something upstream of it. */
  lemma ComposedGraphsNeverPark(run: seq<Op>, id: JobId) returns (r: JobId)
    requires ComposedRun(run) && Stranding.CleanRun(run) && Stranding.LiveRow(TableAfter(run), id)
    ensures Stranding.LiveRow(TableAfter(run), r) && Stranding.Runnable(TableAfter(run).jobs[r])
    ensures TableAfter(run).jobs[r].workflow == TableAfter(run).jobs[id].workflow
    ensures r == id || Reaches(SeenAfter(run).inserted, r, id)
  {
    assert Stranding.ForwardRun(run) by {
      ComposedIsForward(run);
    }
    r := Stranding.NoParkedGraph(run, id);
  }

  lemma ComposedIsForward(run: seq<Op>)
    requires ComposedRun(run)
    ensures Stranding.ForwardRun(run)
  {
    forall i | 0 <= i < |run| && run[i].DoInsertWorkflow? ensures Forward(run[i].edges) {
      var c :| BuiltFrom(run[i].edges, c);
      BuildMeans(c, 0, 0);
    }
  }
}
