/** Fan-in over whole runs: what the dependency counter means, and why nothing
    is ever leased before everything upstream of it has completed. */
module FanIn {
  import opened Graph
  import opened JobTable
  import opened Queue
  import opened QueueInvariant

  // ---- what the history records --------------------------------------------

  ghost predicate EdgeAt(run: seq<Op>, n: nat, e: Edge) {
    n <= |run| && e in TableAfter(run[..n]).edges
  }

  ghost predicate StateAt(run: seq<Op>, n: nat, id: JobId, state: JobState) {
    n <= |run| && id in TableAfter(run[..n]).jobs && TableAfter(run[..n]).jobs[id].state == state
  }

  ghost predicate WasInserted(run: seq<Op>, e: Edge) {
    exists n :: EdgeAt(run, n, e)
  }

  /** At some point up to the end of the run the job was in this state. */
  ghost predicate Ever(run: seq<Op>, id: JobId, state: JobState) {
    exists n :: StateAt(run, n, id, state)
  }

  /** The history kept beside the table is exactly what the run's own tables
      showed: nothing is taken on trust. */
  lemma {:induction false} HistoryIsObserved(run: seq<Op>, e: Edge, id: JobId)
    ensures e in SeenAfter(run).inserted <==> WasInserted(run, e)
    ensures id in SeenAfter(run).completed <==> Ever(run, id, Completed)
    ensures id in SeenAfter(run).leased <==> Ever(run, id, Running)
    decreases |run|
  {
    assert run[..|run|] == run;
    if run == [] {
      assert run[..0] == [];
    } else {
      var k := |run| - 1;
      HistoryIsObserved(run[..k], e, id);
      forall n | 0 <= n <= k ensures run[..k][..n] == run[..n] {}
      assert forall n :: EdgeAt(run, n, e) <==> EdgeAt(run[..k], n, e) || (n == |run| && e in TableAfter(run).edges);
      assert forall n, s :: StateAt(run, n, id, s) <==>
          StateAt(run[..k], n, id, s) ||
            (n == |run| && id in TableAfter(run).jobs && TableAfter(run).jobs[id].state == s);
      assert EdgeAt(run, |run|, e) <==> e in TableAfter(run).edges;
      assert forall s :: StateAt(run, |run|, id, s) <==> id in InState(TableAfter(run), s);
    }
  }

  // ---- exactness -----------------------------------------------------------

  /** In every run, under every statement including pruning, purging and
      operator retries: a row's counter is the number of its inserted parents
      that have never completed. An available row is parked at infinity exactly
      while that is positive, and a row that runs, completed or was discarded
      waits for nothing. */
  lemma FanInExact(run: seq<Op>, id: JobId) returns (unmet: set<JobId>)
    ensures forall p :: p in unmet <==> WasInserted(run, (p, id)) && !Ever(run, p, Completed)
    ensures id in TableAfter(run).jobs ==>
              var job := TableAfter(run).jobs[id];
              && job.pendingDeps == |unmet|
              && (job.state.Available? ==> (job.scheduledAt.Infinity? <==> unmet != {}))
              && (job.state.Running? || job.state.Completed? || job.state.Discarded? ==> unmet == {})
  {
    ReachableInv(run);
    unmet := Unmet(SeenAfter(run), id);
    forall p: nat ensures p in unmet <==> WasInserted(run, (p, id)) && !Ever(run, p, Completed) {
      HistoryIsObserved(run, (p, id), p);
    }
  }

  // ---- order ---------------------------------------------------------------

  /** Along a walk of inserted edges ending in a leased job, every job before
      the end has completed. */
  lemma {:induction false} WalkCompleted(seen: History, path: seq<JobId>)
    requires LeasedInOrder(seen) && seen.completed <= seen.leased
    requires IsPath(seen.inserted, path) && path[|path| - 1] in seen.leased
    ensures path[0] in seen.completed
    decreases |path|
  {
    var k := |path| - 2;
    assert (path[k], path[k + 1]) in seen.inserted;
    assert path[k] !in Unmet(seen, path[k + 1]);
    if k > 0 {
      WalkCompleted(seen, path[..k + 1]);
    }
  }

  /** No job is ever leased before all its transitive ancestors completed. */
  lemma AncestorsFirst(run: seq<Op>, a: JobId, b: JobId)
    requires Reaches(SeenAfter(run).inserted, a, b) && b in SeenAfter(run).leased
    ensures a in SeenAfter(run).completed
    ensures Ever(run, a, Completed)
  {
    ReachableInv(run);
    var path :| Joins(SeenAfter(run).inserted, path, a, b);
    WalkCompleted(SeenAfter(run), path);
    HistoryIsObserved(run, (a, b), a);
  }
}
