/** The recursive part of `DISCARD_MANY`: a terminal failure cancels everything
    downstream of it, and only that. */
module Cascade {
  import opened Prelude
  import opened Graph
  import opened JobTable
  import opened Queue
  import opened QueueInvariant
  import opened FanIn

  function Children(edges: set<Edge>, from: set<JobId>): set<JobId> {
    set e | e in edges && e.0 in from :: e.1
  }

  lemma {:induction false} ClosedHoldsWalk(edges: set<Edge>, dead: set<JobId>, walk: set<JobId>, path: seq<JobId>)
    requires forall e :: e in edges && e.0 in dead + walk ==> e.1 in walk
    requires IsPath(edges, path) && path[0] in dead
    ensures path[|path| - 1] in walk
    decreases |path|
  {
    var k := |path| - 2;
    if k > 0 {
      ClosedHoldsWalk(edges, dead, walk, path[..k + 1]);
    }
    assert (path[k], path[k + 1]) in edges;
  }

  lemma ChildrenAreDownstream(edges: set<Edge>, dead: set<JobId>, from: set<JobId>)
    requires forall a :: a in from ==> a in dead || Downstream(edges, dead, a)
    ensures forall b :: b in Children(edges, from) ==> Downstream(edges, dead, b)
  {
    forall b | b in Children(edges, from) ensures Downstream(edges, dead, b) {
      var e :| e in edges && e.0 in from && e.1 == b;
      if e.0 in dead {
        EdgeReaches(edges, e.0, b);
      } else {
        var a :| a in dead && Reaches(edges, a, e.0);
        ReachExtends(edges, a, e.0, b);
      }
    }
  }

  lemma ClosedHoldsAll(edges: set<Edge>, dead: set<JobId>, walk: set<JobId>)
    requires forall e :: e in edges && e.0 in dead + walk ==> e.1 in walk
    ensures forall b :: Downstream(edges, dead, b) ==> b in walk
  {
    forall b | Downstream(edges, dead, b) ensures b in walk {
      var a :| a in dead && Reaches(edges, a, b);
      var path :| Joins(edges, path, a, b);
      ClosedHoldsWalk(edges, dead, walk, path);
    }
  }

  lemma RoundCloses(edges: set<Edge>, dead: set<JobId>, walk: set<JobId>, working: set<JobId>, found: set<JobId>)
    requires working <= walk && found == Children(edges, working) - walk
    requires forall e :: e in edges && e.0 in dead + (walk - working) ==> e.1 in walk
    ensures forall e :: e in edges && e.0 in dead + ((walk + found) - found) ==> e.1 in walk + found
  {
    forall e | e in edges && e.0 in dead + ((walk + found) - found) ensures e.1 in walk + found {
      if e.0 in working {
        assert e.1 in Children(edges, working);
      }
    }
  }

  lemma FewerLeft(targets: set<JobId>, walk: set<JobId>, found: set<JobId>)
    requires found != {} && found <= targets - walk
    ensures |targets - (walk + found)| < |targets - walk|
  {
    var b :| b in found;
    SubsetSize(targets - (walk + found), (targets - walk) - {b});
  }

  /** Only descendants so far, and all children of what is behind the front. */
  ghost predicate Walking(edges: set<Edge>, dead: set<JobId>, walk: set<JobId>, working: set<JobId>) {
    && working <= walk <= (set e | e in edges :: e.1)
    && (forall e :: e in edges && e.0 in dead + (walk - working) ==> e.1 in walk)
    && (forall b :: b in walk ==> Downstream(edges, dead, b))
  }

  lemma WalkBegins(edges: set<Edge>, dead: set<JobId>)
    ensures Walking(edges, dead, Children(edges, dead), Children(edges, dead))
  {
    ChildrenAreDownstream(edges, dead, dead);
  }

  lemma WalkGoesOn(edges: set<Edge>, dead: set<JobId>, walk: set<JobId>, working: set<JobId>, found: set<JobId>)
    requires Walking(edges, dead, walk, working) && found == Children(edges, working) - walk
    ensures Walking(edges, dead, walk + found, found)
  {
    ChildrenAreDownstream(edges, dead, working);
    RoundCloses(edges, dead, walk, working, found);
  }

  lemma WalkShrinks(edges: set<Edge>, walk: set<JobId>, working: set<JobId>, found: set<JobId>)
    requires found == Children(edges, working) - walk
    ensures var targets := set e | e in edges :: e.1;
            if found == {} then walk + found == walk else |targets - (walk + found)| < |targets - walk|
  {
    var targets := set e | e in edges :: e.1;
    if found != {} {
      FewerLeft(targets, walk, found);
    }
  }

  /** The `WITH RECURSIVE ... UNION` walk, one round of new rows at a time. It
      terminates on every graph, cycles included, and finds exactly what is
      reachable. */
  method Walk(edges: set<Edge>, dead: set<JobId>) returns (walk: set<JobId>)
    ensures forall b :: b in walk <==> Downstream(edges, dead, b)
  {
    var working := Children(edges, dead);
    walk := working;
    WalkBegins(edges, dead);
    while working != {}
      invariant Walking(edges, dead, walk, working)
      decreases |(set e | e in edges :: e.1) - walk|, |working|
    {
      var found := Children(edges, working) - walk;
      WalkGoesOn(edges, dead, walk, working, found);
      WalkShrinks(edges, walk, working, found);
      walk, working := walk + found, found;
    }
    ClosedHoldsAll(edges, dead, walk);
  }

  /** Everything downstream of a job that has not completed is waiting: it has
      never been leased, and is available or cancelled. */
  lemma DownstreamWaits(db: Table, seen: History, p: JobId, c: JobId)
    requires Inv(db, seen) && p !in seen.completed && Reaches(db.edges, p, c)
    ensures c !in seen.leased
    ensures c in db.jobs && (db.jobs[c].state.Available? || db.jobs[c].state.Cancelled?)
    ensures db.jobs[c].pendingDeps > 0
  {
    var path :| Joins(db.edges, path, p, c);
    assert Joins(seen.inserted, path, p, c);
    if c in seen.leased {
      WalkCompleted(seen, path);
    }
    var m := LastEdge(db.edges, p, c);
    if m != p {
      NeverLeasedBelow(db, seen, p, m);
    }
    assert m in Unmet(seen, c);
  }

  lemma NeverLeasedBelow(db: Table, seen: History, p: JobId, m: JobId)
    requires Inv(db, seen) && p !in seen.completed && Reaches(db.edges, p, m)
    ensures m !in seen.leased
  {
    var path :| Joins(db.edges, path, p, m);
    assert Joins(seen.inserted, path, p, m);
    if m in seen.leased {
      WalkCompleted(seen, path);
    }
  }

  /** In every run: after a terminal failure is recorded, the jobs it killed are
      discarded, all their descendants are cancelled without ever having run,
      and no other row has changed. */
  lemma CascadeClosed(run: seq<Op>, errors: map<JobId, string>, worker: WorkerId, now: real)
    ensures var db := TableAfter(run);
            var next := Exec(db, DoDiscard(errors, worker, now));
            var dead := Reported(db, errors, worker);
            && (forall id :: id in dead ==> id in next.jobs && next.jobs[id].state.Discarded?)
            && (forall c :: Downstream(db.edges, dead, c) ==>
                  c in next.jobs && next.jobs[c].state.Cancelled? && !Ever(run, c, Running))
            && (forall id :: id in db.jobs && id !in dead && !Downstream(db.edges, dead, id) ==>
                  id in next.jobs && next.jobs[id] == db.jobs[id])
            && next.jobs.Keys == db.jobs.Keys && next.edges == db.edges
  {
    var db := TableAfter(run);
    var dead := Reported(db, errors, worker);
    ReachableInv(run);
    NeverAborts(db, SeenAfter(run), DoDiscard(errors, worker, now));
    forall c | Downstream(db.edges, dead, c) ensures Waiting(db, c) && c !in dead && !Ever(run, c, Running) {
      DescendantNeverRan(run, dead, c);
    }
    CascadeReaches(db, errors, worker, now);
  }

  predicate Waiting(db: Table, id: JobId) {
    id in db.jobs && (db.jobs[id].state.Available? || db.jobs[id].state.Cancelled?)
  }

  lemma DescendantNeverRan(run: seq<Op>, dead: set<JobId>, c: JobId)
    requires Downstream(TableAfter(run).edges, dead, c)
    requires forall id :: id in dead ==> id in TableAfter(run).jobs && TableAfter(run).jobs[id].state.Running?
    ensures Waiting(TableAfter(run), c) && c !in dead && !Ever(run, c, Running)
  {
    var db := TableAfter(run);
    ReachableInv(run);
    var a :| a in dead && Reaches(db.edges, a, c);
    DownstreamWaits(db, SeenAfter(run), a, c);
    HistoryIsObserved(run, (a, c), c);
  }

  lemma CascadeReaches(db: Table, errors: map<JobId, string>, worker: WorkerId, now: real)
    requires forall c :: Downstream(db.edges, Reported(db, errors, worker), c) ==>
               Waiting(db, c) && c !in Reported(db, errors, worker)
    ensures var next := Discard(db, errors, worker, now);
            var dead := Reported(db, errors, worker);
            && (forall id :: id in dead ==> id in next.jobs && next.jobs[id].state.Discarded?)
            && (forall c :: Downstream(db.edges, dead, c) ==> c in next.jobs && next.jobs[c].state.Cancelled?)
            && (forall id :: id in db.jobs && id !in dead && !Downstream(db.edges, dead, id) ==>
                  id in next.jobs && next.jobs[id] == db.jobs[id])
            && next.jobs.Keys == db.jobs.Keys && next.edges == db.edges
  {}
}
