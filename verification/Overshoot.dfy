/** The one job above its concurrency that a child can come to hold is real, at
    every concurrency. */
module Overshoot {
  import opened Prelude
  import opened JobTable
  import opened Queue
  import opened QueueInvariant
  import opened Admission
  import opened Rows
  import opened Backend
  import opened Supervisor

  const Unkeyed := NewJob("default", "task", [], 0, 1, None, false)
  const Keyed := Unkeyed.(limit := Some(Limit("key", 1)))

  function UpTo(n: nat): (ids: set<JobId>)
    ensures forall id: JobId :: id in ids <==> id < n
    ensures |ids| == n
  {
    if n == 0 then {} else UpTo(n - 1) + {n - 1}
  }

  function InOrder(n: nat): (ids: seq<JobId>)
    ensures |ids| == n && forall i :: 0 <= i < n ==> ids[i] == i
  {
    if n == 0 then [] else InOrder(n - 1) + [n - 1]
  }

  function Row(spec: NewJob): Job {
    Inserted(spec, None, None, 0, 0.0, 0.0)
  }

  /** `n` unkeyed jobs, enqueued one after the other. */
  function UnkeyedTable(n: nat): Table {
    Table(map id | id in UpTo(n) :: Row(Unkeyed), {}, UpTo(n))
  }

  function UnkeyedRun(n: nat): (run: seq<Op>)
    ensures |run| == n
  {
    if n == 0 then [] else UnkeyedRun(n - 1) + [DoEnqueue(n - 1, Unkeyed, 0.0, 0.0)]
  }

  lemma EnqueueOne(run: seq<Op>, id: JobId, spec: NewJob)
    requires id !in TableAfter(run).used && Insertable(spec)
    ensures var db := TableAfter(run);
            TableAfter(run + [DoEnqueue(id, spec, 0.0, 0.0)]) ==
              db.(jobs := db.jobs[id := Row(spec)], used := db.used + {id})
  {
    var op := DoEnqueue(id, spec, 0.0, 0.0);
    ReachableInv(run);
    AbortsExactlyWhen(TableAfter(run), SeenAfter(run), op);
    assert (run + [op])[..|run|] == run;
  }

  lemma {:induction false} UnkeyedAreQueued(n: nat)
    ensures TableAfter(UnkeyedRun(n)) == UnkeyedTable(n)
  {
    if n > 0 {
      UnkeyedAreQueued(n - 1);
      EnqueueOne(UnkeyedRun(n - 1), n - 1, Unkeyed);
      OneMoreUnkeyed(n - 1);
    } else {
      assert UnkeyedTable(0).jobs == map[];
    }
  }

  lemma OneMoreUnkeyed(n: nat)
    ensures var db := UnkeyedTable(n);
            db.(jobs := db.jobs[n := Row(Unkeyed)], used := db.used + {n}) == UnkeyedTable(n + 1)
  {
    assert UnkeyedTable(n).jobs[n := Row(Unkeyed)] == UnkeyedTable(n + 1).jobs;
  }

  /** And one keyed job behind them. */
  function FullTable(n: nat): Table {
    Table(UnkeyedTable(n).jobs[n := Row(Keyed)], {}, UpTo(n + 1))
  }

  lemma KeyedIsQueued(n: nat)
    ensures TableAfter(UnkeyedRun(n) + [DoEnqueue(n, Keyed, 0.0, 0.0)]) == FullTable(n)
  {
    UnkeyedAreQueued(n);
    EnqueueOne(UnkeyedRun(n), n, Keyed);
  }

  function Asks(n: nat): Query {
    Query({"default"}, n, 7, 30.0, 0.0, {})
  }

  lemma InOrderCovers(n: nat)
    ensures SetOf(InOrder(n)) == UpTo(n)
    ensures SetOf(InOrder(n) + [n]) == UpTo(n + 1)
  {
    forall id: JobId | id < n ensures id in InOrder(n) {
      assert InOrder(n)[id] == id;
    }
    assert SetOf(InOrder(n) + [n]) == SetOf(InOrder(n)) + {n};
  }

  /** The rows of the full table, without the way it came about. */
  ghost predicate IsFull(db: Table, n: nat) {
    && (forall id: JobId :: id in db.jobs <==> id <= n)
    && (forall id: JobId :: id in db.jobs && id < n ==> db.jobs[id] == Row(Unkeyed))
    && n in db.jobs && db.jobs[n] == Row(Keyed)
  }

  lemma FullIsFull(n: nat)
    ensures IsFull(FullTable(n), n)
  {}

  lemma AllAreTop(db: Table, n: nat, ids: seq<JobId>, all: set<JobId>)
    requires IsFull(db, n) && |ids| == n == |all| && (forall i :: 0 <= i < n ==> ids[i] == i)
    requires forall id: JobId :: id in all <==> id < n
    ensures Top(db, all, n, ids)
  {
    forall i, j | 0 <= i < j < n ensures Before(db, ids[i], ids[j]) {}
    forall id | id in all ensures id in ids {
      assert ids[id] == id;
    }
  }

  lemma UnkeyedAre(db: Table, n: nat)
    requires IsFull(db, n)
    ensures UnkeyedFor(db, Asks(n)) == UpTo(n)
  {}

  lemma FirstPass(db: Table, n: nat)
    requires IsFull(db, n)
    ensures UnkeyedPass(db, Asks(n), InOrder(n), true, Lease(db, UpTo(n), 7, 30.0, 0.0))
  {
    InOrderCovers(n);
    UnkeyedAre(db, n);
    AllAreTop(db, n, InOrder(n), UpTo(n));
  }

  /** Only the keyed job is left. */
  predicate IsLeased(db: Table, n: nat) {
    && (forall id :: id in db.jobs && id != n ==> db.jobs[id].state.Running? && db.jobs[id].spec == Unkeyed)
    && n in db.jobs && db.jobs[n] == Row(Keyed)
  }

  lemma LeavesTheKeyed(db: Table, n: nat)
    requires IsFull(db, n)
    ensures IsLeased(Lease(db, UpTo(n), 7, 30.0, 0.0), n)
  {}

  lemma KeyedIs(db: Table, n: nat)
    requires IsLeased(db, n)
    ensures RunningKeyed(db, "key") == {} && KeyedFor(db, Asks(1)) == {n}
  {
    assert RunningKeyed(db, "key") == {};
  }

  lemma OneIsAdmitted(db: Table, n: JobId)
    requires n in db.jobs && db.jobs[n].spec == Keyed && RunningKeyed(db, "key") == {}
    ensures Admitted(db, db, [n]) == {n}
  {
    assert Ranked(db, [n], 0) == {n};
    assert Admits(db, db, [n], 0);
  }

  lemma SecondPass(db: Table, n: nat)
    requires IsLeased(db, n)
    ensures KeyedPass(db, Asks(1), [n], true, Lease(db, {n}, 7, 30.0, 0.0))
  {
    KeyedIs(db, n);
    OneIsAdmitted(db, n);
    assert SetOf([n]) == {n};
    assert AdmittedFrom(db, Asks(1), [n], [n]);
  }

  /** What a fetch finds there when nobody interferes. */
  function Found(db: Table, n: nat): Fetching {
    var leased := Lease(db, UpTo(n), 7, 30.0, 0.0);
    Fetching(InOrder(n), true, leased, db, true, leased, [n], true)
  }

  function Left(db: Table, n: nat): Table {
    Lease(Lease(db, UpTo(n), 7, 30.0, 0.0), {n}, 7, 30.0, 0.0)
  }

  lemma UndisturbedFetch(db: Table, n: nat)
    requires n >= 1 && IsFull(db, n)
    ensures Answer(db, Asks(n), 0.0, 0.0, {}, Found(db, n), Left(db, n))
  {
    FirstPass(db, n);
    LeavesTheKeyed(db, n);
    SecondPass(Lease(db, UpTo(n), 7, 30.0, 0.0), n);
    LaterStays(Lease(db, UpTo(n), 7, 30.0, 0.0));
    assert KeyedDue(db, {"default"}, 0.0, n);
  }

  lemma AskedAndFetched(n: nat, fetch: Supervisor.Event)
    requires n >= 1 && fetch.Fetched? && fetch.q.limit == n && fetch.f.unkeyedOk && fetch.f.keyedOk
    requires Answer(fetch.db, fetch.q, fetch.probe, fetch.now, fetch.skipped, fetch.f, fetch.after)
    requires SetOf(fetch.f.unkeyed + fetch.f.keyed) == fetch.encodable
    ensures Supervisor.After([AskFetch(n), fetch], n).held == fetch.encodable
  {
    var events := [AskFetch(n), fetch];
    assert events[..1] == [AskFetch(n)] && events[..1][..0] == [];
    assert Supervisor.After(events[..1], n) == Loop({}, Some(n));
    assert {} + SetOf(fetch.f.unkeyed + fetch.f.keyed) * fetch.encodable == fetch.encodable;
  }

  lemma FullFetch(db: Table, n: nat) returns (fetch: Supervisor.Event)
    requires n >= 1 && IsFull(db, n)
    ensures fetch.Fetched? && fetch.db == db
    ensures Supervisor.After([AskFetch(n), fetch], n).held == UpTo(n + 1)
  {
    UndisturbedFetch(db, n);
    fetch := Fetched(db, Asks(n), 0.0, 0.0, {}, Found(db, n), Left(db, n), UpTo(n + 1));
    InOrderCovers(n);
    AskedAndFetched(n, fetch);
  }

  /** After a reachable run of the queue, a fetch by an idle child hands it one
      job above its concurrency. */
  lemma BoundIsReached(n: nat) returns (run: seq<Op>, fetch: Supervisor.Event)
    requires n >= 1
    ensures fetch.Fetched? && fetch.db == TableAfter(run)
    ensures |Supervisor.After([AskFetch(n), fetch], n).held| == n + 1
  {
    run := UnkeyedRun(n) + [DoEnqueue(n, Keyed, 0.0, 0.0)];
    KeyedIsQueued(n);
    FullIsFull(n);
    fetch := FullFetch(FullTable(n), n);
  }
}
