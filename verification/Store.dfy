/** The Postgres backend as an object: tables that statements update in place.

    Each method carries out one statement as scans over rows and is proved to
    leave the table that the statement's specification gives and the history an
    observer would keep. The representation invariant is the queue's own, so
    every method also shows that its statement keeps it. */
module Backend {
  import opened Prelude
  import opened Graph
  import opened JobTable
  import opened Queue
  import opened QueueInvariant
  import opened Admission
  import opened Rows

  // ---- running statements in sequence --------------------------------------

  ghost function TableThrough(db: Table, ops: seq<Op>): Table {
    if ops == [] then db else Exec(TableThrough(db, ops[..|ops| - 1]), ops[|ops| - 1])
  }

  /** What other workers' statements may make of a table. */
  ghost predicate Later(db: Table, later: Table) {
    exists ops :: later == TableThrough(db, ops)
  }

  lemma Commits(db: Table, seen: History, op: Op)
    requires Inv(db, seen) && Enabled(db, op) && !Inserts(op) && !op.DoLease? && !op.DoRevive?
    ensures Exec(db, op) == Proposed(db, op)
    ensures Inv(Exec(db, op), Observe(seen, Exec(db, op)))
  {
    NeverAborts(db, seen, op);
    StepKeepsInv(db, seen, op);
  }

  // ---- one fetch -----------------------------------------------------------

  /** Who asks for how much, and what a statement sees besides the table: its
      clock and the rows that others have locked. */
  datatype Query = Query(queues: set<string>, limit: nat, worker: WorkerId, lease: real, now: real, skipped: set<JobId>)

  function UnkeyedFor(db: Table, q: Query): set<JobId> {
    UnkeyedRows(db, q.queues, q.now, q.skipped)
  }

  function KeyedFor(db: Table, q: Query): set<JobId> {
    KeyedRows(db, q.queues, q.now, q.skipped)
  }

  ghost predicate KeyedWork(db: Table, queues: set<string>, now: real) {
    exists id :: KeyedDue(db, queues, now, id)
  }

  /** The picked rows are leased together, unless one has no attempt left. */
  ghost predicate Leases(db: Table, q: Query, picked: seq<JobId>, ok: bool, after: Table) {
    && (ok <==> !Exhausted(db, SetOf(picked)))
    && after == if ok then Lease(db, SetOf(picked), q.worker, q.lease, q.now) else db
  }

  /** The unkeyed pass takes the top due rows that were not skipped. */
  ghost predicate UnkeyedPass(db: Table, q: Query, picked: seq<JobId>, ok: bool, after: Table) {
    Top(db, UnkeyedFor(db, q), q.limit, picked) && Leases(db, q, picked, ok, after)
  }

  ghost predicate AdmittedFrom(db: Table, q: Query, locked: seq<JobId>, picked: seq<JobId>) {
    && Top(db, KeyedFor(db, q), q.limit, locked)
    && Lockable(db, db, q.queues, q.limit, q.now, locked)
    && SetOf(picked) == Admitted(db, db, locked) && Distinct(picked)
  }

  /** The keyed pass takes what it admits among the top due rows with room. */
  ghost predicate KeyedPass(db: Table, q: Query, picked: seq<JobId>, ok: bool, after: Table) {
    && (exists locked :: AdmittedFrom(db, q, locked, picked))
    && |picked| <= q.limit && Leases(db, q, picked, ok, after)
  }

  /** What a fetch picked and the tables its statements found. */
  datatype Fetching = Fetching(
    unkeyed: seq<JobId>,
    unkeyedOk: bool,
    afterUnkeyed: Table,
    asked: Table,
    waiting: bool,
    between: Table,
    keyed: seq<JobId>,
    keyedOk: bool)

  /** Never zero, or a backlog of unkeyed jobs would starve the keyed ones. */
  function Spare(limit: nat, taken: nat): nat {
    if limit > taken + 1 then limit - taken else 1
  }

  /** The second query of a fetch that asked for `q` first. */
  function Second(q: Query, taken: nat, now: real, skipped: set<JobId>): Query {
    q.(limit := Spare(q.limit, taken), now := now, skipped := skipped)
  }

  /** What a fetch may find, pick and leave: the unkeyed pass on the table it
      starts from; whether keyed work waits, answered by that pass or asked on a
      later table when it picked nothing; and if so the keyed pass on a table
      later still. A refused statement ends it. */
  ghost predicate Answer(db: Table, q: Query, probe: real, now: real, skipped: set<JobId>, f: Fetching, after: Table) {
    && UnkeyedPass(db, q, f.unkeyed, f.unkeyedOk, f.afterUnkeyed)
    && (if f.unkeyed == [] then Later(f.afterUnkeyed, f.asked) else f.asked == db)
    && (f.waiting <==> f.unkeyedOk && KeyedWork(f.asked, q.queues, if f.unkeyed == [] then probe else q.now))
    && (f.waiting ==>
          && Later(if f.unkeyed == [] then f.asked else f.afterUnkeyed, f.between)
          && KeyedPass(f.between, Second(q, |f.unkeyed|, now, skipped), f.keyed, f.keyedOk, after))
    && (!f.waiting ==> f.keyed == [] && f.keyedOk && after == if f.unkeyed == [] then f.asked else f.afterUnkeyed)
  }

  /** A fetch leases at most one job above its limit, and does so exactly when
      keyed work with room is found behind a full unkeyed batch; below the limit
      it leaves no unkeyed due row behind. */
  lemma FetchBounded(db: Table, q: Query, probe: real, now: real, skipped: set<JobId>, f: Fetching, after: Table)
    requires Answer(db, q, probe, now, skipped, f, after)
    ensures |f.unkeyed + f.keyed| <= q.limit + 1
    ensures |f.unkeyed + f.keyed| == q.limit + 1 <==>
              && |UnkeyedFor(db, q)| >= q.limit && f.waiting
              && KeyedFor(f.between, Second(q, |f.unkeyed|, now, skipped)) != {}
    ensures |f.unkeyed| < q.limit ==> SetOf(f.unkeyed) == UnkeyedFor(db, q)
  {
    if |f.unkeyed| < q.limit {
      AllPicked(db, UnkeyedFor(db, q), q.limit, f.unkeyed);
    }
    if f.waiting {
      KeyedPassSize(f.between, Second(q, |f.unkeyed|, now, skipped), f.keyed, f.keyedOk, after);
    }
  }

  lemma KeyedPassSize(db: Table, q: Query, picked: seq<JobId>, ok: bool, after: Table)
    requires KeyedPass(db, q, picked, ok, after) && q.limit >= 1
    ensures picked != [] <==> KeyedFor(db, q) != {}
  {
    if KeyedFor(db, q) != {} {
      var id := KeyedWorkIsServed(db, q, picked, ok, after);
    } else {
      var locked :| AdmittedFrom(db, q, locked, picked);
      assert locked == [];
      NobodyInSet(picked);
    }
  }

  lemma NobodyInSet(picked: seq<JobId>)
    ensures SetOf(picked) == {} <==> picked == []
  {
    assert picked != [] ==> picked[0] in SetOf(picked);
  }

  lemma AllPicked(db: Table, candidates: set<JobId>, limit: nat, picked: seq<JobId>)
    requires Top(db, candidates, limit, picked) && |picked| < limit
    ensures SetOf(picked) == candidates
  {
    OrderedIsDistinct(db, picked);
    DistinctCount(picked);
    SubsetSize(SetOf(picked), candidates);
  }

  lemma OrderedIsDistinct(db: Table, picked: seq<JobId>)
    requires forall i :: 0 <= i < |picked| ==> picked[i] in db.jobs
    requires forall i, j :: 0 <= i < j < |picked| ==> Before(db, picked[i], picked[j])
    ensures Distinct(picked)
  {}

  /** And keyed work that the keyed pass finds with room is never starved. */
  lemma KeyedWorkIsServed(db: Table, q: Query, picked: seq<JobId>, ok: bool, after: Table) returns (id: JobId)
    requires KeyedPass(db, q, picked, ok, after) && q.limit >= 1 && KeyedFor(db, q) != {}
    ensures id in picked && id in KeyedFor(db, q)
  {
    var locked :| AdmittedFrom(db, q, locked, picked);
    assert |KeyedFor(db, q)| >= 1;
    SomeoneIsAdmitted(db, db, q.queues, q.limit, q.now, locked);
    id := locked[0];
    assert id in SetOf(picked);
  }

  class Store {
    var jobs: map<JobId, Job>
    var edges: set<Edge>
    var used: set<JobId>
    ghost var seen: History

    function Db(): Table
      reads this
    {
      Table(jobs, edges, used)
    }

    ghost predicate Valid()
      reads this
    {
      Inv(Db(), seen)
    }

    constructor ()
      ensures Db() == EmptyTable && seen == History({}, {}, {}) && Valid()
    {
      jobs, edges, used, seen := map[], {}, {}, History({}, {}, {});
      new;
      ReachableInv([]);
    }

    /** Every statement leaves the executed table, the extended history and the
        invariant. */
    ghost predicate Did(before: Table, saw: History, op: Op)
      reads this
    {
      Db() == Exec(before, op) && seen == Observe(saw, Db()) && Valid()
    }

    // ---- leasing -----------------------------------------------------------

    /** The update behind both passes. The bound on attempts is checked row by
        row, and one row that breaks it undoes them all. */
    method LeaseRows(picked: set<JobId>, worker: WorkerId, lease: real, now: real) returns (ok: bool)
      requires Valid()
      requires forall id :: id in picked ==> id in jobs && jobs[id].DueBy(now)
      modifies this
      ensures Did(old(Db()), old(seen), DoLease(picked, worker, lease, now))
      ensures ok <==> !Exhausted(old(Db()), picked)
      ensures Db() == if ok then Lease(old(Db()), picked, worker, lease, now) else old(Db())
    {
      LeaseCommits(Db(), seen, picked, worker, lease, now);
      var leased;
      leased, ok := LeasedRows(Db(), picked, worker, lease, now);
      if ok {
        jobs := leased;
      }
      seen := Observe(seen, Db());
    }

    /** The unkeyed pass, with the answer it carries about keyed work. */
    method FetchUnkeyed(q: Query) returns (picked: seq<JobId>, ok: bool, keyedWaiting: bool)
      requires Valid()
      modifies this
      ensures UnkeyedPass(old(Db()), q, picked, ok, Db())
      ensures Did(old(Db()), old(seen), DoLease(SetOf(picked), q.worker, q.lease, q.now))
      ensures keyedWaiting <==> KeyedWork(old(Db()), q.queues, q.now)
    {
      var db := Db();
      keyedWaiting := exists id :: id in db.jobs && KeyedDue(db, q.queues, q.now, id);
      picked := PickTop(db, UnkeyedFor(db, q), q.limit);
      ok := LeaseRows(SetOf(picked), q.worker, q.lease, q.now);
    }

    /** The probe for keyed work, for an unkeyed pass that leased nothing. */
    method KeyedWaiting(queues: set<string>, now: real) returns (waiting: bool)
      ensures waiting <==> KeyedWork(Db(), queues, now)
    {
      var db := Db();
      waiting := exists id :: id in db.jobs && KeyedDue(db, queues, now, id);
    }

    /** The keyed pass, as one statement on one snapshot. */
    method FetchKeyed(q: Query) returns (picked: seq<JobId>, ok: bool)
      requires Valid()
      modifies this
      ensures KeyedPass(old(Db()), q, picked, ok, Db())
      ensures Did(old(Db()), old(seen), DoLease(SetOf(picked), q.worker, q.lease, q.now))
    {
      var db := Db();
      var rows := PickTop(db, KeyedFor(db, q), q.limit);
      TopIsLockable(db, q.queues, q.limit, q.now, q.skipped, rows);
      picked := Admit(db, rows);
      ok := LeaseRows(SetOf(picked), q.worker, q.lease, q.now);
      assert AdmittedFrom(db, q, rows, picked);
    }

    // ---- other workers -----------------------------------------------------

    /** A point where other workers, callers and operators may run any
        statements at all. Callers can rely on nothing but this contract, so
        what is proved after such a point holds for every interleaving. */
    method OthersRun()
      requires Valid()
      modifies this
      ensures Valid() && Later(old(Db()), Db())
    {
      assert Db() == TableThrough(Db(), []);
    }

    /** Leases up to `limit` jobs, and one more when keyed work waits behind a
        full unkeyed batch. Whether any waits is answered by the unkeyed pass, or
        asked separately when that picked nothing. Others may run between any two
        statements, so each is judged by the table it finds. A statement that is
        refused fails the fetch; what an earlier one leased stays leased. */
    method Fetch(q: Query, probe: real, now: real, skipped: set<JobId>)
        returns (leased: Option<seq<JobId>>, ghost f: Fetching)
      requires Valid()
      modifies this
      ensures Valid() && Answer(old(Db()), q, probe, now, skipped, f, Db())
      ensures leased == if f.unkeyedOk && f.keyedOk then Some(f.unkeyed + f.keyed) else None
    {
      var rows, ok, waiting := FetchUnkeyed(q);
      f := Fetching(rows, ok, Db(), old(Db()), ok && waiting, Db(), [], true);
      if rows == [] {
        OthersRun();
        waiting := KeyedWaiting(q.queues, probe);
        f := f.(asked := Db(), waiting := ok && waiting);
      }
      leased := if ok then Some(rows) else None;
      if ok && waiting {
        var keyed, keyedOk;
        keyed, keyedOk, f := ThenKeyed(Second(q, |rows|, now, skipped), f);
        leased := if keyedOk then Some(rows + keyed) else None;
      }
      assert rows + [] == rows;
    }

    method ThenKeyed(q: Query, ghost before: Fetching) returns (keyed: seq<JobId>, ok: bool, ghost f: Fetching)
      requires Valid()
      modifies this
      ensures Valid() && f == before.(between := f.between, keyed := keyed, keyedOk := ok)
      ensures Later(old(Db()), f.between) && KeyedPass(f.between, q, keyed, ok, Db())
    {
      OthersRun();
      ghost var between := Db();
      keyed, ok := FetchKeyed(q);
      f := before.(between := between, keyed := keyed, keyedOk := ok);
    }

    // ---- settling ----------------------------------------------------------

    method CompleteMany(results: map<JobId, Option<Bytes>>, worker: WorkerId, now: real) returns (settled: nat)
      requires Valid()
      modifies this
      ensures Did(old(Db()), old(seen), DoComplete(results, worker, now))
      ensures settled == |Reported(old(Db()), results, worker)|
    {
      Commits(Db(), seen, DoComplete(results, worker, now));
      NoRowTwice(Db(), seen, results, worker);
      var done;
      jobs, done := CompletedRows(Db(), results, worker, now);
      settled := |done|;
      seen := Observe(seen, Db());
    }

    method DiscardMany(errors: map<JobId, string>, worker: WorkerId, now: real) returns (settled: nat)
      requires Valid()
      modifies this
      ensures Did(old(Db()), old(seen), DoDiscard(errors, worker, now))
      ensures settled == |Reported(old(Db()), errors, worker)|
    {
      Commits(Db(), seen, DoDiscard(errors, worker, now));
      var dead;
      jobs, dead := DiscardedRows(Db(), errors, worker, now);
      settled := |dead|;
      seen := Observe(seen, Db());
    }

    /** How many get another attempt, and how many are dead-lettered. */
    method RetryMany(setbacks: map<JobId, Setback>, worker: WorkerId, base: real, cap: real, now: real)
        returns (scheduled: nat, exhausted: nat)
      requires Valid()
      modifies this
      ensures Did(old(Db()), old(seen), DoRetry(setbacks, worker, base, cap, now))
      ensures scheduled + exhausted == |Reported(old(Db()), setbacks, worker)|
      ensures exhausted == |OutOfAttempts(old(Db()), Reported(old(Db()), setbacks, worker))|
    {
      Commits(Db(), seen, DoRetry(setbacks, worker, base, cap, now));
      var rows;
      rows, scheduled, exhausted := RetriedCounts(Db(), setbacks, worker, base, cap, now);
      jobs := rows;
      seen := Observe(seen, Db());
    }

    /** Recovers up to `limit` rows whose lease has run out. */
    method ReclaimExpired(limit: nat, now: real) returns (released: nat, exhausted: nat, ghost victims: set<JobId>)
      requires Valid()
      modifies this
      ensures Did(old(Db()), old(seen), DoReclaim(victims, now))
      ensures forall id :: id in victims ==> id in old(jobs) && old(jobs)[id].Expired(now)
      ensures |victims| < limit ==> forall id :: id in old(jobs) && old(jobs)[id].Expired(now) ==> id in victims
      ensures released + exhausted == |victims| <= limit
      ensures exhausted == |OutOfAttempts(old(Db()), victims)|
    {
      var rows;
      rows, released, exhausted, victims := ReclaimedUpTo(Db(), limit, now);
      Commits(Db(), seen, DoReclaim(victims, now));
      jobs := rows;
      seen := Observe(seen, Db());
    }

    /** How many leases the worker still held, and so were extended. */
    method RenewLeases(ids: set<JobId>, worker: WorkerId, lease: real, now: real) returns (renewed: nat)
      requires Valid()
      modifies this
      ensures Did(old(Db()), old(seen), DoRenew(ids, worker, lease, now))
      ensures renewed == |HeldAmong(old(Db()), ids, worker)|
    {
      Commits(Db(), seen, DoRenew(ids, worker, lease, now));
      var touched;
      jobs, touched := RenewedRows(Db(), ids, worker, lease, now);
      renewed := |touched|;
      seen := Observe(seen, Db());
    }

    /** How many leases the worker still held, and so were given up. */
    method AbandonLeases(ids: set<JobId>, worker: WorkerId, now: real) returns (abandoned: nat)
      requires Valid()
      modifies this
      ensures Did(old(Db()), old(seen), DoAbandon(ids, worker, now))
      ensures abandoned == |HeldAmong(old(Db()), ids, worker)|
    {
      Commits(Db(), seen, DoAbandon(ids, worker, now));
      var touched;
      jobs, touched := AbandonedRows(Db(), ids, worker, now);
      abandoned := |touched|;
      seen := Observe(seen, Db());
    }

    // ---- operating ---------------------------------------------------------

    /** How many had not begun, and so were cancelled. */
    method CancelWaiting(ids: set<JobId>, now: real) returns (cancelled: nat)
      requires Valid()
      modifies this
      ensures Did(old(Db()), old(seen), DoCancel(ids, now))
      ensures cancelled == |WaitingAmong(old(Db()), ids)|
    {
      Commits(Db(), seen, DoCancel(ids, now));
      var touched;
      jobs, touched := CancelledRows(Db(), ids, now);
      cancelled := |touched|;
      seen := Observe(seen, Db());
    }

    /** The ids revived, or nothing when the unique index refuses because one
        key would be live twice. */
    method RetryDiscarded(chosen: Option<set<JobId>>, queue: Option<string>, now: real)
        returns (revived: Option<set<JobId>>)
      requires Valid()
      modifies this
      ensures Did(old(Db()), old(seen), DoRevive(chosen, queue, now))
      ensures revived == if KeyClash(old(Db()), chosen, queue) then None else Some(ToReviveIn(old(Db()), chosen, queue))
      ensures revived.None? ==> Db() == old(Db())
    {
      ReviveCommits(Db(), seen, chosen, queue, now);
      var rows, touched, ok := RevivedIfUnique(Db(), chosen, queue, now);
      revived := None;
      if ok {
        jobs := rows;
        revived := Some(touched);
      }
      seen := Observe(seen, Db());
    }

    /** Deletes the oldest finished rows past their retention, sparing live
        workflows and rows that others have locked. */
    method Prune(states: set<JobState>, olderThan: real, queue: Option<string>, limit: nat, now: real,
                 skipped: set<JobId>) returns (pruned: nat, ghost victims: set<JobId>)
      requires Valid() && states <= {Completed, Discarded, Cancelled}
      modifies this
      ensures Oldest(old(Db()), PrunableRows(old(Db()), states, olderThan, queue, now, skipped), limit, victims)
      ensures Did(old(Db()), old(seen), DoPrune(victims, states, olderThan, queue, now))
      ensures jobs.Keys == old(jobs).Keys - victims && pruned == |victims|
    {
      var db := Db();
      var picked := PickOldest(db, PrunableRows(db, states, olderThan, queue, now, skipped), limit);
      victims := picked;
      Commits(db, seen, DoPrune(victims, states, olderThan, queue, now));
      var next := DeleteRows(db, picked);
      jobs, edges := next.jobs, next.edges;
      pruned := |picked|;
      seen := Observe(seen, Db());
    }

    method PurgeDiscarded(queue: Option<string>) returns (purged: nat)
      requires Valid()
      modifies this
      ensures Did(old(Db()), old(seen), DoPurge(queue))
      ensures forall id :: id in jobs ==> !(jobs[id].state.Discarded? && InQueue(jobs[id], queue))
      ensures purged == |old(jobs)| - |jobs|
    {
      var db := Db();
      Commits(db, seen, DoPurge(queue));
      var next := DeleteRows(db, Purgeable(db, queue));
      jobs, edges := next.jobs, next.edges;
      purged := |Purgeable(db, queue)|;
      FewerRows(db, Purgeable(db, queue));
      seen := Observe(seen, Db());
    }

    // ---- inserting ---------------------------------------------------------

    /** With a unique key, the id returned may belong to a job queued earlier. A
        job that is not insertable is refused, whether or not the key is live. */
    method EnqueueUniqueJob(next: JobId, spec: NewJob, key: Bytes, delay: real, now: real) returns (id: Option<JobId>)
      requires Valid() && next !in used
      modifies this
      ensures Did(old(Db()), old(seen), DoEnqueueUnique(next, spec, key, delay, now))
      ensures id.None? <==> !Insertable(spec)
      ensures id.None? ==> Db() == old(Db())
      ensures id.Some? ==> id.value in jobs && jobs[id.value].Live() && jobs[id.value].uniqueKey == Some(key)
      ensures id.Some? ==> (KeyIsLive(old(Db()), key) <==> id.value in old(jobs))
    {
      ghost var op := DoEnqueueUnique(next, spec, key, delay, now);
      AbortsExactlyWhen(Db(), seen, op);
      StepKeepsInv(Db(), seen, op);
      id := None;
      if !Insertable(spec) {
        // refused
      } else if KeyIsLive(Db(), key) {
        var known :| known in jobs && jobs[known].Live() && jobs[known].uniqueKey == Some(key);
        id := Some(known);
      } else {
        id := Some(next);
        jobs := jobs[next := Inserted(spec, None, Some(key), 0, delay, now)];
        used := used + {next};
      }
      seen := Observe(seen, Db());
    }

    /** A job that is not insertable is refused by the table. */
    method EnqueueJob(next: JobId, spec: NewJob, delay: real, now: real) returns (id: Option<JobId>)
      requires Valid() && next !in used
      modifies this
      ensures Did(old(Db()), old(seen), DoEnqueue(next, spec, delay, now))
      ensures if Insertable(spec) then id == Some(next) && Db() == Enqueue(old(Db()), next, spec, delay, now)
              else id.None? && Db() == old(Db())
    {
      ghost var op := DoEnqueue(next, spec, delay, now);
      AbortsExactlyWhen(Db(), seen, op);
      StepKeepsInv(Db(), seen, op);
      id := None;
      if Insertable(spec) {
        id := Some(next);
        jobs := jobs[next := Inserted(spec, None, None, 0, delay, now)];
        used := used + {next};
      }
      seen := Observe(seen, Db());
    }

    /** The whole graph in one transaction, with the counts the library sends;
        one node the table refuses refuses it all. */
    method InsertGraph(flow: WorkflowId, nodes: seq<Node>, pending: seq<nat>, links: set<Edge>, ids: seq<JobId>,
                       now: real)
        returns (ok: bool)
      requires Valid() && |ids| == |nodes| && FreshIds(Db(), ids)
      requires |pending| == |nodes| && forall i :: 0 <= i < |nodes| ==> pending[i] == InDegree(links, i)
      requires forall e :: e in links ==> e.0 < |nodes| && e.1 < |nodes|
      modifies this
      ensures Did(old(Db()), old(seen), DoInsertWorkflow(flow, nodes, links, ids, now))
      ensures ok <==> forall i :: 0 <= i < |nodes| ==> Insertable(nodes[i].spec)
      ensures Db() == if ok then InsertWorkflow(old(Db()), flow, nodes, links, ids, now) else old(Db())
    {
      var next := WorkflowRows(Db(), flow, nodes, pending, links, ids, now);
      GraphCommits(Db(), seen, DoInsertWorkflow(flow, nodes, links, ids, now));
      ok := forall i :: 0 <= i < |nodes| ==> Insertable(nodes[i].spec);
      if ok {
        jobs, edges, used := next.jobs, next.edges, next.used;
      }
      seen := Observe(seen, Db());
    }
  }

  // ---- what statements count -----------------------------------------------

  function PrunableRows(db: Table, states: set<JobState>, olderThan: real, queue: Option<string>, now: real,
                        skipped: set<JobId>): set<JobId>
  {
    set id | id in db.jobs && Prunable(db, id, states, olderThan, queue, now) && id !in skipped
  }

  lemma FewerRows(db: Table, victims: set<JobId>)
    requires victims <= db.jobs.Keys
    ensures |Delete(db, victims).jobs| == |db.jobs| - |victims|
  {
    assert Delete(db, victims).jobs.Keys == db.jobs.Keys - victims;
    assert |Delete(db, victims).jobs.Keys| == |Delete(db, victims).jobs| && |db.jobs.Keys| == |db.jobs|;
  }

  lemma NoRowTwice(db: Table, seen: History, results: map<JobId, Option<Bytes>>, worker: WorkerId)
    requires Inv(db, seen)
    ensures forall id :: id in Reported(db, results, worker) ==> Finishing(db, Reported(db, results, worker), id) == {}
  {
    forall id | id in Reported(db, results, worker) ensures Finishing(db, Reported(db, results, worker), id) == {} {
      DoneAndReleasedDisjoint(db, seen, Reported(db, results, worker), id);
    }
  }

  lemma LeaseCommits(db: Table, seen: History, picked: set<JobId>, worker: WorkerId, lease: real, now: real)
    requires Inv(db, seen) && Enabled(db, DoLease(picked, worker, lease, now))
    ensures var next := Exec(db, DoLease(picked, worker, lease, now));
            && next == (if Exhausted(db, picked) then db else Lease(db, picked, worker, lease, now))
            && Inv(next, Observe(seen, next))
  {
    AbortsExactlyWhen(db, seen, DoLease(picked, worker, lease, now));
    StepKeepsInv(db, seen, DoLease(picked, worker, lease, now));
  }

  lemma ReviveCommits(db: Table, seen: History, chosen: Option<set<JobId>>, queue: Option<string>, now: real)
    requires Inv(db, seen)
    ensures var next := Exec(db, DoRevive(chosen, queue, now));
            && next == (if KeyClash(db, chosen, queue) then db else Revive(db, chosen, queue, now))
            && Inv(next, Observe(seen, next))
  {
    AbortsExactlyWhen(db, seen, DoRevive(chosen, queue, now));
    StepKeepsInv(db, seen, DoRevive(chosen, queue, now));
  }

  lemma GraphCommits(db: Table, seen: History, op: Op)
    requires Inv(db, seen) && Enabled(db, op) && op.DoInsertWorkflow?
    ensures Exec(db, op) ==
              if forall i :: 0 <= i < |op.nodes| ==> Insertable(op.nodes[i].spec) then Proposed(db, op) else db
    ensures Inv(Exec(db, op), Observe(seen, Exec(db, op)))
  {
    AbortsExactlyWhen(db, seen, op);
    StepKeepsInv(db, seen, op);
  }
}
