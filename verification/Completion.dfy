/** Completing a batch in one statement is the same as completing its jobs one
    at a time at the same instant, in any order. */
module Completion {
  import opened Prelude
  import opened JobTable
  import opened Queue
  import opened QueueInvariant

  /** One-at-a-time completion, in the order given. */
  ghost function OneByOne(db: Table, order: seq<JobId>, results: map<JobId, Option<Bytes>>,
                          worker: WorkerId, now: real): Table
    requires forall i :: 0 <= i < |order| ==> order[i] in results
    decreases |order|
  {
    if order == [] then db
    else OneByOne(Complete(db, map[order[0] := results[order[0]]], worker, now), order[1..], results, worker, now)
  }

  /** Completing some jobs leaves every other row with its holder. */
  lemma HoldersUnaffected(db: Table, seen: History, results: map<JobId, Option<Bytes>>, done: set<JobId>,
                          worker: WorkerId, now: real, row: JobId)
    requires Inv(db, seen) && row in db.jobs && done <= results.Keys && row !in done
    requires forall p :: p in done ==> p in db.jobs && db.jobs[p].state.Running?
    ensures CompletedRow(db, results, done, now, row).HeldBy(worker) <==> db.jobs[row].HeldBy(worker)
  {}

  lemma ReportedFirst(db: Table, results: map<JobId, Option<Bytes>>, id: JobId, worker: WorkerId)
    requires id in results
    ensures Reported(db, map[id := results[id]], worker) == Reported(db, results, worker) * {id}
  {}

  /** Which rows a report reaches does not depend on the other reports. */
  lemma ReportedRest(db: Table, seen: History, results: map<JobId, Option<Bytes>>, id: JobId,
                     worker: WorkerId, now: real)
    requires Inv(db, seen) && id in results
    ensures var next := Complete(db, map[id := results[id]], worker, now);
            Reported(next, results - {id}, worker) == Reported(db, results, worker) - {id}
  {
    var one := map[id := results[id]];
    var first := Reported(db, one, worker);
    var next := Complete(db, one, worker, now);
    forall other | other in db.jobs && other != id
      ensures next.jobs[other].HeldBy(worker) <==> db.jobs[other].HeldBy(worker)
    {
      assert other !in first;
      HoldersUnaffected(db, seen, one, first, worker, now, other);
    }
  }

  /** Finishing parents split between the first job of a batch and the rest. */
  lemma FinishingSplits(db: Table, done: set<JobId>, id: JobId, row: JobId)
    ensures Finishing(db, done, row) == Finishing(db, done * {id}, row) + Finishing(db, done - {id}, row)
    ensures |Finishing(db, done, row)| == |Finishing(db, done * {id}, row)| + |Finishing(db, done - {id}, row)|
  {
    assert Finishing(db, done, row) == Finishing(db, done * {id}, row) + Finishing(db, done - {id}, row);
    assert Finishing(db, done * {id}, row) !! Finishing(db, done - {id}, row);
  }

  /** Releasing a row for some parents and then for others releases it for all. */
  lemma UnblockedTwice(job: Job, first: nat, second: nat, now: real)
    requires job.pendingDeps >= first + second && first > 0 && second > 0
    ensures job.Unblocked(first, now).Unblocked(second, now) == job.Unblocked(first + second, now)
  {}

  lemma WaitingRowSplits(db: Table, results: map<JobId, Option<Bytes>>, id: JobId,
                         all: set<JobId>, now: real, one: Table, row: JobId)
    requires id in results && row in db.jobs && all <= results.Keys && row !in all
    requires db.jobs[row].pendingDeps >= |Finishing(db, all, row)|
    requires one.edges == db.edges && row in one.jobs
    requires one.jobs[row] == CompletedRow(db, map[id := results[id]], all * {id}, now, row)
    ensures CompletedRow(one, results - {id}, all - {id}, now, row) == CompletedRow(db, results, all, now, row)
  {
    FinishingSplits(db, all, id, row);
    var early, late := Finishing(db, all * {id}, row), Finishing(db, all - {id}, row);
    assert Finishing(one, all - {id}, row) == late;
    if early != {} && late != {} {
      UnblockedTwice(db.jobs[row], |early|, |late|, now);
    }
  }

  lemma DoneRowSplits(db: Table, results: map<JobId, Option<Bytes>>, id: JobId,
                      all: set<JobId>, now: real, one: Table, row: JobId)
    requires id in results && row in db.jobs && all <= results.Keys && row in all
    requires Finishing(db, all, row) == {}
    requires one.edges == db.edges && row in one.jobs
    requires one.jobs[row] == CompletedRow(db, map[id := results[id]], all * {id}, now, row)
    ensures CompletedRow(one, results - {id}, all - {id}, now, row) == CompletedRow(db, results, all, now, row)
  {
    assert Finishing(one, all - {id}, row) <= Finishing(db, all, row);
    assert Finishing(db, all * {id}, row) <= Finishing(db, all, row);
  }

  lemma RowSplits(db: Table, seen: History, results: map<JobId, Option<Bytes>>, id: JobId,
                  all: set<JobId>, now: real, one: Table, row: JobId)
    requires Inv(db, seen) && id in results && row in db.jobs && all <= results.Keys
    requires forall p :: p in all ==> p in db.jobs && db.jobs[p].state.Running?
    requires one.edges == db.edges && row in one.jobs
    requires one.jobs[row] == CompletedRow(db, map[id := results[id]], all * {id}, now, row)
    ensures CompletedRow(one, results - {id}, all - {id}, now, row) == CompletedRow(db, results, all, now, row)
  {
    if row in all {
      DoneAndReleasedDisjoint(db, seen, all, row);
      DoneRowSplits(db, results, id, all, now, one, row);
    } else {
      FinishingAreUnmet(db, seen, all, row);
      WaitingRowSplits(db, results, id, all, now, one, row);
    }
  }

  lemma BatchSplitsAt(db: Table, seen: History, results: map<JobId, Option<Bytes>>, id: JobId,
                      worker: WorkerId, now: real, row: JobId)
    requires Inv(db, seen) && id in results && row in db.jobs
    ensures var one := Complete(db, map[id := results[id]], worker, now);
            && row in Complete(one, results - {id}, worker, now).jobs
            && Complete(one, results - {id}, worker, now).jobs[row] == Complete(db, results, worker, now).jobs[row]
  {
    var one := Complete(db, map[id := results[id]], worker, now);
    ReportedFirst(db, results, id, worker);
    ReportedRest(db, seen, results, id, worker, now);
    RowSplits(db, seen, results, id, Reported(db, results, worker), now, one, row);
  }

  /** Taking any one job out of a batch and completing it first changes
      nothing about the outcome. */
  lemma BatchSplits(db: Table, seen: History, results: map<JobId, Option<Bytes>>, id: JobId,
                    worker: WorkerId, now: real)
    requires Inv(db, seen) && id in results
    ensures var one := Complete(db, map[id := results[id]], worker, now);
            Complete(one, results - {id}, worker, now) == Complete(db, results, worker, now)
  {
    var one := Complete(db, map[id := results[id]], worker, now);
    var two := Complete(one, results - {id}, worker, now);
    var all := Complete(db, results, worker, now);
    forall row | row in all.jobs ensures row in two.jobs && two.jobs[row] == all.jobs[row] {
      BatchSplitsAt(db, seen, results, id, worker, now, row);
    }
    SameTable(two, all);
  }

  lemma SameTable(a: Table, b: Table)
    requires a.jobs.Keys == b.jobs.Keys && a.edges == b.edges && a.used == b.used
    requires forall id :: id in b.jobs ==> a.jobs[id] == b.jobs[id]
    ensures a == b
  {
    assert a.jobs == b.jobs;
  }

  lemma {:induction false} BatchIsOneByOne(db: Table, seen: History, order: seq<JobId>,
                                           results: map<JobId, Option<Bytes>>, worker: WorkerId, now: real)
    requires Inv(db, seen)
    requires forall i, j :: 0 <= i < j < |order| ==> order[i] != order[j]
    requires forall id :: id in results <==> id in order
    ensures OneByOne(db, order, results, worker, now) == Complete(db, results, worker, now)
    decreases |order|
  {
    if order == [] {
      assert results == map[];
      assert Complete(db, results, worker, now).jobs == db.jobs;
    } else {
      var id := order[0];
      var single := map[id := results[id]];
      var one := Complete(db, single, worker, now);
      CompleteKeepsInv(db, seen, single, worker, now);
      BatchSplits(db, seen, results, id, worker, now);
      BatchIsOneByOne(one, Observe(seen, one), order[1..], results - {id}, worker, now);
      OnlyNamedResults(one, order[1..], results, results - {id}, worker, now);
    }
  }

  lemma {:induction false} OnlyNamedResults(db: Table, order: seq<JobId>, results: map<JobId, Option<Bytes>>,
                                            fewer: map<JobId, Option<Bytes>>, worker: WorkerId, now: real)
    requires forall i :: 0 <= i < |order| ==>
               order[i] in results && order[i] in fewer && results[order[i]] == fewer[order[i]]
    ensures OneByOne(db, order, results, worker, now) == OneByOne(db, order, fewer, worker, now)
    decreases |order|
  {
    if order != [] {
      OnlyNamedResults(Complete(db, map[order[0] := results[order[0]]], worker, now), order[1..], results, fewer,
                       worker, now);
    }
  }

  lemma BatchIsSettled(db: Table, seen: History, order: seq<JobId>, results: map<JobId, Option<Bytes>>,
                       worker: WorkerId, now: real)
    requires Inv(db, seen)
    requires forall i, j :: 0 <= i < j < |order| ==> order[i] != order[j]
    requires forall id :: id in results <==> id in order
    ensures Exec(db, DoComplete(results, worker, now)) == OneByOne(db, order, results, worker, now)
    ensures forall id :: id in Reported(db, results, worker) ==>
              Finishing(db, Reported(db, results, worker), id) == {}
  {
    NeverAborts(db, seen, DoComplete(results, worker, now));
    BatchIsOneByOne(db, seen, order, results, worker, now);
    forall id | id in Reported(db, results, worker)
      ensures Finishing(db, Reported(db, results, worker), id) == {}
    {
      DoneAndReleasedDisjoint(db, seen, Reported(db, results, worker), id);
    }
  }

  /** In every run, whatever order a batch of distinct jobs is settled in. */
  lemma BatchRefinesSingles(run: seq<Op>, order: seq<JobId>, results: map<JobId, Option<Bytes>>,
                            worker: WorkerId, now: real)
    requires forall i, j :: 0 <= i < j < |order| ==> order[i] != order[j]
    requires forall id :: id in results <==> id in order
    ensures Exec(TableAfter(run), DoComplete(results, worker, now))
         == OneByOne(TableAfter(run), order, results, worker, now)
    ensures forall id :: id in Reported(TableAfter(run), results, worker) ==>
              Finishing(TableAfter(run), Reported(TableAfter(run), results, worker), id) == {}
  {
    ReachableInv(run);
    BatchIsSettled(TableAfter(run), SeenAfter(run), order, results, worker, now);
  }
}
