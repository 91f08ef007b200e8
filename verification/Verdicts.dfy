/** What becomes of a job by the verdict its child reported, whichever of the
    supervisor's statements that verdict is settled by. */
module Verdicts {
  import opened Prelude
  import opened JobTable
  import opened Queue
  import opened QueueInvariant
  import opened Lifecycle
  import opened Supervisor
  import Columns

  /** A success completes the job with its result, an empty one standing for none.
      A failure is written down; it makes the job wait again if it asks for another
      attempt and one is left, and ends it otherwise. */
  predicate SettledAs(before: Job, after: Job, verdict: Verdict, now: real) {
    match verdict
    case Succeeded(result) =>
      && after.state.Completed? && after.finalizedAt == Some(now) && after.errors == before.errors
      && after.result == if result == [] then None else Some(result)
    case Failed(error, retry) =>
      && after.errors == before.errors + [Failure(before.attempt, now, error)] && after.result == before.result
      && if retry && before.attempt < before.spec.maxAttempts then after.state.Available?
         else after.state.Discarded? && after.finalizedAt == Some(now)
  }

  ghost predicate Settles(db: Table, op: Op, r: Report, now: real) {
    && r.id in db.jobs && r.id in Exec(db, op).jobs
    && SettledAs(db.jobs[r.id], Exec(db, op).jobs[r.id], r.verdict, now)
  }

  /** No other report is about the same job. */
  ghost predicate Alone(reports: seq<Report>, r: Report) {
    r in reports && forall q :: q in reports && q.id == r.id ==> q == r
  }

  /** Pairing keeps what is said of an id if nothing else is said of it. */
  lemma {:induction false} ZipKeeps<V>(ids: seq<JobId>, values: seq<V>, i: nat)
    requires |ids| == |values| && i < |ids| && forall k :: 0 <= k < |ids| && ids[k] == ids[i] ==> values[k] == values[i]
    ensures ids[i] in Zip(ids, values) && Zip(ids, values)[ids[i]] == values[i]
    decreases |ids|
  {
    var n := |ids| - 1;
    if ids[n] != ids[i] {
      ZipKeeps(ids[..n], values[..n], i);
    }
  }

  /** Where a report stands among those of its kind. */
  lemma FiledAlone(reports: seq<Report>, r: Report) returns (i: nat)
    requires Alone(reports, r)
    ensures var rs := Filed(reports, BucketOf(r.verdict));
            i < |rs| && rs[i] == r && forall k :: 0 <= k < |rs| && rs[k].id == r.id ==> rs[k] == r
  {
    var rs := Filed(reports, BucketOf(r.verdict));
    FiledMembers(reports, BucketOf(r.verdict));
    i :| 0 <= i < |rs| && rs[i] == r;
    forall k | 0 <= k < |rs| && rs[k].id == r.id ensures rs[k] == r {
      assert rs[k] in rs;
    }
  }

  lemma NamedOnce(reports: seq<Report>, r: Report, b: Bucket)
    requires Alone(reports, r) && b != BucketOf(r.verdict)
    ensures r.id !in Ids(Filed(reports, b))
  {
    FiledMembers(reports, b);
    forall i | 0 <= i < |Filed(reports, b)| ensures Filed(reports, b)[i].id != r.id {
      assert Filed(reports, b)[i] in Filed(reports, b);
    }
  }

  lemma SuccessSettles(db: Table, seen: History, reports: seq<Report>, w: Settler, r: Report)
    requires Inv(db, seen) && Alone(reports, r) && Holds(db, w.worker, r.id) && r.verdict.Succeeded?
    ensures Settles(db, StatementFor(BucketOf(r.verdict), reports, w), r, w.clock(BucketOf(r.verdict)))
  {
    var b := BucketOf(r.verdict);
    var rs := Filed(reports, b);
    var i := FiledAlone(reports, r);
    ZipKeeps(Ids(rs), seq(|rs|, k requires 0 <= k < |rs| => ResultOf(rs[k])), i);
    NeverAborts(db, seen, StatementFor(b, reports, w));
  }

  lemma SetbackSettles(db: Table, seen: History, reports: seq<Report>, w: Settler, r: Report)
    requires Inv(db, seen) && Alone(reports, r) && Holds(db, w.worker, r.id) && r.verdict.Failed? && r.verdict.retry
    ensures Settles(db, StatementFor(BucketOf(r.verdict), reports, w), r, w.clock(BucketOf(r.verdict)))
  {
    var b := BucketOf(r.verdict);
    var rs := Filed(reports, b);
    var i := FiledAlone(reports, r);
    ZipKeeps(Ids(rs), seq(|rs|, k requires 0 <= k < |rs| => SetbackOf(rs[k], w.draws)), i);
    NeverAborts(db, seen, StatementFor(b, reports, w));
  }

  lemma FailureSettles(db: Table, seen: History, reports: seq<Report>, w: Settler, r: Report)
    requires Inv(db, seen) && Alone(reports, r) && Holds(db, w.worker, r.id) && r.verdict.Failed? && !r.verdict.retry
    ensures Settles(db, StatementFor(BucketOf(r.verdict), reports, w), r, w.clock(BucketOf(r.verdict)))
  {
    var b := BucketOf(r.verdict);
    var rs := Filed(reports, b);
    var i := FiledAlone(reports, r);
    ZipKeeps(Ids(rs), seq(|rs|, k requires 0 <= k < |rs| => ErrorOf(rs[k])), i);
    NeverAborts(db, seen, StatementFor(b, reports, w));
  }

  /** Of the four statements of a flush, one settles the job as its verdict says and
      the others leave it as it is. */
  lemma EachVerdictSettles(db: Table, seen: History, reports: seq<Report>, w: Settler, r: Report) returns (b: Bucket)
    requires Inv(db, seen) && Alone(reports, r) && Holds(db, w.worker, r.id)
    ensures Settles(db, StatementFor(b, reports, w), r, w.clock(b))
    ensures forall c :: c != b ==> Columns.Kept(db, Exec(db, StatementFor(c, reports, w)), r.id)
  {
    b := BucketOf(r.verdict);
    if r.verdict.Succeeded? {
      SuccessSettles(db, seen, reports, w, r);
    } else if r.verdict.retry {
      SetbackSettles(db, seen, reports, w, r);
    } else {
      FailureSettles(db, seen, reports, w, r);
    }
    forall c | c != b ensures Columns.Kept(db, Exec(db, StatementFor(c, reports, w)), r.id) {
      NamedOnce(reports, r, c);
      SettlingEnds(db, seen, StatementFor(c, reports, w), r.id);
    }
  }
}
