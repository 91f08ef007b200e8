/** Why an operator must keep out of a flush: a job revived between the statement
    that discarded it and its release is fetched again by the same worker, taken
    out of the in-flight set by the release while its child runs it, and never
    renewed. No lease is long enough and no flush prompt enough. */
module Disturbed {
  import opened Prelude
  import opened JobTable
  import opened Queue
  import Lifecycle
  import Refusals
  import opened Exclusive
  import LeaseTiming

  ghost predicate Reached(c: Setup, w: LeaseTiming.State, db: Table) {
    exists events :: After(c, events).w == w && After(c, events).db == db
  }

  lemma Step(c: Setup, w: LeaseTiming.State, db: Table, e: Event, moved: LeaseTiming.State, next: Table)
    requires Reached(c, w, db) && Possible(c, w, db, e)
    requires Moved(c, w, e) == moved && Executed(db, Statement(c, w, e)) == next
    ensures Reached(c, moved, next)
  {
    var events :| After(c, events).w == w && After(c, events).db == db;
    var more := events + [e];
    assert more[..|more| - 1] == events;
    assert After(c, more).w == moved && After(c, more).db == next;
  }

  // ---- a table of one job --------------------------------------------------

  function One(job: Job): Table {
    Table(map[0 := job], {}, {0})
  }

  /** A row of the job this is about, as its constraints want it. */
  predicate Plainly(job: Job) {
    job.spec == Refusals.Plain(2) && job.uniqueKey.None? && job.Checks()
  }

  const Fresh := Inserted(Refusals.Plain(2), None, None, 0, 0.0, 0.0)

  lemma Enqueued()
    ensures Exec(EmptyTable, DoEnqueue(0, Refusals.Plain(2), 0.0, 0.0)) == One(Fresh)
  {
    assert Plainly(Fresh);
  }

  lemma Leasing(job: Job, worker: WorkerId, lease: real)
    requires Plainly(job) && job.DueBy(0.0) && job.attempt == 0
    ensures Enabled(One(job), DoLease({0}, worker, lease, 0.0)) && !Aborts(One(job), DoLease({0}, worker, lease, 0.0))
    ensures Exec(One(job), DoLease({0}, worker, lease, 0.0)) == One(job.Leased(worker, lease, 0.0))
  {
    assert Lease(One(job), {0}, worker, lease, 0.0) == One(job.Leased(worker, lease, 0.0));
    assert Plainly(job.Leased(worker, lease, 0.0));
  }

  lemma Discarding(job: Job, worker: WorkerId)
    requires Plainly(job) && job.HeldBy(worker)
    ensures Exec(One(job), DoDiscard(map[0 := "boom"], worker, 0.0)) == One(job.Buried("boom", 0.0))
  {
    assert Reported(One(job), map[0 := "boom"], worker) == {0};
    assert Discard(One(job), map[0 := "boom"], worker, 0.0) == One(job.Buried("boom", 0.0));
    assert Plainly(job.Buried("boom", 0.0));
  }

  lemma Reviving(job: Job)
    requires Plainly(job) && job.state.Discarded?
    ensures Exec(One(job), DoRevive(Some({0}), None, 0.0)) == One(job.Revived(0.0))
  {
    assert Revive(One(job), Some({0}), None, 0.0) == One(job.Revived(0.0));
    assert Plainly(job.Revived(0.0));
  }

  // ---- the run -------------------------------------------------------------

  lemma FetchesOne(t: LeaseTiming.Timing, w: LeaseTiming.State)
    requires w.now == 0.0 && w.transit == map[] && w.rows == map[]
    ensures LeaseTiming.Fetched(t, w, {0}) == w.(rows := map[0 := t.lease], transit := map[0 := 0.0])
  {
    assert LeaseTiming.At({0}, w.now + t.lease) == map[0 := t.lease] && LeaseTiming.At({0}, w.now) == map[0 := 0.0];
  }

  /** A fetch and a handover of the one job, which is not in flight. */
  lemma FetchedAndHanded(c: Setup, w: LeaseTiming.State, job: Job) returns (after: LeaseTiming.State)
    requires Reached(c, w, One(job)) && w.now == 0.0 && w.transit == map[] && w.rows == map[] && w.running == {}
    requires Plainly(job) && job.DueBy(0.0) && job.attempt == 0
    ensures after == w.(rows := map[0 := c.timing.lease], held := w.held + {0}, running := {0})
    ensures Reached(c, after, One(job.Leased(c.me, c.timing.lease, 0.0)))
  {
    var leased := One(job.Leased(c.me, c.timing.lease, 0.0));
    var fetched := w.(rows := map[0 := c.timing.lease], transit := map[0 := 0.0]);
    Leasing(job, c.me, c.timing.lease);
    FetchesOne(c.timing, w);
    Step(c, w, One(job), Fetching({0}), fetched, leased);
    after := w.(rows := map[0 := c.timing.lease], held := w.held + {0}, running := {0});
    Step(c, fetched, leased, Alone(LeaseTiming.HandOver), after, leased);
  }

  /** Its outcome is a failure that will not be retried; the flush has written it
      and not released the job when an operator revives it. */
  lemma DiscardedAndRevived(c: Setup, w: LeaseTiming.State, job: Job) returns (after: LeaseTiming.State)
    requires Reached(c, w, One(job)) && w.now == 0.0 && w.rows.Keys == {0} && w.running == {0}
    requires w.settled == map[] && w.releasing == map[] && Plainly(job) && job.HeldBy(c.me)
    ensures after == w.(rows := map[], running := {}, settled := map[0 := 0.0], releasing := map[0 := 0.0])
    ensures Reached(c, after, One(job.Buried("boom", 0.0).Revived(0.0)))
  {
    var op := DoDiscard(map[0 := "boom"], c.me, 0.0);
    after := w.(rows := map[], running := {}, settled := map[0 := 0.0], releasing := map[0 := 0.0]);
    Discarding(job, c.me);
    LeaseTiming.SettleOne(c.timing, w, 0);
    assert Lifecycle.Settled(op) == {0};
    Step(c, w, One(job), Settling(op, true), after, One(job.Buried("boom", 0.0)));
    Reviving(job.Buried("boom", 0.0));
    Step(c, after, One(job.Buried("boom", 0.0)), Theirs(DoRevive(Some({0}), None, 0.0)), after,
         One(job.Buried("boom", 0.0).Revived(0.0)));
  }

  /** What the child runs and no renewal will ever cover. */
  predicate Forgotten(w: LeaseTiming.State) {
    && w.running == {0} && w.held == {} && w.transit == map[] && w.releasing == map[]
    && w.renewer == LeaseTiming.Sleeping(w.now, 0) && w.stopped.None?
  }

  lemma Forgetting(c: Setup) returns (w: LeaseTiming.State, job: Job)
    requires c.Sensible()
    ensures Reached(c, w, One(job)) && Forgotten(w) && w.now == 0.0 && job.HeldBy(c.me)
    ensures Plainly(job) && job.attempt == 1 && job.leaseExpiresAt == Some(c.timing.lease) && job.scheduledAt == At(0.0)
  {
    assert After(c, []).w == LeaseTiming.Start && After(c, []).db == EmptyTable;
    Enqueued();
    Step(c, LeaseTiming.Start, EmptyTable, Theirs(DoEnqueue(0, Refusals.Plain(2), 0.0, 0.0)), LeaseTiming.Start,
         One(Fresh));
    w := FetchedAndHanded(c, LeaseTiming.Start, Fresh);
    job := Fresh.Leased(c.me, c.timing.lease, 0.0);
    w := DiscardedAndRevived(c, w, job);
    job := job.Buried("boom", 0.0).Revived(0.0);
    w := FetchedAndHanded(c, w, job);
    job := job.Leased(c.me, c.timing.lease, 0.0);
    var released := w.(held := {}, settled := map[], releasing := map[]);
    assert w.held - w.releasing.Keys == {};
    Step(c, w, One(job), Alone(LeaseTiming.Release), released, One(job));
    w := released;
  }

  lemma IdleTurn(c: Setup, w: LeaseTiming.State, db: Table) returns (after: LeaseTiming.State)
    requires c.Sensible() && Reached(c, w, db) && Forgotten(w)
    ensures Reached(c, after, db) && Forgotten(after) && after.now == w.now + c.timing.interval
  {
    var later := w.(now := w.now + c.timing.interval);
    Step(c, w, db, Alone(LeaseTiming.Tick(c.timing.interval)), later, db);
    after := later.(renewer := LeaseTiming.Sleeping(later.now, 0));
    Step(c, later, db, Alone(LeaseTiming.Wake), after, db);
  }

  lemma {:induction false} IdleTurns(c: Setup, w: LeaseTiming.State, db: Table, n: nat)
    returns (after: LeaseTiming.State)
    requires c.Sensible() && Reached(c, w, db) && Forgotten(w)
    ensures Reached(c, after, db) && Forgotten(after) && after.now == w.now + LeaseTiming.Intervals(c.timing, n)
    decreases n
  {
    if n == 0 {
      after := w;
    } else {
      var before := IdleTurns(c, w, db, n - 1);
      after := IdleTurn(c, before, db);
    }
  }

  /** So some run lets a reclaim take a job its child is running, and makes it due
      for anybody, whatever the timing and the retry settings are. */
  lemma RevivedOutOfAFlush(c: Setup) returns (w: LeaseTiming.State, db: Table, id: JobId)
    requires c.Sensible()
    ensures Reached(c, w, db) && id in w.running && id !in w.held
    ensures Possible(c, w, db, Theirs(DoReclaim({id}, w.now)))
    ensures var next := Exec(db, DoReclaim({id}, w.now)); id in next.jobs && next.jobs[id].DueBy(w.now)
  {
    var job: Job;
    w, job := Forgetting(c);
    var n, rest := LeaseTiming.WholeIntervals(c.timing, c.timing.lease);
    w := IdleTurns(c, w, One(job), n + 1);
    db, id := One(job), 0;
    Reclaiming(job, w.now);
  }

  lemma Reclaiming(job: Job, now: real)
    requires Plainly(job) && job.Expired(now) && job.attempt == 1
    ensures Exec(One(job), DoReclaim({0}, now)) == One(job.Released())
  {
    assert Reclaim(One(job), {0}, now) == One(job.Released());
    assert Plainly(job.Released());
  }
}
