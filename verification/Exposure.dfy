/** How tight the timing is, on the table: settings that are not safe let somebody
    reclaim a job from under the child that runs it, in a joint run in which no
    operator interferes. The runs are those of the timed machine, with each of the
    worker's statements executed on two jobs queued at the start. */
module Exposure {
  import opened Prelude
  import opened JobTable
  import opened Queue
  import opened QueueInvariant
  import opened Lifecycle
  import opened Exclusive
  import Backoff
  import LeaseTiming
  import Refusals

  /** What is settled may come back after the shortest retry delay, and not before. */
  predicate Shortest(c: Setup) {
    c.base >= 0.0 && c.cap >= 0.0 && c.timing.comeback == Backoff.Capped(c.cap, c.base) / 2.0
  }

  const Queued := Refusals.Plain(3)

  /** The row of a job the worker may fetch, settle once and fetch again. */
  predicate Ready(c: Setup, w: LeaseTiming.State, db: Table, id: JobId) {
    && id in db.jobs && db.jobs[id].spec == Queued
    && (id in w.running || id in w.transit ==> id in w.rows) && !(id in w.running && id in w.transit)
    && db.jobs[id].attempt == (if id in w.rows then 1 else 0) + (if id in w.settled then 1 else 0)
    && (id !in w.rows ==>
          && db.jobs[id].state.Available? && db.jobs[id].scheduledAt.At?
          && db.jobs[id].scheduledAt.time <= if id in w.settled then w.settled[id] + c.timing.comeback else 0.0)
  }

  ghost predicate BothReady(c: Setup, w: LeaseTiming.State, db: Table) {
    w.now >= 0.0 && Ready(c, w, db, 0) && Ready(c, w, db, 1)
  }

  ghost predicate ReadyRun(c: Setup, events: seq<Event>, w: LeaseTiming.State) {
    Undisturbed(c, events) && After(c, events).w == w && BothReady(c, After(c, events).w, After(c, events).db)
  }

  ghost predicate JointRun(c: Setup, events: seq<Event>, w: LeaseTiming.State) {
    Undisturbed(c, events) && After(c, events).w == w
  }

  ghost predicate IsReady(c: Setup, w: LeaseTiming.State) {
    exists events :: ReadyRun(c, events, w)
  }

  ghost predicate IsJoint(c: Setup, w: LeaseTiming.State) {
    exists events :: JointRun(c, events, w)
  }

  ghost function ReadyStates(c: Setup): iset<LeaseTiming.State> {
    iset w | IsReady(c, w)
  }

  ghost function JointStates(c: Setup): iset<LeaseTiming.State> {
    iset w | IsJoint(c, w)
  }

  // ---- one more event ------------------------------------------------------

  lemma OneMore(c: Setup, events: seq<Event>, e: Event)
    requires Undisturbed(c, events) && !Disturbs(After(c, events), e)
    ensures Undisturbed(c, events + [e]) && After(c, events + [e]) == Next(c, After(c, events), e)
  {
    var more := events + [e];
    assert more[..|events|] == events;
    forall i | 0 <= i < |more| ensures UndisturbedAt(c, more, i) {
      if i < |events| {
        assert UndisturbedAt(c, events, i);
        assert more[..i] == events[..i];
      }
    }
  }

  /** The joint event of a step that asks nothing of the table. */
  function Own(e: LeaseTiming.Event): Event {
    if e.Extend? then Extending else Alone(e)
  }

  lemma OwnStep(c: Setup, j: Joint, e: LeaseTiming.Event)
    requires LeaseTiming.Free(e) || e.Release?
    ensures Next(c, j, Own(e)).w == LeaseTiming.Next(c.timing, j.w, e)
    ensures !Disturbs(j, Own(e))
  {}

  lemma OwnStepReady(c: Setup, j: Joint, e: LeaseTiming.Event)
    requires LeaseTiming.Free(e) && BothReady(c, j.w, j.db)
    ensures BothReady(c, Next(c, j, Own(e)).w, Next(c, j, Own(e)).db)
  {
    if e.Extend? {
      ExtendReady(c, j, 0);
      ExtendReady(c, j, 1);
    } else {
      AloneReady(c, j, e, 0);
      AloneReady(c, j, e, 1);
    }
  }

  lemma ExtendReady(c: Setup, j: Joint, id: JobId)
    requires Ready(c, j.w, j.db, id)
    ensures Ready(c, Next(c, j, Extending).w, Next(c, j, Extending).db, id)
  {}

  lemma AloneReady(c: Setup, j: Joint, e: LeaseTiming.Event, id: JobId)
    requires LeaseTiming.Free(e) && !e.Extend? && Ready(c, j.w, j.db, id)
    ensures Ready(c, Next(c, j, Alone(e)).w, Next(c, j, Alone(e)).db, id)
  {}

  /** An event that leads from ready to ready extends the run. */
  lemma StaysReady(c: Setup, events: seq<Event>, e: Event, after: LeaseTiming.State)
    requires Undisturbed(c, events) && !Disturbs(After(c, events), e)
    requires Next(c, After(c, events), e).w == after && BothReady(c, after, Next(c, After(c, events), e).db)
    ensures IsReady(c, after)
  {
    OneMore(c, events, e);
    assert ReadyRun(c, events + [e], after);
  }

  lemma FreeStays(c: Setup, w: LeaseTiming.State, e: LeaseTiming.Event)
    requires IsReady(c, w) && LeaseTiming.Free(e)
    ensures IsReady(c, LeaseTiming.Next(c.timing, w, e))
  {
    var events :| ReadyRun(c, events, w);
    OwnStep(c, After(c, events), e);
    OwnStepReady(c, After(c, events), e);
    StaysReady(c, events, Own(e), LeaseTiming.Next(c.timing, w, e));
  }

  lemma FreeStaysJoint(c: Setup, w: LeaseTiming.State, e: LeaseTiming.Event)
    requires IsJoint(c, w) && (LeaseTiming.Free(e) || e.Release?)
    ensures IsJoint(c, LeaseTiming.Next(c.timing, w, e))
  {
    var events :| JointRun(c, events, w);
    OwnStep(c, After(c, events), e);
    OneMore(c, events, Own(e));
    assert JointRun(c, events + [Own(e)], LeaseTiming.Next(c.timing, w, e));
  }

  lemma ReadyIsJoint(c: Setup, w: LeaseTiming.State)
    requires IsReady(c, w)
    ensures IsJoint(c, w)
  {
    var events :| ReadyRun(c, events, w);
    assert JointRun(c, events, w);
  }

  // ---- fetching ------------------------------------------------------------

  lemma FetchPossible(c: Setup, j: Joint, id: JobId)
    requires Inv(j.db, j.seen) && Ready(c, j.w, j.db, id) && j.w.now >= 0.0 && LeaseTiming.Fetchable(c.timing, j.w, id)
    ensures Possible(c, j.w, j.db, Fetching({id}))
    ensures Executed(j.db, Statement(c, j.w, Fetching({id}))) == Lease(j.db, {id}, c.me, c.timing.lease, j.w.now)
  {
    LeaseAborts(j.db, j.seen, {id}, c.me, c.timing.lease, j.w.now);
  }

  lemma LeaseReady(c: Setup, w: LeaseTiming.State, db: Table, id: JobId, other: JobId)
    requires Ready(c, w, db, id) && Ready(c, w, db, other) && LeaseTiming.Fetchable(c.timing, w, id)
    ensures Ready(c, LeaseTiming.Fetched(c.timing, w, {id}), Lease(db, {id}, c.me, c.timing.lease, w.now), other)
  {}

  lemma FetchReady(c: Setup, j: Joint, id: JobId, other: JobId)
    requires Inv(j.db, j.seen) && Ready(c, j.w, j.db, id) && Ready(c, j.w, j.db, other) && j.w.now >= 0.0
    requires LeaseTiming.Fetchable(c.timing, j.w, id)
    ensures Ready(c, Next(c, j, Fetching({id})).w, Next(c, j, Fetching({id})).db, other)
    ensures Next(c, j, Fetching({id})).w == LeaseTiming.Fetched(c.timing, j.w, {id})
  {
    FetchPossible(c, j, id);
    LeaseReady(c, j.w, j.db, id, other);
  }

  lemma FetchStep(c: Setup, j: Joint, id: JobId)
    requires Inv(j.db, j.seen) && BothReady(c, j.w, j.db) && id < 2 && LeaseTiming.Fetchable(c.timing, j.w, id)
    ensures Next(c, j, Fetching({id})).w == LeaseTiming.Fetched(c.timing, j.w, {id})
    ensures BothReady(c, Next(c, j, Fetching({id})).w, Next(c, j, Fetching({id})).db)
  {
    assert Ready(c, j.w, j.db, id);
    FetchReady(c, j, id, 0);
    FetchReady(c, j, id, 1);
  }

  lemma FetchStays(c: Setup, w: LeaseTiming.State, id: JobId)
    requires IsReady(c, w) && id < 2 && LeaseTiming.Fetchable(c.timing, w, id)
    ensures IsReady(c, LeaseTiming.Next(c.timing, w, LeaseTiming.Fetch({id})))
  {
    var events :| ReadyRun(c, events, w);
    FetchRun(c, events, w, id);
    FetchOfOne(c.timing, w, id);
  }

  lemma FetchOfOne(t: LeaseTiming.Timing, w: LeaseTiming.State, id: JobId)
    requires LeaseTiming.Fetchable(t, w, id)
    ensures LeaseTiming.Next(t, w, LeaseTiming.Fetch({id})) == LeaseTiming.Fetched(t, w, {id})
  {}

  lemma FetchRun(c: Setup, events: seq<Event>, w: LeaseTiming.State, id: JobId)
    requires ReadyRun(c, events, w) && id < 2 && LeaseTiming.Fetchable(c.timing, w, id)
    ensures IsReady(c, LeaseTiming.Fetched(c.timing, w, {id}))
  {
    AlwaysInStep(c, events);
    FetchStep(c, After(c, events), id);
    StaysReady(c, events, Fetching({id}), LeaseTiming.Fetched(c.timing, w, {id}));
  }

  // ---- settling ------------------------------------------------------------

  function RetryOf(c: Setup, id: JobId, now: real): Op {
    DoRetry(map[id := Setback("late", 0.0)], c.me, c.base, c.cap, now)
  }

  lemma ShortestDelay(c: Setup)
    requires Shortest(c)
    ensures Backoff.Delay(c.base, c.cap, 1, 0.0) == c.timing.comeback
  {
    assert Backoff.Pow2(0) == 1.0;
  }

  lemma RetryReady(c: Setup, w: LeaseTiming.State, db: Table, id: JobId, other: JobId)
    requires Shortest(c) && Ready(c, w, db, id) && Ready(c, w, db, other)
    requires id in w.running && id !in w.settled && Holds(db, c.me, id)
    ensures var op := RetryOf(c, id, w.now);
            Ready(c, LeaseTiming.Next(c.timing, w, LeaseTiming.Settle({id}, true)),
                  Retry(db, op.setbacks, c.me, c.base, c.cap, w.now), other)
  {
    ShortestDelay(c);
  }

  lemma SettlePossible(c: Setup, w: LeaseTiming.State, db: Table, id: JobId)
    requires id in w.running
    ensures var e := Settling(RetryOf(c, id, w.now), true);
            && Possible(c, w, db, e) && Statement(c, w, e) == Some(RetryOf(c, id, w.now))
            && Moved(c, w, e) == LeaseTiming.Next(c.timing, w, LeaseTiming.Settle({id}, true))
  {
    assert Settled(RetryOf(c, id, w.now)) == {id};
  }

  lemma RetryExecuted(c: Setup, j: Joint, id: JobId)
    requires Inv(j.db, j.seen)
    ensures var op := RetryOf(c, id, j.w.now);
            Executed(j.db, Some(op)) == Retry(j.db, op.setbacks, c.me, c.base, c.cap, j.w.now)
  {
    NeverAborts(j.db, j.seen, RetryOf(c, id, j.w.now));
  }

  lemma RetriedReady(c: Setup, j: Joint, id: JobId, other: JobId)
    requires Shortest(c) && Inv(j.db, j.seen) && Ready(c, j.w, j.db, id) && Ready(c, j.w, j.db, other)
    requires id in j.w.running && id !in j.w.settled && Holds(j.db, c.me, id)
    ensures var next := Next(c, j, Settling(RetryOf(c, id, j.w.now), true));
            && Ready(c, next.w, next.db, other)
            && next.w == LeaseTiming.Next(c.timing, j.w, LeaseTiming.Settle({id}, true))
  {
    SettlePossible(c, j.w, j.db, id);
    RetryExecuted(c, j, id);
    RetryReady(c, j.w, j.db, id, other);
  }

  lemma SettleStep(c: Setup, j: Joint, id: JobId)
    requires Shortest(c) && Inv(j.db, j.seen) && BothReady(c, j.w, j.db)
    requires id < 2 && id in j.w.running && id !in j.w.settled && Holds(j.db, c.me, id)
    ensures var next := Next(c, j, Settling(RetryOf(c, id, j.w.now), true));
            && next.w == LeaseTiming.Next(c.timing, j.w, LeaseTiming.Settle({id}, true))
            && BothReady(c, next.w, next.db)
  {
    ReadyOne(c, j.w, j.db, id);
    RetriedReady(c, j, id, 0);
    RetriedReady(c, j, id, 1);
  }

  lemma ReadyOne(c: Setup, w: LeaseTiming.State, db: Table, id: JobId)
    requires BothReady(c, w, db) && id < 2
    ensures Ready(c, w, db, id) && Ready(c, w, db, 0) && Ready(c, w, db, 1)
  {
    assert id == 0 || id == 1;
  }

  lemma SettleStays(c: Setup, w: LeaseTiming.State, id: JobId)
    requires Shortest(c) && IsReady(c, w) && id < 2 && id in w.running && id !in w.settled
    ensures IsReady(c, LeaseTiming.Next(c.timing, w, LeaseTiming.Settle({id}, true)))
  {
    var events :| ReadyRun(c, events, w);
    AlwaysInStep(c, events);
    assert MirrorsAt(After(c, events).db, c.me, w.rows, id);
    SettleStep(c, After(c, events), id);
    StaysReady(c, events, Settling(RetryOf(c, id, w.now), true),
               LeaseTiming.Next(c.timing, w, LeaseTiming.Settle({id}, true)));
  }

  // ---- the start -----------------------------------------------------------

  function Queueing(id: JobId): Event {
    Theirs(DoEnqueue(id, Queued, 0.0, 0.0))
  }

  lemma EnqueueStep(c: Setup, j: Joint, id: JobId)
    requires Inv(j.db, j.seen) && id !in j.db.used && j.w == LeaseTiming.Start
    ensures var next := Next(c, j, Queueing(id));
            && next.w == LeaseTiming.Start && Ready(c, next.w, next.db, id) && next.db.used == j.db.used + {id}
            && forall other :: Ready(c, j.w, j.db, other) ==> Ready(c, next.w, next.db, other)
  {
    AbortsExactlyWhen(j.db, j.seen, DoEnqueue(id, Queued, 0.0, 0.0));
    assert forall other :: Ready(c, j.w, j.db, other) ==> other in j.db.jobs;
  }

  lemma StartIsReady(c: Setup)
    ensures IsReady(c, LeaseTiming.Start)
  {
    var none: seq<Event> := [];
    AlwaysInStep(c, none);
    EnqueueStep(c, After(c, none), 0);
    OneMore(c, none, Queueing(0));
    var one := none + [Queueing(0)];
    AlwaysInStep(c, one);
    EnqueueStep(c, After(c, one), 1);
    StaysReady(c, one, Queueing(1), LeaseTiming.Start);
  }

  // ---- exactly -------------------------------------------------------------

  lemma ReadyHosts(c: Setup)
    requires Shortest(c)
    ensures LeaseTiming.Hosts(c.timing, ReadyStates(c), JointStates(c))
  {
    StartIsReady(c);
    forall w, e | IsReady(c, w) && LeaseTiming.Free(e) ensures IsReady(c, LeaseTiming.Next(c.timing, w, e)) {
      FreeStays(c, w, e);
    }
    forall w, e | IsJoint(c, w) && LeaseTiming.Free(e) ensures IsJoint(c, LeaseTiming.Next(c.timing, w, e)) {
      FreeStaysJoint(c, w, e);
    }
    forall w | IsReady(c, w) ensures IsJoint(c, LeaseTiming.Next(c.timing, w, LeaseTiming.Release)) {
      ReadyIsJoint(c, w);
      FreeStaysJoint(c, w, LeaseTiming.Release);
    }
    SuppliesReady(c);
  }

  lemma SuppliesReady(c: Setup)
    requires Shortest(c)
    ensures LeaseTiming.Supplied(c.timing, ReadyStates(c))
  {
    var t := c.timing;
    forall w, id | IsReady(c, w) && id < 2 && LeaseTiming.Fetchable(t, w, id)
      ensures IsReady(c, LeaseTiming.Next(t, w, LeaseTiming.Fetch({id})))
    {
      FetchStays(c, w, id);
    }
    forall w, id | IsReady(c, w) && id < 2 && id in w.running && id !in w.settled
      ensures IsReady(c, LeaseTiming.Next(t, w, LeaseTiming.Settle({id}, true)))
    {
      SettleStays(c, w, id);
    }
  }

  /** A reclaim that somebody can issue and that takes a job the child runs. */
  ghost predicate Loses(c: Setup, events: seq<Event>, id: JobId, victims: set<JobId>) {
    var j := After(c, events);
    && Undisturbed(c, events) && j.w.Claims(id) && id in victims
    && Possible(c, j.w, j.db, Theirs(DoReclaim(victims, j.w.now)))
  }

  lemma UnsafeLoses(c: Setup) returns (events: seq<Event>, id: JobId)
    requires c.Sensible() && Shortest(c) && !LeaseTiming.Safe(c.timing)
    ensures Loses(c, events, id, {id})
  {
    ReadyHosts(c);
    var w;
    w, id := LeaseTiming.UnsafeExpires(c.timing, ReadyStates(c), JointStates(c));
    if w in ReadyStates(c) {
      ReadyIsJoint(c, w);
    }
    events :| JointRun(c, events, w);
    ExposedIsLost(c, events, id);
  }

  lemma ExposedIsLost(c: Setup, events: seq<Event>, id: JobId)
    requires Undisturbed(c, events) && After(c, events).w.Exposes(id) && id in After(c, events).w.rows
    ensures Loses(c, events, id, {id})
  {
    AlwaysInStep(c, events);
    MirroredExpiry(c, After(c, events).w, After(c, events).db, id);
  }

  lemma MirroredExpiry(c: Setup, w: LeaseTiming.State, db: Table, id: JobId)
    requires Mirrors(db, c.me, w.rows) && id in w.rows && w.rows[id] < w.now
    ensures Possible(c, w, db, Theirs(DoReclaim({id}, w.now)))
  {
    assert MirrorsAt(db, c.me, w.rows, id);
  }

  /** The timing keeps every job a child runs from being reclaimed, in every joint
      run in which no operator revives one out of a flush, if and only if the lease
      holds out and flushes end before the shortest retry delay. */
  lemma ExclusiveExactlyWhen(c: Setup)
    requires c.Sensible() && Shortest(c)
    ensures LeaseTiming.Safe(c.timing) <==> forall events, id, victims :: !Loses(c, events, id, victims)
  {
    if LeaseTiming.Safe(c.timing) {
      forall events, id, victims ensures !Loses(c, events, id, victims) {
        if Loses(c, events, id, victims) {
          ClaimsAreExclusive(c, events, id, DoReclaim(victims, After(c, events).w.now));
        }
      }
    } else {
      var events, id := UnsafeLoses(c);
    }
  }
}
