/** One worker on its clock and everybody else's statements on the one table:
    what its child runs is leased to it, at every moment of every joint run.

    The worker's steps are those of the timed machine, and each of its statements
    is executed on the table at that moment. In between, anybody may run any
    statement of their own, with the database's one clock. */
module Exclusive {
  import opened Prelude
  import opened JobTable
  import opened Queue
  import opened QueueInvariant
  import opened Lifecycle
  import Backoff
  import LeaseTiming

  /** The worker under consideration, its timing and its retry settings. */
  datatype Setup = Setup(timing: LeaseTiming.Timing, me: WorkerId, base: real, cap: real) {
    predicate Sensible() {
      timing.Sensible()
    }

    /** Nothing comes back sooner than the shortest retry delay. */
    predicate Backed() {
      base > 0.0 && cap > 0.0 && timing.comeback <= base / 2.0 && timing.comeback <= cap / 2.0
    }
  }

  /** The worker's own state and the table, with what has been seen in it. */
  datatype Joint = Joint(w: LeaseTiming.State, db: Table, seen: History)

  datatype Event =
    | Alone(e: LeaseTiming.Event)
    | Fetching(ids: set<JobId>)
    | Dropping(errors: map<JobId, string>, written: bool)
    | Settling(op: Op, written: bool)
    | HandingBack(written: bool)
    | Extending
    | Theirs(op: Op)

  /** Steps of the worker that execute no statement. */
  predicate Silent(e: LeaseTiming.Event) {
    e.Tick? || e.HandOver? || e.Release? || e.Wake? || e.Return? || e.Fail? || e.Shutdown?
  }

  /** One of the worker's own settling statements, at this moment, about jobs its
      child was running. */
  predicate MySettling(c: Setup, w: LeaseTiming.State, op: Op) {
    && Settles(op) && op.worker == c.me && op.now == w.now && Settled(op) <= w.running
    && (op.DoRetry? ==> op.base == c.base && op.cap == c.cap
                        && forall id :: id in op.setbacks ==> 0.0 <= op.setbacks[id].draw < 1.0)
  }

  /** Somebody else's statement, with the database's clock where it reads it. */
  predicate NotMine(c: Setup, w: LeaseTiming.State, op: Op) {
    && (op.DoLease? || op.DoRenew? || op.DoAbandon? || Settles(op) ==> op.worker != c.me)
    && (op.DoLease? || op.DoReclaim? ==> op.now == w.now)
  }

  /** Whether the event can happen now. Anybody may issue any statement; the
      worker issues its own where its code does. */
  ghost predicate Possible(c: Setup, w: LeaseTiming.State, db: Table, e: Event) {
    match e
    case Alone(own) => Silent(own)
    case Fetching(ids) =>
      var op := DoLease(ids, c.me, c.timing.lease, w.now);
      Enabled(db, op) && !Aborts(db, op)
    case Dropping(errors, _) => errors.Keys <= w.transit.Keys
    case Settling(op, _) => MySettling(c, w, op)
    case HandingBack(_) => w.releasing == map[]
    case Extending => w.renewer.Renewing? && !w.renewer.extended
    case Theirs(op) => NotMine(c, w, op) && Enabled(db, op)
  }

  /** The statement executed on the table, if any. */
  function Statement(c: Setup, w: LeaseTiming.State, e: Event): Option<Op> {
    match e
    case Alone(_) => None
    case Fetching(ids) => Some(DoLease(ids, c.me, c.timing.lease, w.now))
    case Dropping(errors, written) => if written then Some(DoDiscard(errors, c.me, w.now)) else None
    case Settling(op, written) => if written then Some(op) else None
    case HandingBack(written) => if written then Some(DoAbandon(w.held, c.me, w.now)) else None
    case Extending =>
      if w.renewer.Renewing? then Some(DoRenew(w.renewer.snapshot, c.me, c.timing.lease, w.now)) else None
    case Theirs(op) => Some(op)
  }

  /** What it is to the worker. A fetch takes what the table gave it, whatever the
      timed machine expects to be given. */
  function Moved(c: Setup, w: LeaseTiming.State, e: Event): LeaseTiming.State {
    match e
    case Alone(own) => LeaseTiming.Next(c.timing, w, own)
    case Fetching(ids) => LeaseTiming.Fetched(c.timing, w, ids)
    case Dropping(errors, written) => LeaseTiming.Next(c.timing, w, LeaseTiming.Drop(errors.Keys, written))
    case Settling(op, written) =>
      if Settles(op) then LeaseTiming.Next(c.timing, w, LeaseTiming.Settle(Settled(op), written)) else w
    case HandingBack(written) => LeaseTiming.Next(c.timing, w, LeaseTiming.HandBack(written))
    case Extending => LeaseTiming.Next(c.timing, w, LeaseTiming.Extend)
    case Theirs(op) =>
      if op.DoReclaim? then LeaseTiming.Next(c.timing, w, LeaseTiming.Reclaimed(op.victims * w.rows.Keys)) else w
  }

  ghost function Executed(db: Table, statement: Option<Op>): Table {
    if statement.Some? then Exec(db, statement.value) else db
  }

  ghost function Next(c: Setup, j: Joint, e: Event): Joint {
    if Possible(c, j.w, j.db, e)
    then var db := Executed(j.db, Statement(c, j.w, e)); Joint(Moved(c, j.w, e), db, Observe(j.seen, db))
    else j
  }

  ghost function After(c: Setup, events: seq<Event>): Joint {
    if events == [] then Joint(LeaseTiming.Start, EmptyTable, History({}, {}, {}))
    else Next(c, After(c, events[..|events| - 1]), events[|events| - 1])
  }

  // ---- the worker's rows in the table --------------------------------------

  /** The timed state has exactly the rows the table says the worker holds, with
      the expiries it says. */
  ghost predicate Mirrors(db: Table, me: WorkerId, rows: map<JobId, real>) {
    forall id :: MirrorsAt(db, me, rows, id)
  }

  predicate MirrorsAt(db: Table, me: WorkerId, rows: map<JobId, real>, id: JobId) {
    && (id in rows <==> Holds(db, me, id))
    && (id in rows ==> db.jobs[id].leaseExpiresAt == Some(rows[id]))
  }

  predicate SameHolds(before: Table, after: Table, me: WorkerId, id: JobId) {
    && (Holds(after, me, id) <==> Holds(before, me, id))
    && (Holds(after, me, id) ==> after.jobs[id].leaseExpiresAt == before.jobs[id].leaseExpiresAt)
  }

  lemma FencedKeepMine(db: Table, seen: History, op: Op, me: WorkerId, id: JobId)
    requires Inv(db, seen) && FencedTo(op).Some? && FencedTo(op) != Some(me)
    ensures SameHolds(db, Exec(db, op), me, id)
  {
    if IsRunning(db, id) && db.jobs[id].lockedBy == Some(me) {
      Fencing(db, seen, op, id);
    } else {
      FencedTakeNothing(db, seen, op, me, id);
    }
  }

  lemma FencedTakeNothing(db: Table, seen: History, op: Op, me: WorkerId, id: JobId)
    requires Inv(db, seen) && FencedTo(op).Some? && !Holds(db, me, id)
    ensures !Holds(Exec(db, op), me, id)
  {
    if op.DoComplete? {
      CompletingTakesNothing(db, op, me, id);
    } else if op.DoDiscard? || op.DoRetry? {
      FailingTakesNothing(db, op, me, id);
    }
  }

  lemma CompletingTakesNothing(db: Table, op: Op, me: WorkerId, id: JobId)
    requires op.DoComplete? && !Holds(db, me, id)
    ensures !Holds(Exec(db, op), me, id)
  {}

  lemma FailingTakesNothing(db: Table, op: Op, me: WorkerId, id: JobId)
    requires (op.DoDiscard? || op.DoRetry?) && !Holds(db, me, id)
    ensures !Holds(Exec(db, op), me, id)
  {}

  lemma CallersKeepMine(db: Table, seen: History, op: Op, me: WorkerId, id: JobId)
    requires KnownIds(db, seen) && (Inserts(op) || op.DoCancel? || op.DoRevive? || op.DoPrune? || op.DoPurge?)
    ensures SameHolds(db, Exec(db, op), me, id)
  {
    if Inserts(op) {
      InsertersKeepMine(db, seen, op, me, id);
    }
  }

  lemma InsertersKeepMine(db: Table, seen: History, op: Op, me: WorkerId, id: JobId)
    requires KnownIds(db, seen) && Inserts(op)
    ensures SameHolds(db, Exec(db, op), me, id)
  {
    if Enabled(db, op) && op.DoInsertWorkflow? {
      assert id in db.jobs ==> id !in op.rowIds;
    }
  }

  lemma LeasesKeepMine(db: Table, op: Op, me: WorkerId, id: JobId)
    requires op.DoLease? && op.worker != me
    ensures SameHolds(db, Exec(db, op), me, id)
  {}

  /** Nobody else's statement but a reclaim changes what the worker holds. */
  lemma OthersKeepMine(c: Setup, w: LeaseTiming.State, db: Table, seen: History, op: Op, id: JobId)
    requires Inv(db, seen) && NotMine(c, w, op) && !op.DoReclaim?
    ensures SameHolds(db, Exec(db, op), c.me, id)
  {
    if FencedTo(op).Some? {
      FencedKeepMine(db, seen, op, c.me, id);
    } else if op.DoLease? {
      LeasesKeepMine(db, op, c.me, id);
    } else {
      CallersKeepMine(db, seen, op, c.me, id);
    }
  }

  ghost predicate SameForAll(before: Table, after: Table, me: WorkerId) {
    forall id :: SameHolds(before, after, me, id)
  }

  lemma SameMirror(before: Table, after: Table, me: WorkerId, rows: map<JobId, real>)
    requires SameForAll(before, after, me) && Mirrors(before, me, rows)
    ensures Mirrors(after, me, rows)
  {
    forall id ensures MirrorsAt(after, me, rows, id) {
      assert SameHolds(before, after, me, id) && MirrorsAt(before, me, rows, id);
    }
  }

  lemma OthersKeepAll(c: Setup, w: LeaseTiming.State, db: Table, seen: History, op: Op)
    requires Inv(db, seen) && NotMine(c, w, op) && !op.DoReclaim?
    ensures SameForAll(db, Exec(db, op), c.me)
  {
    forall id ensures SameHolds(db, Exec(db, op), c.me, id) {
      OthersKeepMine(c, w, db, seen, op, id);
    }
  }

  lemma OthersMirror(c: Setup, w: LeaseTiming.State, db: Table, seen: History, op: Op)
    requires Inv(db, seen) && NotMine(c, w, op) && !op.DoReclaim? && Mirrors(db, c.me, w.rows)
    ensures Mirrors(Exec(db, op), c.me, w.rows)
  {
    OthersKeepAll(c, w, db, seen, op);
    SameMirror(db, Exec(db, op), c.me, w.rows);
  }

  lemma ReclaimMirrors(db: Table, victims: set<JobId>, now: real, me: WorkerId, rows: map<JobId, real>)
    requires forall id :: id in victims ==> id in db.jobs && db.jobs[id].Expired(now)
    requires Mirrors(db, me, rows)
    ensures Mirrors(Reclaim(db, victims, now), me, rows - (victims * rows.Keys))
    ensures forall id :: id in victims * rows.Keys ==> rows[id] < now
  {
    var next, mine := Reclaim(db, victims, now), rows - (victims * rows.Keys);
    forall id ensures MirrorsAt(next, me, mine, id) {
      assert MirrorsAt(db, me, rows, id);
    }
    forall id | id in victims * rows.Keys ensures rows[id] < now {
      assert MirrorsAt(db, me, rows, id);
    }
  }

  lemma LeaseMirrors(db: Table, ids: set<JobId>, me: WorkerId, lease: real, now: real, rows: map<JobId, real>)
    requires forall id :: id in ids ==> id in db.jobs && db.jobs[id].DueBy(now)
    requires Mirrors(db, me, rows)
    ensures Mirrors(Lease(db, ids, me, lease, now), me, rows + LeaseTiming.At(ids, now + lease))
  {
    var next, mine := Lease(db, ids, me, lease, now), rows + LeaseTiming.At(ids, now + lease);
    forall id ensures MirrorsAt(next, me, mine, id) {
      assert MirrorsAt(db, me, rows, id);
    }
  }

  lemma RenewMirrors(db: Table, ids: set<JobId>, me: WorkerId, lease: real, now: real, rows: map<JobId, real>)
    requires Mirrors(db, me, rows)
    ensures Mirrors(Renew(db, ids, me, lease, now), me, LeaseTiming.Extended(rows, ids, now + lease))
  {
    var next, mine := Renew(db, ids, me, lease, now), LeaseTiming.Extended(rows, ids, now + lease);
    forall id ensures MirrorsAt(next, me, mine, id) {
      assert MirrorsAt(db, me, rows, id);
    }
  }

  lemma AbandonMirrors(db: Table, ids: set<JobId>, me: WorkerId, now: real, rows: map<JobId, real>)
    requires Mirrors(db, me, rows)
    ensures Mirrors(Abandon(db, ids, me, now), me, LeaseTiming.Extended(rows, ids, now - Microsecond))
  {
    var next, mine := Abandon(db, ids, me, now), LeaseTiming.Extended(rows, ids, now - Microsecond);
    forall id ensures MirrorsAt(next, me, mine, id) {
      assert MirrorsAt(db, me, rows, id);
    }
  }

  predicate SettledHolds(before: Table, after: Table, op: Op, id: JobId)
    requires Settles(op)
  {
    && (Holds(after, op.worker, id) <==> Holds(before, op.worker, id) && id !in Settled(op))
    && (Holds(after, op.worker, id) ==> after.jobs[id] == before.jobs[id])
  }

  ghost predicate SettledForAll(before: Table, after: Table, op: Op)
    requires Settles(op)
  {
    forall id :: SettledHolds(before, after, op, id)
  }

  lemma SettledMirror(before: Table, after: Table, op: Op, rows: map<JobId, real>)
    requires Settles(op) && SettledForAll(before, after, op) && Mirrors(before, op.worker, rows)
    ensures Mirrors(after, op.worker, rows - Settled(op))
  {
    forall id ensures MirrorsAt(after, op.worker, rows - Settled(op), id) {
      assert SettledHolds(before, after, op, id) && MirrorsAt(before, op.worker, rows, id);
    }
  }

  lemma SettlingAll(db: Table, seen: History, op: Op)
    requires Inv(db, seen) && Settles(op)
    ensures SettledForAll(db, Exec(db, op), op)
  {
    forall id ensures SettledHolds(db, Exec(db, op), op, id) {
      SettlingEnds(db, seen, op, id);
    }
  }

  lemma SettlingMirrors(db: Table, seen: History, op: Op, rows: map<JobId, real>)
    requires Inv(db, seen) && Settles(op) && Mirrors(db, op.worker, rows)
    ensures Mirrors(Exec(db, op), op.worker, rows - Settled(op))
  {
    SettlingAll(db, seen, op);
    SettledMirror(db, Exec(db, op), op, rows);
  }

  // ---- jobs a flush has settled and not released yet -----------------------

  /** Not leased to anybody, and not due before a certain moment. */
  predicate Away(db: Table, id: JobId, moment: real) {
    && id in db.used
    && (id in db.jobs ==>
          !db.jobs[id].state.Running?
          && (db.jobs[id].state.Available? ==> db.jobs[id].scheduledAt.At? && moment <= db.jobs[id].scheduledAt.time))
  }

  ghost predicate Revives(db: Table, op: Op, id: JobId) {
    op.DoRevive? && id in db.jobs && ToRevive(db.jobs[id], id, op.chosen, op.queue)
  }

  lemma CompletingKeepsAway(db: Table, seen: History, op: Op, id: JobId, moment: real)
    requires Inv(db, seen) && Away(db, id, moment) && op.DoComplete?
    ensures Away(Exec(db, op), id, moment)
  {
    if id in db.jobs && db.jobs[id].pendingDeps == 0 {
      FinishingAreUnmet(db, seen, Reported(db, op.results, op.worker), id);
    }
  }

  lemma FailingKeepsAway(db: Table, op: Op, id: JobId, moment: real)
    requires Away(db, id, moment) && (op.DoDiscard? || op.DoRetry?)
    ensures Away(Exec(db, op), id, moment)
  {}

  lemma LeasingKeepsAway(db: Table, op: Op, id: JobId, moment: real)
    requires Away(db, id, moment)
    requires (op.DoLease? && op.now < moment) || op.DoRenew? || op.DoAbandon? || op.DoReclaim?
    ensures Away(Exec(db, op), id, moment)
  {}

  lemma CallingKeepsAway(db: Table, seen: History, op: Op, id: JobId, moment: real)
    requires KnownIds(db, seen) && Away(db, id, moment) && !Revives(db, op, id)
    requires Inserts(op) || op.DoCancel? || op.DoRevive? || op.DoPrune? || op.DoPurge?
    ensures Away(Exec(db, op), id, moment)
  {
    if Inserts(op) {
      InsertingKeepsAway(db, seen, op, id, moment);
    }
  }

  lemma InsertingKeepsAway(db: Table, seen: History, op: Op, id: JobId, moment: real)
    requires KnownIds(db, seen) && Away(db, id, moment) && Inserts(op)
    ensures Away(Exec(db, op), id, moment)
  {}

  /** What is away stays away, until its moment, whoever does what. */
  lemma StaysAway(db: Table, seen: History, op: Op, id: JobId, moment: real)
    requires Inv(db, seen) && Away(db, id, moment)
    requires op.DoLease? ==> op.now < moment
    requires !Revives(db, op, id)
    ensures Away(Exec(db, op), id, moment)
  {
    match op
    case DoComplete(_, _, _) => CompletingKeepsAway(db, seen, op, id, moment);
    case DoDiscard(_, _, _) => FailingKeepsAway(db, op, id, moment);
    case DoRetry(_, _, _, _, _) => FailingKeepsAway(db, op, id, moment);
    case DoLease(_, _, _, _) => LeasingKeepsAway(db, op, id, moment);
    case DoRenew(_, _, _, _) => LeasingKeepsAway(db, op, id, moment);
    case DoAbandon(_, _, _) => LeasingKeepsAway(db, op, id, moment);
    case DoReclaim(_, _) => LeasingKeepsAway(db, op, id, moment);
    case _ => CallingKeepsAway(db, seen, op, id, moment);
  }

  lemma RetriedAway(c: Setup, db: Table, op: Op, id: JobId)
    requires c.Sensible() && c.Backed() && RowsOk(db)
    requires op.DoRetry? && op.base == c.base && op.cap == c.cap
    requires id in op.setbacks && 0.0 <= op.setbacks[id].draw < 1.0
    requires Holds(db, op.worker, id) && id in db.used
    ensures Away(Retry(db, op.setbacks, op.worker, op.base, op.cap, op.now), id, op.now + c.timing.comeback)
  {
    Backoff.DelayAtLeast(c.base, c.cap, db.jobs[id].attempt, op.setbacks[id].draw);
  }

  lemma BuriedAway(db: Table, op: Op, id: JobId, moment: real)
    requires op.DoDiscard? && id in op.errors && Holds(db, op.worker, id) && id in db.used
    ensures Away(Discard(db, op.errors, op.worker, op.now), id, moment)
  {}

  lemma FinishedAway(db: Table, op: Op, id: JobId, moment: real)
    requires op.DoComplete? && id in op.results && Holds(db, op.worker, id) && id in db.used
    ensures Away(Complete(db, op.results, op.worker, op.now), id, moment)
  {}

  /** What a settling statement settles is away for `comeback`. */
  lemma SettledIsAway(c: Setup, w: LeaseTiming.State, db: Table, seen: History, op: Op, id: JobId)
    requires c.Sensible() && c.Backed() && Inv(db, seen)
    requires MySettling(c, w, op) && id in Settled(op) && Holds(db, c.me, id)
    ensures Away(Exec(db, op), id, w.now + c.timing.comeback)
  {
    NeverAborts(db, seen, op);
    match op
    case DoRetry(_, _, _, _, _) => RetriedAway(c, db, op, id);
    case DoDiscard(_, _, _) => BuriedAway(db, op, id, w.now + c.timing.comeback);
    case DoComplete(_, _, _) => FinishedAway(db, op, id, w.now + c.timing.comeback);
  }

  // ---- every joint run -----------------------------------------------------

  /** The worker's rows after an event and the table after it still agree. */
  ghost predicate StillMirrors(c: Setup, w: LeaseTiming.State, db: Table, e: Event) {
    Mirrors(Executed(db, Statement(c, w, e)), c.me, Moved(c, w, e).rows)
  }

  lemma FetchMirrors(c: Setup, w: LeaseTiming.State, db: Table, ids: set<JobId>)
    requires Mirrors(db, c.me, w.rows)
    requires Enabled(db, DoLease(ids, c.me, c.timing.lease, w.now))
    requires !Aborts(db, DoLease(ids, c.me, c.timing.lease, w.now))
    ensures StillMirrors(c, w, db, Fetching(ids))
  {
    LeaseMirrors(db, ids, c.me, c.timing.lease, w.now, w.rows);
  }

  lemma DropMirrors(c: Setup, w: LeaseTiming.State, db: Table, seen: History, errors: map<JobId, string>, written: bool)
    requires Inv(db, seen) && Mirrors(db, c.me, w.rows) && errors.Keys <= w.transit.Keys
    ensures StillMirrors(c, w, db, Dropping(errors, written))
  {
    SettlingMirrors(db, seen, DoDiscard(errors, c.me, w.now), w.rows);
  }

  lemma SettleMirrors(c: Setup, w: LeaseTiming.State, db: Table, seen: History, op: Op, written: bool)
    requires Inv(db, seen) && Mirrors(db, c.me, w.rows) && MySettling(c, w, op)
    ensures StillMirrors(c, w, db, Settling(op, written))
  {
    SettlingMirrors(db, seen, op, w.rows);
  }

  lemma HandBackMirrors(c: Setup, w: LeaseTiming.State, db: Table, seen: History, written: bool)
    requires Inv(db, seen) && Mirrors(db, c.me, w.rows) && w.releasing == map[]
    ensures StillMirrors(c, w, db, HandingBack(written))
  {
    NeverAborts(db, seen, DoAbandon(w.held, c.me, w.now));
    AbandonMirrors(db, w.held, c.me, w.now, w.rows);
  }

  lemma ExtendMirrors(c: Setup, w: LeaseTiming.State, db: Table, seen: History)
    requires Inv(db, seen) && Mirrors(db, c.me, w.rows) && w.renewer.Renewing? && !w.renewer.extended
    ensures StillMirrors(c, w, db, Extending)
  {
    NeverAborts(db, seen, DoRenew(w.renewer.snapshot, c.me, c.timing.lease, w.now));
    RenewMirrors(db, w.renewer.snapshot, c.me, c.timing.lease, w.now, w.rows);
  }

  lemma TheirsMirrors(c: Setup, w: LeaseTiming.State, db: Table, seen: History, op: Op)
    requires Inv(db, seen) && Mirrors(db, c.me, w.rows) && NotMine(c, w, op) && Enabled(db, op)
    ensures StillMirrors(c, w, db, Theirs(op))
  {
    if op.DoReclaim? {
      NeverAborts(db, seen, op);
      ReclaimMirrors(db, op.victims, op.now, c.me, w.rows);
    } else {
      OthersMirror(c, w, db, seen, op);
    }
  }

  lemma EventMirrors(c: Setup, j: Joint, e: Event)
    requires Inv(j.db, j.seen) && Mirrors(j.db, c.me, j.w.rows) && Possible(c, j.w, j.db, e)
    ensures StillMirrors(c, j.w, j.db, e)
  {
    match e
    case Alone(_) =>
    case Fetching(ids) => FetchMirrors(c, j.w, j.db, ids);
    case Dropping(errors, written) => DropMirrors(c, j.w, j.db, j.seen, errors, written);
    case Settling(op, written) => SettleMirrors(c, j.w, j.db, j.seen, op, written);
    case HandingBack(written) => HandBackMirrors(c, j.w, j.db, j.seen, written);
    case Extending => ExtendMirrors(c, j.w, j.db, j.seen);
    case Theirs(op) => TheirsMirrors(c, j.w, j.db, j.seen, op);
  }

  lemma NextKeepsInv(c: Setup, j: Joint, e: Event)
    requires Inv(j.db, j.seen)
    ensures Inv(Next(c, j, e).db, Next(c, j, e).seen)
  {
    if Possible(c, j.w, j.db, e) {
      if Statement(c, j.w, e).Some? {
        StepKeepsInv(j.db, j.seen, Statement(c, j.w, e).value);
      } else {
        ObserveNothingNew(j.db, j.seen);
      }
    }
  }

  /** Whatever the timing and whoever does what, the table keeps the queue's
      invariant, and the worker's machine has exactly the rows leased to it
      there, with the expiries they have there. */
  lemma {:induction false} AlwaysInStep(c: Setup, events: seq<Event>)
    ensures Inv(After(c, events).db, After(c, events).seen)
    ensures Mirrors(After(c, events).db, c.me, After(c, events).w.rows)
    decreases |events|
  {
    if events != [] {
      var before, e := After(c, events[..|events| - 1]), events[|events| - 1];
      AlwaysInStep(c, events[..|events| - 1]);
      NextKeepsInv(c, before, e);
      if Possible(c, before.w, before.db, e) {
        EventMirrors(c, before, e);
      }
    }
  }

  // ---- timely runs ---------------------------------------------------------

  /** Every job a flush has settled and not released is away until it may come
      back. */
  ghost predicate SettledAway(c: Setup, j: Joint) {
    forall id :: id in j.w.settled ==> Away(j.db, id, j.w.settled[id] + c.timing.comeback)
  }

  ghost predicate JointInv(c: Setup, j: Joint)
    requires c.Sensible()
  {
    && Inv(j.db, j.seen)
    && Mirrors(j.db, c.me, j.w.rows)
    && LeaseTiming.Kept(c.timing, j.w)
    && SettledAway(c, j)
  }

  /** An operator's retry of a job that a flush has settled and not released. */
  ghost predicate Disturbs(j: Joint, e: Event) {
    e.Theirs? && exists id :: id in j.w.settled && Revives(j.db, e.op, id)
  }

  predicate Timely(c: Setup)
    requires c.Sensible()
  {
    LeaseTiming.Safe(c.timing) && c.Backed()
  }

  /** What the table gives to a fetch is what the timed machine expects. */
  lemma FetchIsExpected(c: Setup, j: Joint, ids: set<JobId>)
    requires c.Sensible() && Timely(c) && JointInv(c, j) && Possible(c, j.w, j.db, Fetching(ids))
    ensures Moved(c, j.w, Fetching(ids)) == LeaseTiming.Next(c.timing, j.w, LeaseTiming.Fetch(ids))
  {
    forall id | id in ids ensures LeaseTiming.Fetchable(c.timing, j.w, id) {
      assert MirrorsAt(j.db, c.me, j.w.rows, id);
      assert j.db.jobs[id].DueBy(j.w.now);
    }
  }

  lemma EventKeeps(c: Setup, j: Joint, e: Event)
    requires c.Sensible() && Timely(c) && JointInv(c, j) && Possible(c, j.w, j.db, e)
    ensures LeaseTiming.Kept(c.timing, Moved(c, j.w, e))
  {
    var t, w := c.timing, j.w;
    match e
    case Alone(own) => LeaseTiming.NextKeeps(t, w, own);
    case Fetching(ids) =>
      FetchIsExpected(c, j, ids);
      LeaseTiming.NextKeeps(t, w, LeaseTiming.Fetch(ids));
    case Dropping(errors, written) => LeaseTiming.NextKeeps(t, w, LeaseTiming.Drop(errors.Keys, written));
    case Settling(op, written) => LeaseTiming.NextKeeps(t, w, LeaseTiming.Settle(Settled(op), written));
    case HandingBack(written) => LeaseTiming.NextKeeps(t, w, LeaseTiming.HandBack(written));
    case Extending => LeaseTiming.NextKeeps(t, w, LeaseTiming.Extend);
    case Theirs(op) =>
      if op.DoReclaim? {
        LeaseTiming.NextKeeps(t, w, LeaseTiming.Reclaimed(op.victims * w.rows.Keys));
      }
  }

  /** While a settled job awaits its release, its moment has not come. */
  lemma MomentAhead(c: Setup, j: Joint, id: JobId)
    requires c.Sensible() && Timely(c) && JointInv(c, j) && id in j.w.settled
    ensures j.w.now < j.w.settled[id] + c.timing.comeback
  {
    assert id in j.w.releasing && j.w.settled[id] == j.w.releasing[id];
  }

  lemma ExecutedStaysAway(c: Setup, j: Joint, e: Event, id: JobId)
    requires c.Sensible() && Timely(c) && JointInv(c, j) && Possible(c, j.w, j.db, e) && !Disturbs(j, e)
    requires id in j.w.settled
    ensures Away(Executed(j.db, Statement(c, j.w, e)), id, j.w.settled[id] + c.timing.comeback)
  {
    var statement := Statement(c, j.w, e);
    if statement.Some? {
      MomentAhead(c, j, id);
      StaysAway(j.db, j.seen, statement.value, id, j.w.settled[id] + c.timing.comeback);
    }
  }

  /** What is settled after an event was settled before it, or by it. */
  lemma SettledBy(c: Setup, w: LeaseTiming.State, e: Event, id: JobId)
    requires id in Moved(c, w, e).settled
    requires e.Alone? ==> Silent(e.e)
    ensures (id in w.settled && Moved(c, w, e).settled[id] == w.settled[id])
            || (&& e.Settling? && e.written && Settles(e.op) && id in Settled(e.op) && id in w.running
                && Moved(c, w, e).settled[id] == w.now)
  {}

  lemma EventKeepsAway(c: Setup, j: Joint, e: Event, id: JobId)
    requires c.Sensible() && Timely(c) && JointInv(c, j) && Possible(c, j.w, j.db, e) && !Disturbs(j, e)
    requires id in Moved(c, j.w, e).settled
    ensures Away(Executed(j.db, Statement(c, j.w, e)), id, Moved(c, j.w, e).settled[id] + c.timing.comeback)
  {
    SettledBy(c, j.w, e, id);
    if id in j.w.settled && Moved(c, j.w, e).settled[id] == j.w.settled[id] {
      ExecutedStaysAway(c, j, e, id);
    } else {
      assert id in j.w.rows && MirrorsAt(j.db, c.me, j.w.rows, id);
      SettledIsAway(c, j.w, j.db, j.seen, e.op, id);
    }
  }

  lemma NextKeepsJoint(c: Setup, j: Joint, e: Event)
    requires c.Sensible() && Timely(c) && JointInv(c, j) && !Disturbs(j, e)
    ensures JointInv(c, Next(c, j, e))
  {
    if Possible(c, j.w, j.db, e) {
      NextKeepsInv(c, j, e);
      EventMirrors(c, j, e);
      EventKeeps(c, j, e);
      forall id | id in Moved(c, j.w, e).settled
        ensures Away(Next(c, j, e).db, id, Next(c, j, e).w.settled[id] + c.timing.comeback)
      {
        EventKeepsAway(c, j, e, id);
      }
    }
  }

  ghost predicate UndisturbedAt(c: Setup, events: seq<Event>, i: nat)
    requires i < |events|
  {
    !Disturbs(After(c, events[..i]), events[i])
  }

  ghost predicate Undisturbed(c: Setup, events: seq<Event>) {
    forall i :: 0 <= i < |events| ==> UndisturbedAt(c, events, i)
  }

  lemma {:induction false} ReachableJoint(c: Setup, events: seq<Event>)
    requires c.Sensible() && Timely(c) && Undisturbed(c, events)
    ensures JointInv(c, After(c, events))
    decreases |events|
  {
    if events != [] {
      var n := |events| - 1;
      UndisturbedBefore(c, events);
      ReachableJoint(c, events[..n]);
      assert UndisturbedAt(c, events, n);
      NextKeepsJoint(c, After(c, events[..n]), events[n]);
    }
  }

  lemma UndisturbedBefore(c: Setup, events: seq<Event>)
    requires events != [] && Undisturbed(c, events)
    ensures Undisturbed(c, events[..|events| - 1])
  {
    var before := events[..|events| - 1];
    forall i | 0 <= i < |before| ensures UndisturbedAt(c, before, i) {
      assert UndisturbedAt(c, events, i);
      assert before[..i] == events[..i];
    }
  }

  /** At every moment of every timely run in which no operator revives a job out
      of a flush: what the child runs, or is about to be handed, is leased to its
      worker in the table and has not expired there. Nothing anybody else can do
      takes it away. In particular no reclaim has it among its victims. */
  lemma ClaimsAreExclusive(c: Setup, events: seq<Event>, id: JobId, op: Op)
    requires c.Sensible() && Timely(c) && Undisturbed(c, events)
    requires After(c, events).w.Claims(id)
    requires Possible(c, After(c, events).w, After(c, events).db, Theirs(op))
    ensures var now := After(c, events);
            && Holds(now.db, c.me, id) && !now.db.jobs[id].Expired(now.w.now)
            && (op.DoReclaim? ==> id !in op.victims)
            && id in Exec(now.db, op).jobs && Exec(now.db, op).jobs[id] == now.db.jobs[id]
  {
    var now := After(c, events);
    ReachableJoint(c, events);
    ClaimIsLeased(c, now, id);
    OthersLeaveIt(c, now, id, op);
  }

  lemma ClaimIsLeased(c: Setup, j: Joint, id: JobId)
    requires c.Sensible() && Timely(c) && JointInv(c, j) && j.w.Claims(id)
    ensures Holds(j.db, c.me, id) && !j.db.jobs[id].Expired(j.w.now)
  {
    LeaseTiming.KeptIsSafe(c.timing, j.w, id);
    assert MirrorsAt(j.db, c.me, j.w.rows, id);
  }

  lemma OthersLeaveIt(c: Setup, j: Joint, id: JobId, op: Op)
    requires Inv(j.db, j.seen) && Possible(c, j.w, j.db, Theirs(op))
    requires Holds(j.db, c.me, id) && !j.db.jobs[id].Expired(j.w.now)
    ensures op.DoReclaim? ==> id !in op.victims
    ensures id in Exec(j.db, op).jobs && Exec(j.db, op).jobs[id] == j.db.jobs[id]
  {
    if FencedTo(op).Some? {
      Fencing(j.db, j.seen, op, id);
    } else if Inserts(op) {
      InsertersLeaveIt(j.db, j.seen, op, id);
    } else {
      PickersLeaveIt(j.db, op, j.w.now, id);
    }
  }

  lemma InsertersLeaveIt(db: Table, seen: History, op: Op, id: JobId)
    requires KnownIds(db, seen) && Inserts(op) && id in db.jobs
    ensures id in Exec(db, op).jobs && Exec(db, op).jobs[id] == db.jobs[id]
  {
    if Enabled(db, op) && op.DoInsertWorkflow? {
      assert id !in op.rowIds;
    }
  }

  lemma PickersLeaveIt(db: Table, op: Op, now: real, id: JobId)
    requires FencedTo(op).None? && !Inserts(op) && Enabled(db, op) && (op.DoReclaim? ==> op.now == now)
    requires id in db.jobs && db.jobs[id].state.Running? && !db.jobs[id].Expired(now)
    ensures op.DoReclaim? ==> id !in op.victims
    ensures id in Exec(db, op).jobs && Exec(db, op).jobs[id] == db.jobs[id]
  {}
}
