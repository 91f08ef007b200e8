/** How long a lease must be, and how soon a flush must end, for the jobs a child
    is running to be safe from being reclaimed and run a second time, over every
    timing of the worker.

    One worker's clock-driven behaviour is a timed machine. A statement takes
    effect at the moment whose clock it reads; its answer may come later. A fetch
    leases one batch of unkeyed jobs and, by a second statement at a later moment,
    one of keyed jobs; whatever it leased reaches the in-flight set at most
    `handover` later, so for the first batch that covers the keyed pass. The
    renew loop sleeps, takes a snapshot of the in-flight set, and its statement
    ends within `roundTrip`, having extended the leases or failed; it fails at
    most `failures` times in a row. A flush settles jobs by statements of its own
    and takes them out of the in-flight set afterwards, at most `flush` after
    each statement; a job it settled may be due again `comeback` after that.
    After a shutdown the renew loop stops, and the child may go on with its jobs
    for `drain`: what the dispatch loop takes to end, and then the drain timeout.

    What the child runs and what the in-flight set holds are kept apart: nothing
    but the code below makes them agree. */
module LeaseTiming {
  import opened Prelude
  import opened JobTable

  datatype Timing = Timing(
    lease: real,
    interval: real,
    handover: real,
    roundTrip: real,
    drain: real,
    failures: nat,
    flush: real,
    comeback: real)
  {
    predicate Sensible() {
      && lease > 0.0 && interval > 0.0
      && handover >= 0.0 && roundTrip >= 0.0 && drain >= 0.0 && flush >= 0.0 && comeback >= 0.0
    }

    /** The longest that `n` turns of the renew loop take. */
    function Span(n: nat): (length: real)
      requires Sensible()
      ensures length >= 0.0
    {
      if n == 0 then 0.0 else Span(n - 1) + (interval + roundTrip)
    }

    /** What must still be left of a lease when its renewal is due: time for
        the statement to end, or for the child to drain. */
    function Margin(): real {
      if roundTrip < drain then drain else roundTrip
    }

    predicate HoldsOut()
      requires Sensible()
    {
      handover + Span(failures + 1) + Margin() <= lease
    }

    /** A flush is over before anything it settled can be fetched again. */
    predicate Prompt() {
      flush < comeback
    }
  }

  datatype Renewer =
    | Sleeping(since: real, misses: nat)
    | Renewing(snapshot: set<JobId>, since: real, misses: nat, extended: bool)

  /** `rows` gives `lease_expires_at` of the rows leased to this worker and
      `transit` when each job on its way to the child was fetched. `held` is the
      in-flight set, `running` what the child was handed and has no outcome for
      yet. `releasing` is when the statement was over of each job the current
      flush has still to release, `settled` the same for those it settled. */
  datatype State = State(
    now: real,
    rows: map<JobId, real>,
    transit: map<JobId, real>,
    held: set<JobId>,
    running: set<JobId>,
    settled: map<JobId, real>,
    releasing: map<JobId, real>,
    renewer: Renewer,
    stopped: Option<real>)
  {
    /** A job the child is running, or is about to be handed. */
    predicate Claims(id: JobId) {
      id in running || id in transit
    }

    /** Such a job whose lease has run out, or is gone already. */
    predicate Exposes(id: JobId) {
      Claims(id) && (id !in rows || rows[id] < now)
    }
  }

  datatype Event =
    | Tick(length: real)
    | Fetch(ids: set<JobId>)
    | Drop(ids: set<JobId>, written: bool)
    | HandOver
    | Settle(ids: set<JobId>, written: bool)
    | Release
    | HandBack(written: bool)
    | Wake
    | Extend
    | Return
    | Fail
    | Shutdown
    | Reclaimed(ids: set<JobId>)

  const Start := State(0.0, map[], map[], {}, {}, map[], map[], Sleeping(0.0, 0), None)

  /** Nothing that is due by a certain moment lets time pass beyond it. */
  predicate MayPass(t: Timing, s: State, till: real) {
    && (forall id :: id in s.transit ==> till <= s.transit[id] + t.handover)
    && (forall id :: id in s.releasing ==> till <= s.releasing[id] + t.flush)
    && (s.renewer.Sleeping? && s.stopped.None? ==> till <= s.renewer.since + t.interval)
    && (s.renewer.Renewing? ==> till <= s.renewer.since + t.roundTrip)
    && (s.stopped.Some? ==> till <= s.stopped.value + t.drain)
  }

  /** Not leased to this worker, and due: long enough after it was settled, if
      its release is still to come. */
  predicate Fetchable(t: Timing, s: State, id: JobId) {
    id !in s.rows && (id in s.settled ==> s.settled[id] + t.comeback <= s.now)
  }

  /** The dispatch loop leases batches, drops what cannot be encoded and hands over
      the rest, any number of batches at a time. A flush settles with any number of
      statements, each of which may fail, and then releases. A failed session is
      handed back once its last flush is over. */
  function Next(t: Timing, s: State, e: Event): State {
    match e
    case Tick(length) =>
      if length >= 0.0 && MayPass(t, s, s.now + length) then s.(now := s.now + length) else s
    case Fetch(ids) =>
      if forall id :: id in ids ==> Fetchable(t, s, id) then Fetched(t, s, ids) else s
    case Drop(ids, written) =>
      if ids <= s.transit.Keys
      then s.(transit := s.transit - ids, rows := if written then s.rows - ids else s.rows)
      else s
    case HandOver =>
      s.(held := s.held + s.transit.Keys, running := s.running + s.transit.Keys, transit := map[])
    case Settle(ids, written) =>
      if ids <= s.running
      then s.(running := s.running - ids,
              rows := if written then s.rows - ids else s.rows,
              settled := if written then s.settled + At(ids, s.now) else s.settled,
              releasing := s.releasing + At(ids, s.now))
      else s
    case Release => s.(held := s.held - s.releasing.Keys, releasing := map[], settled := map[])
    case HandBack(written) =>
      if s.releasing == map[]
      then s.(rows := if written then Extended(s.rows, s.held, s.now - Microsecond) else s.rows,
              held := {}, running := {}, transit := map[])
      else s
    case Wake =>
      if s.renewer.Sleeping? && s.stopped.None? && s.now == s.renewer.since + t.interval
      then s.(renewer := if s.held == {} then Sleeping(s.now, s.renewer.misses)
                         else Renewing(s.held, s.now, s.renewer.misses, false))
      else s
    case Extend =>
      if s.renewer.Renewing? && !s.renewer.extended
      then s.(rows := Extended(s.rows, s.renewer.snapshot, s.now + t.lease), renewer := s.renewer.(extended := true))
      else s
    case Return =>
      if s.renewer.Renewing? && s.renewer.extended then s.(renewer := Sleeping(s.now, 0)) else s
    case Fail =>
      if s.renewer.Renewing? && !s.renewer.extended && s.renewer.misses < t.failures
      then s.(renewer := Sleeping(s.now, s.renewer.misses + 1))
      else s
    case Shutdown => if s.stopped.None? then s.(stopped := Some(s.now)) else s
    case Reclaimed(ids) =>
      if forall id :: id in ids ==> id in s.rows && s.rows[id] < s.now then s.(rows := s.rows - ids) else s
  }

  function Fetched(t: Timing, s: State, ids: set<JobId>): State {
    s.(rows := s.rows + At(ids, s.now + t.lease), transit := s.transit + At(ids, s.now))
  }

  function At(ids: set<JobId>, moment: real): map<JobId, real> {
    map id | id in ids :: moment
  }

  function Extended(rows: map<JobId, real>, ids: set<JobId>, expiry: real): map<JobId, real> {
    map id | id in rows :: if id in ids then expiry else rows[id]
  }

  function After(t: Timing, events: seq<Event>): State {
    if events == [] then Start
    else Next(t, After(t, events[..|events| - 1]), events[|events| - 1])
  }

  // ---- what every moment keeps ---------------------------------------------

  /** The moment the lease of a held job is sure to last to. */
  function Until(t: Timing, s: State, id: JobId): real
    requires t.Sensible() && s.renewer.misses <= t.failures
  {
    var left := t.failures - s.renewer.misses;
    match s.renewer
    case Sleeping(since, _) =>
      if s.stopped.Some? then s.stopped.value + t.drain
      else since + t.interval + t.Span(left) + t.Margin()
    case Renewing(snapshot, since, _, extended) =>
      if extended || id !in snapshot then since + t.Span(t.failures + 1) + t.Margin()
      else since + t.Span(left) + t.Margin()
  }

  predicate InTime(t: Timing, s: State) {
    && s.renewer.since <= s.now
    && s.renewer.misses <= t.failures
    && MayPass(t, s, s.now)
    && (s.stopped.Some? ==> s.stopped.value <= s.now)
    && (s.stopped.Some? && s.renewer.Renewing? ==> s.stopped.value <= s.renewer.since + t.roundTrip)
  }

  predicate LeasesLast(t: Timing, s: State)
    requires t.Sensible() && s.renewer.misses <= t.failures
  {
    && (forall id :: id in s.held && id in s.rows ==> s.rows[id] >= Until(t, s, id))
    && (forall id :: id in s.transit ==>
          id in s.rows && s.transit[id] <= s.now && s.rows[id] >= s.transit[id] + t.lease)
  }

  /** The in-flight set is what the child runs and what awaits its release, and
      nothing is in two places at once. */
  predicate Accounted(s: State) {
    && s.held == s.running + s.releasing.Keys
    && (forall id :: id in s.running ==> id in s.rows && id !in s.transit)
    && (forall id :: id in s.releasing ==> !s.Claims(id))
    && (forall id :: id in s.settled ==> id in s.releasing && id !in s.rows && s.settled[id] == s.releasing[id])
    && (forall id :: id in s.releasing && id !in s.rows ==> id in s.settled)
  }

  predicate Kept(t: Timing, s: State)
    requires t.Sensible()
  {
    InTime(t, s) && LeasesLast(t, s) && Accounted(s)
  }

  predicate Safe(t: Timing)
    requires t.Sensible()
  {
    t.HoldsOut() && t.Prompt()
  }

  lemma {:induction false} SpanGrows(t: Timing, m: nat, n: nat)
    requires t.Sensible() && m <= n
    ensures t.Span(m) <= t.Span(n)
    decreases n
  {
    if m < n {
      SpanGrows(t, m, n - 1);
    }
  }

  /** What is held is not expired. */
  lemma HeldLasts(t: Timing, s: State, id: JobId)
    requires t.Sensible() && Kept(t, s) && id in s.held && id in s.rows
    ensures s.rows[id] >= s.now
  {}

  lemma TransitLasts(t: Timing, s: State, id: JobId)
    requires t.Sensible() && t.HoldsOut() && Kept(t, s) && id in s.transit
    ensures id in s.rows && s.rows[id] >= s.now
  {}

  lemma FetchedIsFresh(t: Timing, s: State, id: JobId)
    requires t.Sensible() && t.Prompt() && Kept(t, s) && Fetchable(t, s, id)
    ensures id !in s.running && id !in s.releasing && id !in s.transit && id !in s.held
  {}

  lemma FetchedLast(t: Timing, s: State, ids: set<JobId>)
    requires t.Sensible() && InTime(t, s) && LeasesLast(t, s)
    requires forall id :: id in ids ==> id !in s.held && id !in s.transit
    ensures InTime(t, Fetched(t, s, ids)) && LeasesLast(t, Fetched(t, s, ids))
  {
    var after := Fetched(t, s, ids);
    forall id | id in after.transit
      ensures id in after.rows && after.transit[id] <= s.now && after.rows[id] >= after.transit[id] + t.lease
      ensures s.now <= after.transit[id] + t.handover
    {}
  }

  lemma FetchKeeps(t: Timing, s: State, ids: set<JobId>)
    requires t.Sensible() && Safe(t) && Kept(t, s)
    ensures Kept(t, Next(t, s, Fetch(ids)))
  {
    if forall id :: id in ids ==> Fetchable(t, s, id) {
      forall id | id in ids ensures id !in s.running && id !in s.releasing && id !in s.transit && id !in s.held {
        FetchedIsFresh(t, s, id);
      }
      FetchedLast(t, s, ids);
    }
  }

  lemma HandOverKeeps(t: Timing, s: State)
    requires t.Sensible() && t.HoldsOut() && Kept(t, s)
    ensures Kept(t, Next(t, s, HandOver))
  {
    var after := Next(t, s, HandOver);
    SpanGrows(t, t.failures - s.renewer.misses, t.failures);
    forall id | id in after.held && id in after.rows ensures after.rows[id] >= Until(t, after, id) {
      if id in s.transit {
        assert s.rows[id] >= s.now - t.handover + t.lease;
      }
    }
  }

  lemma SettleKeepsAccount(t: Timing, s: State, ids: set<JobId>, written: bool)
    requires Accounted(s) && ids <= s.running
    ensures Accounted(Next(t, s, Settle(ids, written)))
  {
    assert s.running + s.releasing.Keys == (s.running - ids) + (s.releasing.Keys + ids);
  }

  lemma SettleKeepsTime(t: Timing, s: State, ids: set<JobId>, written: bool)
    requires t.Sensible() && InTime(t, s) && LeasesLast(t, s) && Accounted(s) && ids <= s.running
    ensures var after := Next(t, s, Settle(ids, written)); InTime(t, after) && LeasesLast(t, after)
  {
    assert forall id :: id in ids ==> id !in s.transit;
  }

  lemma SettleKeeps(t: Timing, s: State, ids: set<JobId>, written: bool)
    requires t.Sensible() && Kept(t, s)
    ensures Kept(t, Next(t, s, Settle(ids, written)))
  {
    if ids <= s.running {
      SettleKeepsAccount(t, s, ids, written);
      SettleKeepsTime(t, s, ids, written);
    }
  }

  lemma ReleaseKeeps(t: Timing, s: State)
    requires t.Sensible() && Kept(t, s)
    ensures Kept(t, Next(t, s, Release))
  {}

  lemma LeavingKeeps(t: Timing, s: State, e: Event)
    requires t.Sensible() && Kept(t, s) && (e.Drop? || e.HandBack?)
    ensures Kept(t, Next(t, s, e))
  {}

  lemma ReclaimKeeps(t: Timing, s: State, ids: set<JobId>)
    requires t.Sensible() && t.HoldsOut() && Kept(t, s)
    ensures Kept(t, Next(t, s, Reclaimed(ids)))
  {
    forall id | id in s.rows && s.rows[id] < s.now ensures id !in s.held && id !in s.transit {
      if id in s.held {
        HeldLasts(t, s, id);
      }
      if id in s.transit {
        TransitLasts(t, s, id);
      }
    }
  }

  lemma WakeKeeps(t: Timing, s: State)
    requires t.Sensible() && Kept(t, s)
    ensures Kept(t, Next(t, s, Wake))
  {}

  lemma ExtendKeeps(t: Timing, s: State, e: Event)
    requires t.Sensible() && t.HoldsOut() && Kept(t, s) && (e.Extend? || e.Return?)
    ensures Kept(t, Next(t, s, e))
  {}

  lemma FailKeeps(t: Timing, s: State)
    requires t.Sensible() && t.HoldsOut() && Kept(t, s)
    ensures Kept(t, Next(t, s, Fail))
  {
    if s.renewer.misses < t.failures {
      SpanGrows(t, t.failures - s.renewer.misses - 1, t.failures);
    }
  }

  lemma ShutdownKeeps(t: Timing, s: State)
    requires t.Sensible() && t.HoldsOut() && Kept(t, s)
    ensures Kept(t, Next(t, s, Shutdown))
  {}

  lemma TickKeeps(t: Timing, s: State, length: real)
    requires t.Sensible() && Kept(t, s)
    ensures Kept(t, Next(t, s, Tick(length)))
  {}

  lemma NextKeeps(t: Timing, s: State, e: Event)
    requires t.Sensible() && Safe(t) && Kept(t, s)
    ensures Kept(t, Next(t, s, e))
  {
    match e
    case Tick(length) => TickKeeps(t, s, length);
    case Fetch(ids) => FetchKeeps(t, s, ids);
    case Drop(_, _) => LeavingKeeps(t, s, e);
    case HandOver => HandOverKeeps(t, s);
    case Settle(ids, written) => SettleKeeps(t, s, ids, written);
    case Release => ReleaseKeeps(t, s);
    case HandBack(_) => LeavingKeeps(t, s, e);
    case Wake => WakeKeeps(t, s);
    case Extend => ExtendKeeps(t, s, e);
    case Return => ExtendKeeps(t, s, e);
    case Fail => FailKeeps(t, s);
    case Shutdown => ShutdownKeeps(t, s);
    case Reclaimed(ids) => ReclaimKeeps(t, s, ids);
  }

  lemma {:induction false} ReachableKept(t: Timing, events: seq<Event>)
    requires t.Sensible() && Safe(t)
    ensures Kept(t, After(t, events))
    decreases |events|
  {
    if events != [] {
      ReachableKept(t, events[..|events| - 1]);
      NextKeeps(t, After(t, events[..|events| - 1]), events[|events| - 1]);
    }
  }

  lemma KeptIsSafe(t: Timing, s: State, id: JobId)
    requires t.Sensible() && t.HoldsOut() && Kept(t, s)
    ensures !s.Exposes(id)
  {
    if id in s.running {
      HeldLasts(t, s, id);
    } else if id in s.transit {
      TransitLasts(t, s, id);
    }
  }

  /** When the lease holds out and flushes are prompt, no job on its way to the
      child, in its hands or being drained has an expired lease or none, in any
      run. */
  lemma RunningNeverExpires(t: Timing, events: seq<Event>, id: JobId)
    requires t.Sensible() && Safe(t)
    ensures !After(t, events).Exposes(id)
  {
    ReachableKept(t, events);
    KeptIsSafe(t, After(t, events), id);
  }

  // ---- runs ----------------------------------------------------------------

  /** Steps that ask nothing of the job table. */
  predicate Free(e: Event) {
    e.Tick? || e.HandOver? || e.Wake? || e.Extend? || e.Return? || e.Fail? || e.Shutdown?
  }

  /** A set of states that such steps do not lead out of. */
  ghost predicate Closed(t: Timing, at: iset<State>) {
    forall s, e :: s in at && Free(e) ==> Next(t, s, e) in at
  }

  /** Jobs 0 and 1 can be fetched as soon as they may be, and settled the first
      time they were. */
  ghost predicate Supplied(t: Timing, at: iset<State>) {
    && (forall s, id :: s in at && id < 2 && Fetchable(t, s, id) ==> Next(t, s, Fetch({id})) in at)
    && (forall s, id :: s in at && id < 2 && id in s.running && id !in s.settled ==>
          Next(t, s, Settle({id}, true)) in at)
  }

  /** A release leads from one set of states to another. */
  ghost predicate Releases(t: Timing, at: iset<State>, released: iset<State>) {
    forall s :: s in at ==> Next(t, s, Release) in released
  }

  /** All the runs below need: whatever sets these are, the runs stay in them. */
  ghost predicate Hosts(t: Timing, at: iset<State>, released: iset<State>) {
    Start in at && Closed(t, at) && Supplied(t, at) && Releases(t, at, released) && Closed(t, released)
  }

  ghost predicate Reached(t: Timing, s: State) {
    exists events :: After(t, events) == s
  }

  ghost function Reachable(t: Timing): iset<State> {
    iset s | Reached(t, s)
  }

  lemma OneMore(t: Timing, s: State, e: Event)
    requires Reached(t, s)
    ensures Reached(t, Next(t, s, e))
  {
    var events :| After(t, events) == s;
    var more := events + [e];
    assert more[..|more| - 1] == events;
    assert After(t, more) == Next(t, s, e);
  }

  lemma ReachableHosts(t: Timing)
    ensures Hosts(t, Reachable(t), Reachable(t))
  {
    assert After(t, []) == Start;
    forall s, e | Reached(t, s) ensures Reached(t, Next(t, s, e)) {
      OneMore(t, s, e);
    }
  }

  lemma Step(t: Timing, at: iset<State>, s: State, e: Event, after: State)
    requires Closed(t, at) && s in at && Free(e) && Next(t, s, e) == after
    ensures after in at
  {}

  /** Awake after a full sleep, not shut down, with no renewal missed. */
  predicate AtWake(t: Timing, s: State) {
    s.renewer == Sleeping(s.now - t.interval, 0) && s.stopped.None?
  }

  /** The same but for the clock and what renewals made of held leases. */
  predicate Apart(a: State, b: State) {
    && b == a.(now := b.now, rows := b.rows, renewer := b.renewer)
    && b.rows.Keys == a.rows.Keys
    && (forall id :: id in a.rows && id !in a.held ==> b.rows[id] == a.rows[id])
  }

  function Intervals(t: Timing, n: nat): (length: real)
    requires t.Sensible()
    ensures length >= 0.0
  {
    if n == 0 then 0.0 else Intervals(t, n - 1) + t.interval
  }

  /** A renewal, if there is anything to renew, that takes no time. */
  lemma RenewAtOnce(t: Timing, at: iset<State>, s: State) returns (back: State)
    requires t.Sensible() && Closed(t, at) && s in at && AtWake(t, s)
    ensures back in at && Apart(s, back) && back.now == s.now && back.renewer == Sleeping(s.now, 0)
  {
    if s.held == {} {
      back := s.(renewer := Sleeping(s.now, 0));
      Step(t, at, s, Wake, back);
    } else {
      var woken := s.(renewer := Renewing(s.held, s.now, 0, false));
      Step(t, at, s, Wake, woken);
      back := ExtendAtOnce(t, at, woken);
    }
  }

  lemma ExtendAtOnce(t: Timing, at: iset<State>, s: State) returns (back: State)
    requires Closed(t, at) && s in at && s.renewer == Renewing(s.held, s.now, 0, false)
    ensures back in at
    ensures back == s.(rows := Extended(s.rows, s.held, s.now + t.lease), renewer := Sleeping(s.now, 0))
  {
    var rows := Extended(s.rows, s.held, s.now + t.lease);
    var extended := s.(rows := rows, renewer := s.renewer.(extended := true));
    Step(t, at, s, Extend, extended);
    back := s.(rows := rows, renewer := Sleeping(s.now, 0));
    Step(t, at, extended, Return, back);
  }

  lemma QuickTurn(t: Timing, at: iset<State>, s: State) returns (after: State)
    requires t.Sensible() && Closed(t, at) && s in at && AtWake(t, s)
    requires forall id :: id in s.transit ==> s.now + t.interval <= s.transit[id] + t.handover
    requires forall id :: id in s.releasing ==> s.now + t.interval <= s.releasing[id] + t.flush
    ensures after in at && AtWake(t, after) && Apart(s, after) && after.now == s.now + t.interval
  {
    var back := RenewAtOnce(t, at, s);
    after := Wait(t, at, back, t.interval);
  }

  lemma {:induction false} QuickTurns(t: Timing, at: iset<State>, s: State, n: nat) returns (after: State)
    requires t.Sensible() && Closed(t, at) && s in at && AtWake(t, s)
    requires forall id :: id in s.transit ==> s.now + Intervals(t, n) <= s.transit[id] + t.handover
    requires forall id :: id in s.releasing ==> s.now + Intervals(t, n) <= s.releasing[id] + t.flush
    ensures after in at && AtWake(t, after) && Apart(s, after) && after.now == s.now + Intervals(t, n)
    decreases n
  {
    if n == 0 {
      after := s;
    } else {
      var before := QuickTurns(t, at, s, n - 1);
      after := QuickTurn(t, at, before);
    }
  }

  lemma {:induction false} IntervalsAre(t: Timing, n: nat)
    requires t.Sensible()
    ensures Intervals(t, n) == n as real * t.interval
  {
    if n > 0 {
      IntervalsAre(t, n - 1);
    }
  }

  lemma Shrinks(part: real, whole: real) returns (product: real)
    requires 0.0 <= part < 1.0 && whole > 0.0
    ensures product == part * whole && 0.0 <= product < whole
  {
    product := part * whole;
    assert (1.0 - part) * whole > 0.0;
  }

  /** A length of time as whole intervals and a rest. */
  lemma WholeIntervals(t: Timing, length: real) returns (n: nat, rest: real)
    requires t.Sensible() && length >= 0.0
    ensures length == Intervals(t, n) + rest && 0.0 <= rest < t.interval
  {
    var ratio := length / t.interval;
    n := ratio.Floor;
    rest := Shrinks(ratio - n as real, t.interval);
    IntervalsAre(t, n);
    assert ratio * t.interval == length;
  }

  lemma FetchOne(t: Timing, s: State, id: JobId)
    requires s.transit == map[] && Fetchable(t, s, id)
    ensures Next(t, s, Fetch({id})) == s.(rows := s.rows[id := s.now + t.lease], transit := map[id := s.now])
  {}

  /** Just after the start, `a` is fetched and handed over. */
  lemma FirstJob(t: Timing, at: iset<State>, a: JobId) returns (s: State)
    requires t.Sensible() && Start in at && Closed(t, at) && Supplied(t, at) && a < 2
    ensures s in at
    ensures s == Start.(rows := map[a := t.lease], held := {a}, running := {a})
  {
    var fetched := Start.(rows := map[a := t.lease], transit := map[a := 0.0]);
    FetchOne(t, Start, a);
    assert fetched in at;
    s := fetched.(held := {a}, running := {a}, transit := map[]);
    Step(t, at, fetched, HandOver, s);
  }

  lemma Wait(t: Timing, at: iset<State>, s: State, length: real) returns (after: State)
    requires t.Sensible() && Closed(t, at) && s in at && length >= 0.0 && MayPass(t, s, s.now + length)
    ensures after in at && after == s.(now := s.now + length)
  {
    after := s.(now := s.now + length);
    Step(t, at, s, Tick(length), after);
  }

  // ---- a lease that is too short -------------------------------------------

  lemma FetchSecond(t: Timing, at: iset<State>, s: State, b: JobId) returns (after: State)
    requires Supplied(t, at) && s in at && b < 2 && s.transit == map[] && Fetchable(t, s, b)
    ensures after in at
    ensures after == s.(rows := s.rows[b := s.now + t.lease], transit := map[b := s.now])
  {
    after := s.(rows := s.rows[b := s.now + t.lease], transit := map[b := s.now]);
    FetchOne(t, s, b);
  }

  /** `a` is held, and `b` was just fetched, at any moment of the first interval. */
  lemma OneHeldOneFetched(t: Timing, at: iset<State>, a: JobId, b: JobId, f: real) returns (s: State)
    requires t.Sensible() && Start in at && Closed(t, at) && Supplied(t, at) && a < 2 && b < 2 && a != b
    requires 0.0 <= f <= t.interval
    ensures s in at && OneOnItsWay(t, s, a, b, f) && s.now == f && s.renewer == Sleeping(0.0, 0) && s.stopped.None?
  {
    var began := FirstJob(t, at, a);
    var ready := Wait(t, at, began, f);
    s := FetchSecond(t, at, ready, b);
  }

  /** `a` is held; `b` was fetched `handover` ago and is still on its way, and
      the renew loop is about to wake. */
  lemma LongInTransit(t: Timing, at: iset<State>, a: JobId, b: JobId) returns (s: State, f: real)
    requires t.Sensible() && Start in at && Closed(t, at) && Supplied(t, at) && a < 2 && b < 2 && a != b
    ensures s in at && AtWake(t, s) && s.now == f + t.handover && OneOnItsWay(t, s, a, b, f)
  {
    var turns, rest := WholeIntervals(t, t.handover);
    f := t.interval - rest;
    var fetched := OneHeldOneFetched(t, at, a, b, f);
    var due := Wait(t, at, fetched, rest);
    s := QuickTurns(t, at, due, turns);
  }

  predicate OneOnItsWay(t: Timing, s: State, a: JobId, b: JobId, f: real) {
    && s.transit == map[b := f] && s.held == {a} && s.running == {a} && s.releasing == map[]
    && s.rows.Keys == {a, b} && s.rows[b] == f + t.lease
  }

  /** `b` is handed over right after a snapshot. */
  lemma JustMissed(t: Timing, at: iset<State>, s: State, a: JobId, b: JobId, f: real) returns (after: State)
    requires Closed(t, at) && s in at && AtWake(t, s) && OneOnItsWay(t, s, a, b, f)
    ensures after in at
    ensures after == s.(renewer := Renewing({a}, s.now, 0, false), held := {a, b}, running := {a, b}, transit := map[])
  {
    var woken := s.(renewer := Renewing({a}, s.now, 0, false));
    Step(t, at, s, Wake, woken);
    after := woken.(held := {a, b}, running := {a, b}, transit := map[]);
    assert {a} + s.transit.Keys == {a, b};
    Step(t, at, woken, HandOver, after);
  }

  /** The renewal of that snapshot takes its whole round trip. */
  lemma SlowRenewal(t: Timing, at: iset<State>, s: State) returns (after: State)
    requires t.Sensible() && Closed(t, at) && s in at && s.transit == map[] && s.releasing == map[] && s.stopped.None?
    requires s.renewer.Renewing? && s.renewer.since == s.now && !s.renewer.extended
    ensures after in at
    ensures var now := s.now + t.roundTrip;
            after == s.(now := now, renewer := Sleeping(now, 0),
                        rows := Extended(s.rows, s.renewer.snapshot, s.now + t.lease))
  {
    var rows := Extended(s.rows, s.renewer.snapshot, s.now + t.lease);
    var extended := s.(rows := rows, renewer := s.renewer.(extended := true));
    Step(t, at, s, Extend, extended);
    var waited := Wait(t, at, extended, t.roundTrip);
    after := waited.(renewer := Sleeping(waited.now, 0));
    Step(t, at, waited, Return, after);
  }

  /** Nothing on its way anywhere, something held, just back to sleep. */
  predicate Settled(s: State) {
    && s.transit == map[] && s.releasing == map[] && s.held != {} && s.stopped.None?
    && s.renewer.Sleeping? && s.renewer.since == s.now
  }

  lemma SlowTurn(t: Timing, at: iset<State>, s: State) returns (after: State)
    requires t.Sensible() && Closed(t, at) && s in at && Settled(s)
    ensures after in at
    ensures after == s.(now := s.now + (t.interval + t.roundTrip),
                        renewer := Renewing(s.held, s.now + t.interval, s.renewer.misses, false))
  {
    var rested := Wait(t, at, s, t.interval);
    var woken := rested.(renewer := Renewing(s.held, rested.now, s.renewer.misses, false));
    Step(t, at, rested, Wake, woken);
    after := Wait(t, at, woken, t.roundTrip);
  }

  /** Time has passed and renewals have failed; nothing else has changed. */
  predicate Missed(s: State, after: State, length: real, n: nat)
    requires s.renewer.Sleeping?
  {
    after == s.(now := s.now + length, renewer := Sleeping(s.now + length, s.renewer.misses + n))
  }

  lemma StillSettled(s: State, after: State, length: real, n: nat)
    requires Settled(s) && Missed(s, after, length, n)
    ensures Settled(after) && after.renewer.misses == s.renewer.misses + n
  {}

  lemma MissedOn(s: State, mid: State, after: State, first: real, n: nat, second: real)
    requires s.renewer.Sleeping? && Missed(s, mid, first, n) && Missed(mid, after, second, 1)
    ensures Missed(s, after, first + second, n + 1)
  {}

  lemma FailingTurn(t: Timing, at: iset<State>, s: State) returns (after: State)
    requires t.Sensible() && Closed(t, at) && s in at && Settled(s) && s.renewer.misses < t.failures
    ensures after in at && Missed(s, after, t.interval + t.roundTrip, 1)
  {
    var waited := SlowTurn(t, at, s);
    after := waited.(renewer := Sleeping(waited.now, s.renewer.misses + 1));
    Step(t, at, waited, Fail, after);
  }

  /** The renew loop goes round `n` times, each turn as long as it can be, and
      fails each time. */
  lemma {:induction false} FailingTurns(t: Timing, at: iset<State>, s: State, n: nat) returns (after: State)
    requires t.Sensible() && Closed(t, at) && s in at && Settled(s) && s.renewer.misses + n <= t.failures
    ensures after in at && Missed(s, after, t.Span(n), n)
    decreases n
  {
    if n == 0 {
      after := s;
    } else {
      var before := FailingTurns(t, at, s, n - 1);
      StillSettled(s, before, t.Span(n - 1), n - 1);
      after := FailingTurn(t, at, before);
      MissedOn(s, before, after, t.Span(n - 1), n - 1, t.interval + t.roundTrip);
    }
  }

  /** From just after a renewal, the child is left without another for as long
      as it can be: the remaining turns fail, and then either the last one
      takes its whole time or the worker is shut down before it starts. */
  lemma LongWait(t: Timing, at: iset<State>, s: State) returns (after: State)
    requires t.Sensible() && Closed(t, at) && s in at && Settled(s) && s.renewer.misses == 0
    ensures after in at
    ensures after.now == s.now - t.roundTrip + t.Span(t.failures + 1) + t.Margin()
    ensures after.rows == s.rows && after.running == s.running
  {
    var failed := FailingTurns(t, at, s, t.failures);
    if t.roundTrip < t.drain {
      var rested := Wait(t, at, failed, t.interval);
      var stopped := rested.(stopped := Some(rested.now));
      Step(t, at, rested, Shutdown, stopped);
      after := Wait(t, at, stopped, t.drain);
    } else {
      after := SlowTurn(t, at, failed);
    }
  }

  /** When the lease does not hold out, some run lets a job expire in the
      child's hands, whatever the lease, interval and latencies are. */
  lemma SomeRunExpires(t: Timing, at: iset<State>) returns (s: State, id: JobId)
    requires t.Sensible() && !t.HoldsOut() && Start in at && Closed(t, at) && Supplied(t, at)
    ensures s in at && s.Exposes(id) && id in s.rows
  {
    id := 1;
    var f: real;
    s, f := LongInTransit(t, at, 0, id);
    s := JustMissed(t, at, s, 0, id, f);
    s := SlowRenewal(t, at, s);
    s := LongWait(t, at, s);
  }

  // ---- a flush that is too slow --------------------------------------------

  /** The job has been settled for `comeback`, and not been released yet. */
  lemma SettledNotReleased(t: Timing, at: iset<State>, a: JobId) returns (s: State)
    requires t.Sensible() && !t.Prompt() && Start in at && Closed(t, at) && Supplied(t, at) && a < 2
    ensures s in at && AtWake(t, s)
    ensures s.rows == map[] && s.transit == map[] && s.held == {a} && s.running == {}
    ensures s.releasing.Keys == {a} && s.settled.Keys == {a} && s.settled[a] + t.comeback == s.now
  {
    var turns, rest := WholeIntervals(t, t.comeback);
    var began := FirstJob(t, at, a);
    var ready := Wait(t, at, began, t.interval - rest);
    var done := ready.(rows := map[], running := {}, settled := map[a := ready.now], releasing := map[a := ready.now]);
    SettleOne(t, ready, a);
    assert done in at;
    var due := Wait(t, at, done, rest);
    s := QuickTurns(t, at, due, turns);
  }

  lemma SettleOne(t: Timing, s: State, a: JobId)
    requires s.running == {a} && s.rows.Keys == {a}
    ensures Next(t, s, Settle({a}, true)) ==
              s.(running := {}, rows := map[], settled := s.settled[a := s.now], releasing := s.releasing[a := s.now])
  {
    assert s.running - {a} == {} && s.rows - {a} == map[];
    assert s.settled + At({a}, s.now) == s.settled[a := s.now];
    assert s.releasing + At({a}, s.now) == s.releasing[a := s.now];
  }

  /** It is fetched again, handed over and then released: the child runs a job
      that the in-flight set no longer holds. */
  lemma ReleasedTooLate(t: Timing, at: iset<State>, released: iset<State>, s: State, a: JobId) returns (after: State)
    requires t.Sensible() && Hosts(t, at, released) && a < 2 && s in at && AtWake(t, s)
    requires s.rows == map[] && s.transit == map[] && s.held == {a} && s.running == {}
    requires s.releasing.Keys == {a} && s.settled.Keys == {a} && s.settled[a] + t.comeback == s.now
    ensures after in released && AtWake(t, after)
    ensures after.now == s.now && after.rows == map[a := s.now + t.lease] && after.transit == map[]
    ensures after.held == {} && after.running == {a} && after.releasing == map[]
  {
    var fetched := FetchSecond(t, at, s, a);
    var handed := fetched.(running := {a}, transit := map[]);
    assert s.held + {a} == s.held;
    Step(t, at, fetched, HandOver, handed);
    after := handed.(held := {}, releasing := map[], settled := map[]);
    assert Next(t, handed, Release) == after;
  }

  /** When a flush may still be under way as a job it settled comes due again,
      some run lets that job expire in the child's hands, however long the lease
      and however fast the renewals: no renewal ever includes it. */
  lemma SomeRefetchExpires(t: Timing, at: iset<State>, released: iset<State>) returns (s: State, id: JobId)
    requires t.Sensible() && !t.Prompt() && Hosts(t, at, released)
    ensures s in released && s.Exposes(id) && id in s.rows && id !in s.held
  {
    id := 0;
    s := SettledNotReleased(t, at, id);
    s := ReleasedTooLate(t, at, released, s, id);
    var turns, rest := WholeIntervals(t, t.lease);
    s := QuickTurns(t, released, s, turns + 1);
  }

  /** So unless the settings are safe, a job expires under its child in any sets of
      states that host the runs. */
  lemma UnsafeExpires(t: Timing, at: iset<State>, released: iset<State>) returns (s: State, id: JobId)
    requires t.Sensible() && !Safe(t) && Hosts(t, at, released)
    ensures (s in at || s in released) && s.Exposes(id) && id in s.rows
  {
    if t.HoldsOut() {
      s, id := SomeRefetchExpires(t, at, released);
    } else {
      s, id := SomeRunExpires(t, at);
    }
  }

  /** Which settings keep every running job leased, exactly. */
  lemma SafeExactlyWhen(t: Timing)
    requires t.Sensible()
    ensures Safe(t) <==> forall s, id :: Reached(t, s) ==> !s.Exposes(id)
  {
    if Safe(t) {
      forall s, id | Reached(t, s) ensures !s.Exposes(id) {
        var events :| After(t, events) == s;
        RunningNeverExpires(t, events, id);
      }
    } else {
      ReachableHosts(t);
      var s, id := UnsafeExpires(t, Reachable(t), Reachable(t));
    }
  }

  // ---- the settings a worker accepts ---------------------------------------

  lemma OneTurn(t: Timing)
    requires t.Sensible()
    ensures t.Span(1) == t.interval + t.roundTrip
  {
    assert t.Span(0) == 0.0;
  }

  /** Settings with no failed renewal, no shutdown and one latency throughout. */
  function Smooth(lease: real, interval: real, latency: real): Timing {
    Timing(lease, interval, latency, latency, 0.0, 0, latency, 2.0 * latency)
  }

  /** `Config::validate` accepts an interval exactly when some positive
      latencies are safe with it, as long as no renewal fails, no flush is slow
      and the worker is not shut down. */
  lemma ValidationIsTheLimit(lease: real, interval: real)
    requires lease > 0.0 && interval > 0.0
    ensures interval < lease <==> exists latency :: latency > 0.0 && Safe(Smooth(lease, interval, latency))
  {
    if interval < lease {
      var latency := (lease - interval) / 3.0;
      OneTurn(Smooth(lease, interval, latency));
      assert Safe(Smooth(lease, interval, latency));
    } else {
      forall latency | latency > 0.0 ensures !Safe(Smooth(lease, interval, latency)) {
        OneTurn(Smooth(lease, interval, latency));
      }
    }
  }

  /** The default settings ride out one failed renewal when a handover and
      three round trips fit into ten seconds, and never two. */
  lemma DefaultsRideOutOneFailure(t: Timing)
    requires t.Sensible() && t.lease == 30.0 && t.interval == 10.0 && t.drain == 0.0 && t.roundTrip > 0.0
    ensures t.failures == 1 ==> (t.HoldsOut() <==> t.handover + 3.0 * t.roundTrip <= 10.0)
    ensures t.failures == 2 ==> !t.HoldsOut()
  {
    OneTurn(t);
    assert t.Span(2) == t.Span(1) + (10.0 + t.roundTrip);
    assert t.Span(3) == t.Span(2) + (10.0 + t.roundTrip);
  }

  /** With the default settings a worker that is shutting down can lose a job
      it is still draining to another worker, however fast everything else is:
      the drain timeout alone is as long as the lease. */
  lemma DefaultsExposeDraining(t: Timing) returns (s: State, id: JobId)
    requires t.Sensible() && t.lease == 30.0 && t.interval == 10.0 && t.drain >= 30.0
    ensures Reached(t, s) && s.Exposes(id)
  {
    OneTurn(t);
    SpanGrows(t, 1, t.failures + 1);
    ReachableHosts(t);
    s, id := SomeRunExpires(t, Reachable(t));
  }
}
