/** Leaderless schedules: every worker tries to fire what is due, and the row
    decides who wins. */
module Cron {
  import opened Prelude
  import opened JobTable

  type Name = string

  /** A schedule as a child declares it. */
  datatype Entry = Entry(queue: string, task: string, payload: Bytes, expression: string, timezone: string)

  datatype Schedule = Schedule(entry: Entry, paused: bool, nextRunAt: real)

  /** A job that a schedule inserted, and the occurrence it was for. */
  datatype Fired = Fired(name: Name, occurrence: real, job: NewJob)

  datatype State = State(rows: map<Name, Schedule>, fired: seq<Fired>)

  datatype Event =
    | Upsert(name: Name, entry: Entry, next: real)
    | Fire(name: Name, next: real, now: real)
    | SetPaused(name: Name, paused: bool)

  /** The defaults of the job table, for the columns the insert leaves out. */
  function JobOf(entry: Entry): NewJob {
    NewJob(entry.queue, entry.task, entry.payload, 0, 20, None, false)
  }

  predicate SameTiming(a: Entry, b: Entry) {
    a.expression == b.expression && a.timezone == b.timezone
  }

  /** Re-registering keeps the clock unless the timing changed, and never
      touches `paused`. */
  function Upserted(rows: map<Name, Schedule>, name: Name, entry: Entry, next: real): map<Name, Schedule> {
    if name !in rows then rows[name := Schedule(entry, false, next)]
    else rows[name := Schedule(entry, rows[name].paused,
                               if SameTiming(rows[name].entry, entry) then rows[name].nextRunAt else next)]
  }

  predicate Due(rows: map<Name, Schedule>, name: Name, now: real) {
    name in rows && !rows[name].paused && rows[name].nextRunAt <= now
  }

  /** The conditional update and the insert, in one statement. */
  function Next(s: State, e: Event): State {
    match e
    case Upsert(name, entry, next) => s.(rows := Upserted(s.rows, name, entry, next))
    case Fire(name, next, now) =>
      if Due(s.rows, name, now)
      then State(s.rows[name := s.rows[name].(nextRunAt := next)],
                 s.fired + [Fired(name, s.rows[name].nextRunAt, JobOf(s.rows[name].entry))])
      else s
    case SetPaused(name, paused) =>
      if name in s.rows then s.(rows := s.rows[name := s.rows[name].(paused := paused)]) else s
  }

  function RunFrom(s: State, events: seq<Event>): State {
    if events == [] then s else Next(RunFrom(s, events[..|events| - 1]), events[|events| - 1])
  }

  function After(events: seq<Event>): State {
    RunFrom(State(map[], []), events)
  }

  // ---- each occurrence once ------------------------------------------------

  /** The step moves on: a fire that lands names a run later than the one it
      fires, and a change of timing starts after what has been fired. */
  predicate Advances(s: State, e: Event) {
    match e
    case Upsert(name, entry, next) =>
      name in s.rows && !SameTiming(s.rows[name].entry, entry) ==>
        forall i :: 0 <= i < |s.fired| && s.fired[i].name == name ==> s.fired[i].occurrence < next
    case Fire(name, next, now) => Due(s.rows, name, now) ==> s.rows[name].nextRunAt < next
    case _ => true
  }

  predicate AdvancesAt(s: State, events: seq<Event>, i: nat)
    requires i < |events|
  {
    Advances(RunFrom(s, events[..i]), events[i])
  }

  predicate Advancing(s: State, events: seq<Event>) {
    forall i :: 0 <= i < |events| ==> AdvancesAt(s, events, i)
  }

  /** Occurrences of one schedule are fired in strictly increasing order, all
      before the one it waits for now. */
  predicate InOrder(s: State) {
    && (forall i, j :: 0 <= i < j < |s.fired| && s.fired[i].name == s.fired[j].name ==>
          s.fired[i].occurrence < s.fired[j].occurrence)
    && (forall i :: 0 <= i < |s.fired| ==>
          s.fired[i].name in s.rows && s.fired[i].occurrence < s.rows[s.fired[i].name].nextRunAt)
  }

  /** Step by step and exactly: order survives the steps that move on, and no
      others. */
  lemma OrderKeptExactlyWhen(s: State, e: Event)
    requires InOrder(s)
    ensures InOrder(Next(s, e)) <==> Advances(s, e)
  {
    var next := Next(s, e);
    match e
    case Fire(name, at, now) =>
      if Due(s.rows, name, now) {
        assert next.fired[|s.fired|].occurrence == s.rows[name].nextRunAt;
        assert forall i :: 0 <= i < |s.fired| ==> next.fired[i] == s.fired[i];
      }
    case _ =>
  }

  predicate InOrderAt(s: State, events: seq<Event>, n: nat)
    requires n <= |events|
  {
    InOrder(RunFrom(s, events[..n]))
  }

  lemma StepAt(s: State, events: seq<Event>, i: nat)
    requires i < |events|
    ensures RunFrom(s, events[..i + 1]) == Next(RunFrom(s, events[..i]), events[i])
  {
    assert events[..i + 1][..i] == events[..i];
  }

  lemma {:induction false} InOrderUpTo(s: State, events: seq<Event>, n: nat)
    requires InOrder(s) && n <= |events| && forall i :: 0 <= i < n ==> AdvancesAt(s, events, i)
    ensures forall i :: 0 <= i <= n ==> InOrderAt(s, events, i)
    decreases n
  {
    if n == 0 {
      assert events[..0] == [];
    } else {
      InOrderUpTo(s, events, n - 1);
      assert InOrderAt(s, events, n - 1) && AdvancesAt(s, events, n - 1);
      StepAt(s, events, n - 1);
      OrderKeptExactlyWhen(RunFrom(s, events[..n - 1]), events[n - 1]);
    }
  }

  /** So the occurrences of a run are in order throughout exactly when each of its
      steps moves on. */
  lemma RunInOrderExactlyWhen(s: State, events: seq<Event>)
    requires InOrder(s)
    ensures (forall n :: 0 <= n <= |events| ==> InOrderAt(s, events, n)) <==> Advancing(s, events)
  {
    if Advancing(s, events) {
      InOrderUpTo(s, events, |events|);
    }
    if forall n :: 0 <= n <= |events| ==> InOrderAt(s, events, n) {
      forall i | 0 <= i < |events| ensures AdvancesAt(s, events, i) {
        assert InOrderAt(s, events, i) && InOrderAt(s, events, i + 1);
        StepAt(s, events, i);
        OrderKeptExactlyWhen(RunFrom(s, events[..i]), events[i]);
      }
    }
  }

  /** However many workers race to fire, and however their due reads, their
      computations of the next run and their updates interleave: each occurrence
      of a schedule inserts at most one job. */
  lemma EachOccurrenceOnce(events: seq<Event>)
    requires Advancing(State(map[], []), events)
    ensures InOrder(After(events))
    ensures forall i, j :: 0 <= i < j < |After(events).fired| ==>
              After(events).fired[i].name != After(events).fired[j].name
              || After(events).fired[i].occurrence != After(events).fired[j].occurrence
  {
    InOrderUpTo(State(map[], []), events, |events|);
    assert InOrderAt(State(map[], []), events, |events|);
    assert events[..|events|] == events;
  }

  /** The next run is computed from the worker's clock. One that lags behind the
      database can compute the very occurrence that is due, and then it is fired
      again. */
  lemma LaggingClockFiresTwice(run: seq<Event>, entry: Entry)
    requires run == [Upsert("nightly", entry, 10.0), Fire("nightly", 10.0, 10.5), Fire("nightly", 10.0, 10.6)]
    ensures |After(run).fired| == 2 && After(run).fired[0] == After(run).fired[1]
    ensures After(run).fired[0].occurrence == 10.0
  {
    var s := State(map[], []);
    assert run[..0] == [] && run[..3] == run;
    StepAt(s, run, 0);
    StepAt(s, run, 1);
    StepAt(s, run, 2);
  }

  /** Clocks that agree do not help a round that is slow: it read 10.0, another
      worker fires that run, and by the time the round gets there the run it had
      computed is due itself. It is fired, named as the next one, and fired
      again. */
  lemma SlowRoundFiresTwice(run: seq<Event>, entry: Entry)
    requires run == [Upsert("tick", entry, 10.0), Fire("tick", 10.5, 10.1), Fire("tick", 10.5, 10.6),
                     Fire("tick", 11.0, 10.7)]
    ensures |After(run).fired| == 3 && After(run).fired[1] == After(run).fired[2]
    ensures After(run).fired[1].occurrence == 10.5
  {
    var s := State(map[], []);
    assert run[..0] == [] && run[..4] == run;
    StepAt(s, run, 0);
    StepAt(s, run, 1);
    StepAt(s, run, 2);
    StepAt(s, run, 3);
  }

  // ---- what is inserted, and when ------------------------------------------

  /** The latest registration of a schedule. */
  function Registered(events: seq<Event>, name: Name): Option<Entry> {
    if events == [] then None else
    var n := |events| - 1;
    if events[n].Upsert? && events[n].name == name then Some(events[n].entry) else Registered(events[..n], name)
  }

  /** Whether an operator last paused it, since it was first registered. */
  predicate Suspended(events: seq<Event>, name: Name) {
    events != [] &&
    var n := |events| - 1;
    if events[n].SetPaused? && events[n].name == name && Registered(events[..n], name).Some? then events[n].paused
    else Suspended(events[..n], name)
  }

  lemma {:induction false} RowsAreRegistered(events: seq<Event>, name: Name)
    ensures name in After(events).rows <==> Registered(events, name).Some?
    ensures name in After(events).rows ==>
              && After(events).rows[name].entry == Registered(events, name).value
              && After(events).rows[name].paused == Suspended(events, name)
    ensures Suspended(events, name) ==> Registered(events, name).Some?
    decreases |events|
  {
    if events != [] {
      var n := |events| - 1;
      RowsAreRegistered(events[..n], name);
      StepAt(State(map[], []), events, n);
      assert events[..n + 1] == events;
    }
  }

  /** A step inserts a job exactly if it fires a schedule that is registered, not
      suspended and due, and the job is the latest registration's: its queue, task
      and arguments, with the defaults of the table for everything else. */
  lemma InsertsExactly(events: seq<Event>, e: Event)
    ensures var s := After(events);
            After(events + [e]).fired ==
            if e.Fire? && Registered(events, e.name).Some? && !Suspended(events, e.name)
               && e.name in s.rows && s.rows[e.name].nextRunAt <= e.now
            then var entry := Registered(events, e.name).value;
                 s.fired + [Fired(e.name, s.rows[e.name].nextRunAt,
                                  NewJob(entry.queue, entry.task, entry.payload, 0, 20, None, false))]
            else s.fired
  {
    if e.Fire? {
      RowsAreRegistered(events, e.name);
    }
    assert (events + [e])[..|events|] == events;
  }

  /** The clock of a schedule is set when it is first registered, by a registration
      with another expression or timezone and by a fire that lands, to the run that
      step names, and by nothing else. */
  lemma ClockMoves(events: seq<Event>, e: Event, name: Name)
    ensures var s, t := After(events), After(events + [e]);
            if Registered(events, name).None? || name !in s.rows
            then e.Upsert? && e.name == name ==> name in t.rows && t.rows[name].nextRunAt == e.next
            else && name in t.rows
                 && t.rows[name].nextRunAt ==
                    if e.Upsert? && e.name == name
                       && !(e.entry.expression == Registered(events, name).value.expression
                            && e.entry.timezone == Registered(events, name).value.timezone) then e.next
                    else if e.Fire? && |t.fired| > |s.fired| && t.fired[|s.fired|].name == name then e.next
                    else s.rows[name].nextRunAt
  {
    RowsAreRegistered(events, name);
    assert (events + [e])[..|events|] == events;
  }

  // ---- paused means paused -------------------------------------------------

  /** From the moment a schedule is paused until an operator resumes it, nothing
      is inserted for it, across any number of re-registrations and attempts to
      fire. */
  lemma {:induction false} PausedInsertsNothing(events: seq<Event>, m: nat, n: nat, name: Name)
    requires m <= n <= |events| && name in After(events[..m]).rows && After(events[..m]).rows[name].paused
    requires forall i :: m <= i < n ==> events[i] != SetPaused(name, false)
    ensures name in After(events[..n]).rows && After(events[..n]).rows[name].paused
    ensures |After(events[..m]).fired| <= |After(events[..n]).fired|
    ensures forall i :: |After(events[..m]).fired| <= i < |After(events[..n]).fired| ==>
              After(events[..n]).fired[i].name != name
    decreases n - m
  {
    if m < n {
      PausedInsertsNothing(events, m, n - 1, name);
      StepAt(State(map[], []), events, n - 1);
    }
  }

  // ---- a round -------------------------------------------------------------

  /** What everybody else did before this worker's statement, and when by the
      database's clock that was executed, if it was. */
  datatype Turn = Turn(others: seq<Event>, at: Option<real>)

  function Tried(s: State, name: Name, next: Option<real>, at: Option<real>): State {
    if next.Some? && at.Some? then Next(s, Fire(name, next.value, at.value)) else s
  }

  /** Whether the statement wins the row. */
  predicate Lands(s: State, name: Name, next: Option<real>, at: Option<real>) {
    next.Some? && at.Some? && Due(s.rows, name, at.value)
  }

  /** A round over what was read as due, each schedule fired at its own moment
      and advanced to the run after one reading of the worker's clock. */
  function Round(s: State, due: seq<Name>, turns: seq<Turn>, nextAfter: (Name, real) -> Option<real>,
                 clock: real): State
    requires |turns| == |due|
    decreases |due|, 1
  {
    if due == [] then s else
    var n := |due| - 1;
    Tried(Met(s, due, turns, nextAfter, clock), due[n], nextAfter(due[n], clock), turns[n].at)
  }

  /** What the last statement of a round finds. */
  function Met(s: State, due: seq<Name>, turns: seq<Turn>, nextAfter: (Name, real) -> Option<real>, clock: real): State
    requires |turns| == |due| > 0
    decreases |due|, 0
  {
    var n := |due| - 1;
    RunFrom(Round(s, due[..n], turns[..n], nextAfter, clock), turns[n].others)
  }

  /** How many of its statements won the row. */
  function Won(s: State, due: seq<Name>, turns: seq<Turn>, nextAfter: (Name, real) -> Option<real>, clock: real): nat
    requires |turns| == |due|
  {
    if due == [] then 0 else
    var n := |due| - 1;
    Won(s, due[..n], turns[..n], nextAfter, clock)
    + if Lands(Met(s, due, turns, nextAfter, clock), due[n], nextAfter(due[n], clock), turns[n].at) then 1 else 0
  }

  predicate Later(nextAfter: (Name, real) -> Option<real>, clock: real, due: seq<Name>) {
    forall i :: 0 <= i < |due| ==> nextAfter(due[i], clock).Some? ==> nextAfter(due[i], clock).value > clock
  }

  /** What others do in between moves on. */
  predicate OthersAdvance(s: State, due: seq<Name>, turns: seq<Turn>, nextAfter: (Name, real) -> Option<real>,
                          clock: real)
    requires |turns| == |due|
  {
    due == [] ||
    var n := |due| - 1;
    && OthersAdvance(s, due[..n], turns[..n], nextAfter, clock)
    && Advancing(Round(s, due[..n], turns[..n], nextAfter, clock), turns[n].others)
  }

  /** Each fire that lands names a run later than the one it fires. */
  predicate FiresAhead(s: State, due: seq<Name>, turns: seq<Turn>, nextAfter: (Name, real) -> Option<real>, clock: real)
    requires |turns| == |due|
  {
    due == [] ||
    var n := |due| - 1;
    var met, next := Met(s, due, turns, nextAfter, clock), nextAfter(due[n], clock);
    && FiresAhead(s, due[..n], turns[..n], nextAfter, clock)
    && (Lands(met, due[n], next, turns[n].at) ==> met.rows[due[n]].nextRunAt < next.value)
  }

  /** In order after every statement of the round. */
  predicate RoundInOrder(s: State, due: seq<Name>, turns: seq<Turn>, nextAfter: (Name, real) -> Option<real>,
                         clock: real)
    requires |turns| == |due|
  {
    && InOrder(Round(s, due, turns, nextAfter, clock))
    && (due == [] || var n := |due| - 1; RoundInOrder(s, due[..n], turns[..n], nextAfter, clock))
  }

  /** A round keeps every occurrence unique throughout, whatever was fired before
      and by whomever, if and only if each of its fires that lands names a later
      run. Rivals that win a row first do no harm. */
  lemma {:induction false} RoundInOrderExactlyWhen(s: State, due: seq<Name>, turns: seq<Turn>,
                                                   nextAfter: (Name, real) -> Option<real>, clock: real)
    requires |turns| == |due| && InOrder(s) && OthersAdvance(s, due, turns, nextAfter, clock)
    ensures RoundInOrder(s, due, turns, nextAfter, clock) <==> FiresAhead(s, due, turns, nextAfter, clock)
    decreases |due|
  {
    if due != [] {
      var n := |due| - 1;
      RoundInOrderExactlyWhen(s, due[..n], turns[..n], nextAfter, clock);
      if RoundInOrder(s, due[..n], turns[..n], nextAfter, clock) {
        MetInOrder(s, due, turns, nextAfter, clock);
        TriedInOrder(Met(s, due, turns, nextAfter, clock), due[n], nextAfter(due[n], clock), turns[n].at);
      }
    }
  }

  lemma MetInOrder(s: State, due: seq<Name>, turns: seq<Turn>, nextAfter: (Name, real) -> Option<real>, clock: real)
    requires |turns| == |due| > 0 && OthersAdvance(s, due, turns, nextAfter, clock)
    requires InOrder(Round(s, due[..|due| - 1], turns[..|due| - 1], nextAfter, clock))
    ensures InOrder(Met(s, due, turns, nextAfter, clock))
  {
    var n := |due| - 1;
    var before, others := Round(s, due[..n], turns[..n], nextAfter, clock), turns[n].others;
    InOrderUpTo(before, others, |others|);
    assert InOrderAt(before, others, |others|);
    assert others[..|others|] == others;
  }

  lemma TriedInOrder(s: State, name: Name, next: Option<real>, at: Option<real>)
    requires InOrder(s)
    ensures InOrder(Tried(s, name, next, at)) <==> (Lands(s, name, next, at) ==> s.rows[name].nextRunAt < next.value)
  {
    if next.Some? && at.Some? {
      OrderKeptExactlyWhen(s, Fire(name, next.value, at.value));
    }
  }

  /** The worker's clock has reached each run that one of its fires wins. */
  predicate Reached(s: State, due: seq<Name>, turns: seq<Turn>, nextAfter: (Name, real) -> Option<real>, clock: real)
    requires |turns| == |due|
  {
    due == [] ||
    var n := |due| - 1;
    var met := Met(s, due, turns, nextAfter, clock);
    && Reached(s, due[..n], turns[..n], nextAfter, clock)
    && (Lands(met, due[n], nextAfter(due[n], clock), turns[n].at) ==> met.rows[due[n]].nextRunAt <= clock)
  }

  /** Then the round is in order, since the run after the clock's reading is later. */
  lemma {:induction false} RoundKeepsOrder(s: State, due: seq<Name>, turns: seq<Turn>,
                                           nextAfter: (Name, real) -> Option<real>, clock: real)
    requires |turns| == |due| && Later(nextAfter, clock, due)
    requires InOrder(s) && OthersAdvance(s, due, turns, nextAfter, clock) && Reached(s, due, turns, nextAfter, clock)
    ensures RoundInOrder(s, due, turns, nextAfter, clock)
    decreases |due|
  {
    if due != [] {
      var n := |due| - 1;
      RoundKeepsOrder(s, due[..n], turns[..n], nextAfter, clock);
      MetInOrder(s, due, turns, nextAfter, clock);
      TriedInOrder(Met(s, due, turns, nextAfter, clock), due[n], nextAfter(due[n], clock), turns[n].at);
    }
  }

  /** With nobody else at work and the database's clock no earlier, a round leaves
      nothing it could advance due at the worker's clock. */
  lemma {:induction false} LoneRoundLeavesNothingDue(s: State, due: seq<Name>, turns: seq<Turn>,
                                                     nextAfter: (Name, real) -> Option<real>, clock: real, i: nat)
    requires |turns| == |due| && Later(nextAfter, clock, due) && i < |due|
    requires forall k :: 0 <= k < |turns| ==> turns[k].others == []
    requires nextAfter(due[i], clock).Some? && turns[i].at.Some? && clock <= turns[i].at.value
    ensures !Due(Round(s, due, turns, nextAfter, clock).rows, due[i], clock)
    decreases |due|
  {
    var n := |due| - 1;
    if i < n {
      LoneRoundLeavesNothingDue(s, due[..n], turns[..n], nextAfter, clock, i);
    }
  }

  /** And counts the jobs it inserted. */
  lemma {:induction false} LoneRoundCounts(s: State, due: seq<Name>, turns: seq<Turn>,
                                           nextAfter: (Name, real) -> Option<real>, clock: real)
    requires |turns| == |due| && forall k :: 0 <= k < |turns| ==> turns[k].others == []
    ensures |Round(s, due, turns, nextAfter, clock).fired| == |s.fired| + Won(s, due, turns, nextAfter, clock)
    decreases |due|
  {
    if due != [] {
      var n := |due| - 1;
      LoneRoundCounts(s, due[..n], turns[..n], nextAfter, clock);
    }
  }

  // ---- the table and a worker's round --------------------------------------

  class CronTable {
    var rows: map<Name, Schedule>
    var fired: seq<Fired>

    function Value(): State
      reads this
    {
      State(rows, fired)
    }

    constructor ()
      ensures Value() == State(map[], [])
    {
      rows, fired := map[], [];
    }

    method UpsertCron(name: Name, entry: Entry, next: real)
      modifies this
      ensures Value() == Next(old(Value()), Upsert(name, entry, next))
    {
      if name in rows {
        var kept := rows[name];
        var at := if SameTiming(kept.entry, entry) then kept.nextRunAt else next;
        rows := rows[name := Schedule(entry, kept.paused, at)];
      } else {
        rows := rows[name := Schedule(entry, false, next)];
      }
    }

    /** The job inserted, if this caller won the row. */
    method FireCron(name: Name, next: real, now: real) returns (job: Option<NewJob>)
      modifies this
      ensures Value() == Next(old(Value()), Fire(name, next, now))
      ensures job.Some? <==> Due(old(rows), name, now)
      ensures job.Some? ==> job.value == JobOf(old(rows)[name].entry) && |fired| == old(|fired|) + 1
    {
      job := None;
      if name in rows && !rows[name].paused && rows[name].nextRunAt <= now {
        var row := rows[name];
        rows := rows[name := row.(nextRunAt := next)];
        fired := fired + [Fired(name, row.nextRunAt, JobOf(row.entry))];
        job := Some(JobOf(row.entry));
      }
    }

    method SetCronPaused(name: Name, paused: bool)
      modifies this
      ensures Value() == Next(old(Value()), SetPaused(name, paused))
    {
      if name in rows {
        rows := rows[name := rows[name].(paused := paused)];
      }
    }

    /** Statements of others, one after the other. */
    method OthersDo(events: seq<Event>)
      modifies this
      ensures Value() == RunFrom(old(Value()), events)
    {
      for i := 0 to |events|
        invariant Value() == RunFrom(old(Value()), events[..i])
      {
        StepAt(old(Value()), events, i);
        match events[i]
        case Upsert(name, entry, next) => UpsertCron(name, entry, next);
        case Fire(name, next, now) => var _ := FireCron(name, next, now);
        case SetPaused(name, paused) => SetCronPaused(name, paused);
      }
      assert events[..|events|] == events;
    }

    /** One worker's round, with everybody else's statements in between its own. A
        schedule that has no next run is left alone, and a statement that fails is
        passed over. */
    method FireDueSchedules(due: seq<Name>, turns: seq<Turn>, nextAfter: (Name, real) -> Option<real>, clock: real)
        returns (won: nat)
      requires |turns| == |due|
      modifies this
      ensures Value() == Round(old(Value()), due, turns, nextAfter, clock)
      ensures won == Won(old(Value()), due, turns, nextAfter, clock)
    {
      won := 0;
      for i := 0 to |due|
        invariant Value() == Round(old(Value()), due[..i], turns[..i], nextAfter, clock)
        invariant won == Won(old(Value()), due[..i], turns[..i], nextAfter, clock)
      {
        assert due[..i + 1][..i] == due[..i] && turns[..i + 1][..i] == turns[..i];
        OthersDo(turns[i].others);
        var next := nextAfter(due[i], clock);
        if next.Some? && turns[i].at.Some? {
          var job := FireCron(due[i], next.value, turns[i].at.value);
          if job.Some? {
            won := won + 1;
          }
        }
      }
      assert due[..|due|] == due && turns[..|turns|] == turns;
    }
  }
}
