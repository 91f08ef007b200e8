/** Durable steps, across the three parties that make them durable: the child
    that runs the job, the supervisor that stores what it reports, and the step
    table. One job, any number of attempts, which may even overlap when a lease
    is lost.

    A step's work runs, its result is sent, the supervisor stores it and
    acknowledges, and only then does the child count it as completed. The next
    attempt is handed what is stored, and replays it. */
module DurableSteps {
  import opened Prelude

  type Name = string

  datatype Recorded = Recorded(name: Name, result: Bytes)

  /** One attempt as the child sees it, with its connection: results on their
      way to the supervisor, acknowledgements on their way back. */
  datatype Attempt = Attempt(
    alive: bool,
    completed: map<Name, Bytes>,
    waiting: map<Name, Bytes>,
    records: seq<Recorded>,
    acks: seq<Name>)
  {
    /** `step`: replay what is completed; otherwise run the work, send its result
        and wait. A second call while the first one waits runs the work again
        and takes over the waiting. */
    function Call(name: Name, result: Bytes): Attempt {
      if name in completed then this
      else this.(waiting := waiting[name := result], records := records + [Recorded(name, result)])
    }

    /** A task that awaits each step before it goes on would run this one. */
    predicate Executes(name: Name) {
      alive && name !in completed && name !in waiting
    }

    /** An acknowledgement lets the waiting call return; one nobody waits for is
        ignored. */
    function Resolved(name: Name): Attempt {
      if name in waiting then this.(completed := completed[name := waiting[name]], waiting := waiting - {name})
      else this
    }
  }

  datatype World = World(
    row: bool,
    attempt: nat,
    stored: map<Name, Bytes>,
    attempts: seq<Attempt>)

  datatype Event =
    | Dispatch(loads: bool)
    | Call(k: nat, name: Name, result: Bytes)
    | Store(k: nat, writes: bool)
    | Acknowledge(k: nat, j: nat)
    | End(k: nat)
    | OperatorReset
    | DeleteRow

  /** The steps a fresh attempt is given: all that are stored, but only from the
      second attempt on, and only if loading and sending them succeeded. */
  function Handed(w: World, loads: bool): map<Name, Bytes> {
    if w.attempt + 1 > 1 && loads then w.stored else map[]
  }

  /** `INSERT ... ON CONFLICT DO NOTHING`. */
  function Inserted(stored: map<Name, Bytes>, r: Recorded): map<Name, Bytes> {
    if r.name in stored then stored else stored[r.name := r.result]
  }

  /** A child keeps one table of waiting calls for all its attempts, so what
      acknowledges the record of one may answer the call of another. */
  function Answered(attempts: seq<Attempt>, k: nat, j: nat): seq<Attempt>
    requires k < |attempts| && attempts[k].acks != [] && j < |attempts|
  {
    var name, rest := attempts[k].acks[0], attempts[k := attempts[k].(acks := attempts[k].acks[1..])];
    if rest[j].alive then rest[j := rest[j].Resolved(name)] else rest
  }

  function Next(w: World, e: Event): World {
    match e
    case Dispatch(loads) =>
      if w.row
      then w.(attempt := w.attempt + 1,
              attempts := w.attempts + [Attempt(true, Handed(w, loads), map[], [], [])])
      else w
    case Call(k, name, result) =>
      if k < |w.attempts| && w.attempts[k].alive
      then w.(attempts := w.attempts[k := w.attempts[k].Call(name, result)])
      else w
    case Store(k, writes) =>
      if k < |w.attempts| && w.attempts[k].records != [] then
        var a := w.attempts[k];
        if w.row && writes
        then w.(stored := Inserted(w.stored, a.records[0]),
                attempts := w.attempts[k := a.(records := a.records[1..], acks := a.acks + [a.records[0].name])])
        else w.(attempts := w.attempts[k := a.(records := a.records[1..])])
      else w
    case Acknowledge(k, j) =>
      if k < |w.attempts| && w.attempts[k].acks != [] && j < |w.attempts|
      then w.(attempts := Answered(w.attempts, k, j))
      else w
    case End(k) =>
      if k < |w.attempts| then w.(attempts := w.attempts[k := w.attempts[k].(alive := false)]) else w
    case OperatorReset => w.(attempt := 0)
    case DeleteRow => w.(row := false, stored := map[])
  }

  function After(events: seq<Event>): World {
    if events == [] then World(true, 0, map[], [])
    else Next(After(events[..|events| - 1]), events[|events| - 1])
  }

  // ---- whatever happens ----------------------------------------------------

  /** Nothing counts as completed, or is acknowledged, that is not stored. */
  predicate AcknowledgedIsStored(a: Attempt, stored: map<Name, Bytes>) {
    && a.completed.Keys <= stored.Keys
    && forall i :: 0 <= i < |a.acks| ==> a.acks[i] in stored
  }

  predicate Backed(w: World) {
    w.row ==> forall k :: 0 <= k < |w.attempts| ==> AcknowledgedIsStored(w.attempts[k], w.stored)
  }

  lemma StoredGrows(w: World, e: Event)
    requires Next(w, e).row
    ensures w.row && forall n :: n in w.stored ==> n in Next(w, e).stored && Next(w, e).stored[n] == w.stored[n]
  {}

  lemma NextKeepsBacked(w: World, e: Event)
    requires Backed(w)
    ensures Backed(Next(w, e))
  {
    var next := Next(w, e);
    if next.row {
      StoredGrows(w, e);
      forall k | 0 <= k < |next.attempts| ensures AcknowledgedIsStored(next.attempts[k], next.stored) {
        if k < |w.attempts| {
          assert AcknowledgedIsStored(w.attempts[k], w.stored);
        }
      }
    }
  }

  /** In every run, overlapping attempts and failed writes included: until the
      row is deleted, each child's completed steps are among the stored ones. */
  lemma {:induction false} CompletedIsStored(events: seq<Event>)
    ensures Backed(After(events))
    decreases |events|
  {
    if events != [] {
      CompletedIsStored(events[..|events| - 1]);
      NextKeepsBacked(After(events[..|events| - 1]), events[|events| - 1]);
    }
  }

  /** And a stored result never changes. */
  lemma {:induction false} StoredForGood(events: seq<Event>, m: nat, n: nat, name: Name)
    requires m <= n <= |events| && After(events[..n]).row && name in After(events[..m]).stored
    ensures After(events[..m]).row
    ensures name in After(events[..n]).stored && After(events[..n]).stored[name] == After(events[..m]).stored[name]
    decreases n - m
  {
    if m < n {
      StoredStays(events, n - 1);
      StoredForGood(events, m, n - 1, name);
    }
  }

  lemma StepAt(events: seq<Event>, i: nat)
    requires i < |events|
    ensures After(events[..i + 1]) == Next(After(events[..i]), events[i])
  {
    assert events[..i + 1][..i] == events[..i];
  }

  lemma StoredStays(events: seq<Event>, i: nat)
    requires i < |events| && After(events[..i + 1]).row
    ensures After(events[..i]).row
    ensures forall n :: n in After(events[..i]).stored ==>
              n in After(events[..i + 1]).stored && After(events[..i + 1]).stored[n] == After(events[..i]).stored[n]
  {
    StepAt(events, i);
    StoredGrows(After(events[..i]), events[i]);
  }

  predicate Idle(a: Attempt) {
    a.alive && a.records == [] && a.acks == []
  }

  /** And a step that is new does get stored and completed, with the bytes its work
      returned, as soon as its record is written and acknowledged. */
  lemma StepGoesThrough(w: World, k: nat, name: Name, result: Bytes)
    requires w.row && k < |w.attempts| && Idle(w.attempts[k])
    requires name !in w.attempts[k].completed && name !in w.stored
    ensures var after := Next(Next(Next(w, Call(k, name, result)), Store(k, true)), Acknowledge(k, k));
            && after.stored == w.stored[name := result]
            && |after.attempts| == |w.attempts| && Idle(after.attempts[k])
            && after.attempts[k].completed == w.attempts[k].completed[name := result]
            && forall i :: 0 <= i < |w.attempts| && i != k ==> after.attempts[i] == w.attempts[i]
  {}

  // ---- attempts one after the other ----------------------------------------

  /** Every earlier attempt is over and everything it sent has been dealt with. */
  predicate Quiet(w: World) {
    forall k :: 0 <= k < |w.attempts| ==> !w.attempts[k].alive && w.attempts[k].records == []
  }

  /** A dispatch that hands over all that is stored. */
  predicate HandsOver(w: World, loads: bool) {
    w.attempt >= 1 && loads
  }

  predicate Orderly(w: World, e: Event) {
    match e
    case Dispatch(loads) => Quiet(w) && (HandsOver(w, loads) || w.stored == map[])
    case Call(k, name, _) => k < |w.attempts| ==> name !in w.attempts[k].waiting
    case _ => true
  }

  predicate OrderlyAt(events: seq<Event>, i: nat)
    requires i < |events|
  {
    Orderly(After(events[..i]), events[i])
  }

  predicate OrderlyRun(events: seq<Event>) {
    forall i :: 0 <= i < |events| ==> OrderlyAt(events, i)
  }

  lemma OrderlyBefore(events: seq<Event>, n: nat)
    requires OrderlyRun(events) && n <= |events|
    ensures OrderlyRun(events[..n])
  {
    forall i | 0 <= i < n ensures OrderlyAt(events[..n], i) {
      assert events[..n][..i] == events[..i];
      assert OrderlyAt(events, i);
    }
  }

  /** What is stored is completed, or waited for, by the latest attempt with the
      very bytes stored; what it waits for is what it sent. */
  predicate InStep(a: Attempt, stored: map<Name, Bytes>) {
    && (forall n :: n in a.completed ==> n in stored && stored[n] == a.completed[n])
    && (forall n :: n in stored ==> n in a.completed || (n in a.waiting && a.waiting[n] == stored[n]))
    && (forall i :: 0 <= i < |a.records| ==>
          a.records[i].name in a.waiting && a.waiting[a.records[i].name] == a.records[i].result)
    && (forall i :: 0 <= i < |a.acks| ==> a.acks[i] in stored)
    && (forall i, j :: 0 <= i < j < |a.records| ==> a.records[i].name != a.records[j].name)
    && (forall i :: 0 <= i < |a.records| ==> a.records[i].name !in stored)
    && a.completed.Keys !! a.waiting.Keys
  }

  predicate OneAtATime(w: World) {
    w.row ==>
      && (forall k :: 0 <= k < |w.attempts| - 1 ==> !w.attempts[k].alive && w.attempts[k].records == [])
      && (w.attempts == [] ==> w.stored == map[])
      && (w.attempts != [] ==> InStep(w.attempts[|w.attempts| - 1], w.stored))
  }

  lemma StoreKeepsStep(a: Attempt, stored: map<Name, Bytes>)
    requires InStep(a, stored) && a.records != []
    ensures InStep(a.(records := a.records[1..], acks := a.acks + [a.records[0].name]), Inserted(stored, a.records[0]))
    ensures InStep(a.(records := a.records[1..]), stored)
  {}

  lemma CallKeepsStep(a: Attempt, stored: map<Name, Bytes>, name: Name, result: Bytes)
    requires InStep(a, stored) && name !in a.waiting
    ensures InStep(a.Call(name, result), stored)
  {
    if name !in a.completed {
      assert name !in stored;
    }
  }

  lemma AckKeepsStep(a: Attempt, stored: map<Name, Bytes>, name: Name)
    requires InStep(a, stored) && name in stored
    ensures InStep(a.Resolved(name), stored)
    ensures a.acks != [] ==> InStep(a.(acks := a.acks[1..]), stored)
  {
    var b := a.(acks := if a.acks == [] then [] else a.acks[1..]);
    assert a.acks != [] ==> forall j :: 0 <= j < |b.acks| ==> b.acks[j] == a.acks[j + 1];
  }

  /** Only the latest attempt ever changes, and a change that keeps it in step
      with what is stored keeps the world orderly. */
  lemma LatestChanges(w: World, changed: Attempt, stored: map<Name, Bytes>)
    requires OneAtATime(w) && w.row && w.attempts != [] && InStep(changed, stored)
    ensures OneAtATime(w.(attempts := w.attempts[|w.attempts| - 1 := changed], stored := stored))
  {}

  lemma EarlierAreDone(w: World, k: nat)
    requires OneAtATime(w) && w.row && k < |w.attempts| && (w.attempts[k].alive || w.attempts[k].records != [])
    ensures k == |w.attempts| - 1 && InStep(w.attempts[k], w.stored)
  {}

  lemma StoreKeepsOneAtATime(w: World, k: nat, writes: bool)
    requires OneAtATime(w) && w.row && k < |w.attempts| && w.attempts[k].records != []
    ensures OneAtATime(Next(w, Store(k, writes)))
  {
    EarlierAreDone(w, k);
    var a := w.attempts[k];
    StoreKeepsStep(a, w.stored);
    if writes {
      LatestChanges(w, a.(records := a.records[1..], acks := a.acks + [a.records[0].name]), Inserted(w.stored,
                    a.records[0]));
    } else {
      LatestChanges(w, a.(records := a.records[1..]), w.stored);
    }
  }

  lemma CallKeepsOneAtATime(w: World, e: Event)
    requires OneAtATime(w) && w.row && e.Call? && Orderly(w, e)
    ensures OneAtATime(Next(w, e))
  {
    if e.k < |w.attempts| && w.attempts[e.k].alive {
      EarlierAreDone(w, e.k);
      CallKeepsStep(w.attempts[e.k], w.stored, e.name, e.result);
      LatestChanges(w, w.attempts[e.k].Call(e.name, e.result), w.stored);
    }
  }

  lemma AckKeepsOneAtATime(w: World, k: nat, j: nat)
    requires OneAtATime(w) && Backed(w) && w.row
    ensures OneAtATime(Next(w, Acknowledge(k, j)))
  {
    if k < |w.attempts| && w.attempts[k].acks != [] && j < |w.attempts| {
      var name, last := w.attempts[k].acks[0], |w.attempts| - 1;
      assert AcknowledgedIsStored(w.attempts[k], w.stored);
      AckKeepsStep(w.attempts[last], w.stored, name);
      if last == k {
        AckKeepsStep(w.attempts[k].(acks := w.attempts[k].acks[1..]), w.stored, name);
      }
    }
  }

  lemma NextKeepsOneAtATime(w: World, e: Event)
    requires OneAtATime(w) && Backed(w) && Orderly(w, e)
    ensures OneAtATime(Next(w, e))
  {
    if w.row {
      match e
      case Call(_, _, _) => CallKeepsOneAtATime(w, e);
      case Acknowledge(k, j) => AckKeepsOneAtATime(w, k, j);
      case Store(k, writes) =>
        if k < |w.attempts| && w.attempts[k].records != [] {
          StoreKeepsOneAtATime(w, k, writes);
        }
      case Dispatch(loads) => DispatchKeepsOneAtATime(w, loads);
      case _ =>
    }
  }

  lemma DispatchKeepsOneAtATime(w: World, loads: bool)
    requires OneAtATime(w) && w.row && Orderly(w, Dispatch(loads))
    ensures OneAtATime(Next(w, Dispatch(loads)))
  {
    assert Handed(w, loads) == w.stored;
  }

  lemma {:induction false} OrderlyRunsStayInStep(events: seq<Event>)
    requires OrderlyRun(events)
    ensures OneAtATime(After(events))
    decreases |events|
  {
    if events != [] {
      var n := |events| - 1;
      OrderlyBefore(events, n);
      OrderlyRunsStayInStep(events[..n]);
      CompletedIsStored(events[..n]);
      assert OrderlyAt(events, n);
      NextKeepsOneAtATime(After(events[..n]), events[n]);
    }
  }

  /** The promise: with attempts that do not overlap and are handed what is stored,
      and tasks that await each step, the work of a step whose record is durable
      never runs again, and every later attempt that asks for it is answered with
      the recorded bytes. */
  lemma DurableStepsReplay(events: seq<Event>, k: nat, name: Name)
    requires OrderlyRun(events) && After(events).row
    requires k < |After(events).attempts| && After(events).attempts[k].alive
    requires name in After(events).stored
    ensures !After(events).attempts[k].Executes(name)
    ensures name in After(events).attempts[k].completed ==>
              After(events).attempts[k].completed[name] == After(events).stored[name]
  {
    OrderlyRunsStayInStep(events);
    EarlierAreDone(After(events), k);
  }

  lemma CompletedKept(w: World, e: Event, k: nat, name: Name)
    requires OneAtATime(w) && w.row && k < |w.attempts| && name in w.attempts[k].completed
    ensures k < |Next(w, e).attempts| && name in Next(w, e).attempts[k].completed
    ensures Next(w, e).attempts[k].completed[name] == w.attempts[k].completed[name]
  {
    if e.Acknowledge? && w.attempts[k].alive {
      EarlierAreDone(w, k);
    }
  }

  /** Attempt `k` answers a call of the step from the record. */
  predicate Replays(w: World, k: nat, name: Name, result: Bytes) {
    k < |w.attempts| && name in w.attempts[k].completed && w.attempts[k].completed[name] == result
  }

  lemma FirstReplay(events: seq<Event>, i: nat, name: Name)
    requires OrderlyRun(events) && i < |events| && events[i].Dispatch?
    requires After(events[..i]).row && name in After(events[..i]).stored
    ensures Replays(After(events[..i + 1]), |After(events[..i]).attempts|, name, After(events[..i]).stored[name])
  {
    assert OrderlyAt(events, i);
    StepAt(events, i);
    HandedAll(After(events[..i]), events[i].loads, name);
  }

  lemma ReplayStays(events: seq<Event>, i: nat, k: nat, name: Name, result: Bytes)
    requires OrderlyRun(events) && i < |events| && After(events[..i]).row
    requires Replays(After(events[..i]), k, name, result)
    ensures Replays(After(events[..i + 1]), k, name, result)
  {
    var before := events[..i];
    OrderlyBefore(events, i);
    OrderlyRunsStayInStep(before);
    StepAt(events, i);
    CompletedKept(After(before), events[i], k, name);
  }

  lemma {:induction false} ReplaysOn(events: seq<Event>, i: nat, n: nat, k: nat, name: Name, result: Bytes)
    requires OrderlyRun(events) && i <= n <= |events| && After(events[..n]).row
    requires Replays(After(events[..i]), k, name, result)
    ensures Replays(After(events[..n]), k, name, result)
    decreases n
  {
    if i < n {
      StoredStays(events, n - 1);
      ReplaysOn(events, i, n - 1, k, name, result);
      ReplayStays(events, n - 1, k, name, result);
    }
  }

  /** From the moment a result is stored, every attempt dispatched afterwards has
      it among its completed steps, byte for byte, for as long as it runs. */
  lemma LaterAttemptsSeeTheRecord(events: seq<Event>, m: nat, i: nat, n: nat, name: Name)
    requires OrderlyRun(events) && m <= i < n <= |events|
    requires events[i].Dispatch? && After(events[..n]).row && name in After(events[..m]).stored
    ensures Replays(After(events[..n]), |After(events[..i]).attempts|, name, After(events[..m]).stored[name])
  {
    RowWasThere(events, i, n);
    StoredForGood(events, m, i, name);
    FirstReplay(events, i, name);
    ReplaysOn(events, i + 1, n, |After(events[..i]).attempts|, name, After(events[..m]).stored[name]);
  }

  lemma {:induction false} RowWasThere(events: seq<Event>, i: nat, n: nat)
    requires i <= n <= |events| && After(events[..n]).row
    ensures After(events[..i]).row
    decreases n
  {
    if i < n {
      StoredStays(events, n - 1);
      RowWasThere(events, i, n - 1);
    }
  }

  lemma HandedAll(w: World, loads: bool, name: Name)
    requires w.row && Orderly(w, Dispatch(loads)) && name in w.stored
    ensures var started := Next(w, Dispatch(loads)).attempts[|w.attempts|];
            name in started.completed && started.completed[name] == w.stored[name]
  {}

  // ---- and when not --------------------------------------------------------

  /** No live attempt would run the work of a step whose record is durable. */
  predicate NoneRepeats(w: World) {
    w.row ==> forall k :: 0 <= k < |w.attempts| ==> NoneOf(w.attempts[k], w.stored)
  }

  predicate NoneOf(a: Attempt, stored: map<Name, Bytes>) {
    forall name :: name in stored ==> !a.Executes(name)
  }

  /** What it takes: a dispatch hands over what is stored, or nothing is; and a
      record becomes durable only when no live attempt would still run that step. */
  predicate Careful(w: World, e: Event) {
    match e
    case Dispatch(loads) => w.row ==> HandsOver(w, loads) || w.stored == map[]
    case Store(k, writes) =>
      w.row && writes && k < |w.attempts| && w.attempts[k].records != [] ==>
        var name := w.attempts[k].records[0].name;
        name in w.stored || forall j :: 0 <= j < |w.attempts| ==> !w.attempts[j].Executes(name)
    case _ => true
  }

  lemma DispatchRepeats(w: World, loads: bool)
    requires w.row && NoneRepeats(w)
    ensures NoneRepeats(Next(w, Dispatch(loads))) <==> Careful(w, Dispatch(loads))
  {
    var next := Next(w, Dispatch(loads));
    var started := next.attempts[|w.attempts|];
    assert NoneOf(started, w.stored) <==> HandsOver(w, loads) || w.stored == map[];
  }

  lemma StoreRepeats(w: World, k: nat)
    requires w.row && NoneRepeats(w) && k < |w.attempts| && w.attempts[k].records != []
    ensures NoneRepeats(Next(w, Store(k, true))) <==> Careful(w, Store(k, true))
  {
    var next := Next(w, Store(k, true));
    var r := w.attempts[k].records[0];
    forall j | 0 <= j < |w.attempts|
      ensures NoneOf(next.attempts[j], next.stored) <==> r.name in w.stored || !w.attempts[j].Executes(r.name)
    {
      assert NoneOf(w.attempts[j], w.stored);
      assert r.name in next.stored;
    }
  }

  lemma OthersNeverRepeat(w: World, e: Event)
    requires NoneRepeats(w) && !e.Dispatch? && (e.Store? ==> !w.row || !e.writes)
    ensures NoneRepeats(Next(w, e))
  {
    var next := Next(w, e);
    if next.row {
      forall k | 0 <= k < |next.attempts| ensures NoneOf(next.attempts[k], next.stored) {
        assert NoneOf(w.attempts[k], w.stored);
      }
    }
  }

  /** Each event keeps durable steps from running again exactly when it is
      careful. */
  lemma RepeatsExactlyWhen(w: World, e: Event)
    requires NoneRepeats(w)
    ensures NoneRepeats(Next(w, e)) <==> Careful(w, e)
  {
    if w.row && e.Dispatch? {
      DispatchRepeats(w, e.loads);
    } else if w.row && e.Store? && e.writes {
      if e.k < |w.attempts| && w.attempts[e.k].records != [] {
        StoreRepeats(w, e.k);
      }
    } else if !e.Dispatch? {
      OthersNeverRepeat(w, e);
    }
  }

  predicate CarefulAt(events: seq<Event>, i: nat)
    requires i < |events|
  {
    Careful(After(events[..i]), events[i])
  }

  predicate SafeAt(events: seq<Event>, i: nat)
    requires i <= |events|
  {
    NoneRepeats(After(events[..i]))
  }

  lemma {:induction false} SafeUpTo(events: seq<Event>, n: nat)
    requires n <= |events| && forall i :: 0 <= i < n ==> CarefulAt(events, i)
    ensures forall i :: 0 <= i <= n ==> SafeAt(events, i)
    decreases n
  {
    if n == 0 {
      assert events[..0] == [];
    } else {
      SafeUpTo(events, n - 1);
      assert SafeAt(events, n - 1) && CarefulAt(events, n - 1);
      StepAt(events, n - 1);
      RepeatsExactlyWhen(After(events[..n - 1]), events[n - 1]);
    }
  }

  /** So a run never has a durable step about to run again exactly when each of
      its events is careful. */
  lemma RunRepeatsExactlyWhen(events: seq<Event>)
    ensures (forall n :: 0 <= n <= |events| ==> SafeAt(events, n)) <==>
              (forall i :: 0 <= i < |events| ==> CarefulAt(events, i))
  {
    if forall i :: 0 <= i < |events| ==> CarefulAt(events, i) {
      SafeUpTo(events, |events|);
    }
    if forall n :: 0 <= n <= |events| ==> SafeAt(events, n) {
      forall i | 0 <= i < |events| ensures CarefulAt(events, i) {
        assert SafeAt(events, i) && SafeAt(events, i + 1);
        StepAt(events, i);
        RepeatsExactlyWhen(After(events[..i]), events[i]);
      }
    }
  }

  // ---- three runs in which they do -----------------------------------------

  const Fresh := World(true, 0, map[], [])

  lemma FirstStep(run: seq<Event>)
    requires |run| >= 1 && run[0] == Dispatch(true)
    ensures After(run[..1]) == Fresh.(attempt := 1, attempts := [Attempt(true, map[], map[], [], [])])
  {
    assert run[..0] == [];
    StepAt(run, 0);
  }

  predicate Charges(run: seq<Event>) {
    && |run| == 7 && run[0] == Dispatch(true)
    && run[1] == Call(0, "charge", [1]) && run[2] == Store(0, true) && run[3] == Acknowledge(0, 0) && run[4] == End(0)
    && run[5] == OperatorReset && run[6] == Dispatch(true)
  }

  lemma Charged(run: seq<Event>)
    requires Charges(run)
    ensures var w := After(run[..3]); w.row && w.stored == map["charge" := [1]] && |w.attempts| == 1
  {
    FirstStep(run);
    StepAt(run, 1);
    StepAt(run, 2);
  }

  lemma ChargedAndOver(run: seq<Event>)
    requires Charges(run)
    ensures var w := After(run[..6]);
            w.row && w.stored == map["charge" := [1]] && |w.attempts| == 1 && w.attempt == 0
  {
    Charged(run);
    StepAt(run, 3);
    StepAt(run, 4);
    StepAt(run, 5);
  }

  /** An operator's retry resets the attempt counter, so the attempt after it is
      a first one and is handed nothing: the charge that is durably recorded is
      made again. */
  lemma OperatorRetryRepeatsSteps(run: seq<Event>)
    requires Charges(run)
    ensures var w := After(run); "charge" in w.stored && |w.attempts| == 2 && w.attempts[1].Executes("charge")
  {
    ChargedAndOver(run);
    StepAt(run, 6);
    assert run[..7] == run;
  }

  predicate Overlaps(run: seq<Event>) {
    && |run| == 4 && run[0] == Dispatch(true) && run[1] == Dispatch(true)
    && run[2] == Call(0, "charge", [1]) && run[3] == Store(0, true)
  }

  /** A lost lease lets two attempts overlap. The second was handed all there was,
      the first one's record lands, and the second is about to charge again. */
  lemma OverlapRepeatsSteps(run: seq<Event>)
    requires Overlaps(run)
    ensures var w := After(run); "charge" in w.stored && |w.attempts| == 2 && w.attempts[1].Executes("charge")
    ensures Careful(After(run[..1]), run[1]) && !Careful(After(run[..3]), run[3])
  {
    FirstStep(run);
    StepAt(run, 1);
    StepAt(run, 2);
    StepAt(run, 3);
    assert run[..4] == run;
  }

  predicate CallsTwice(run: seq<Event>) {
    && |run| == 5 && run[0] == Dispatch(true)
    && run[1] == Call(0, "charge", [1]) && run[2] == Call(0, "charge", [2])
    && run[3] == Store(0, true) && run[4] == Acknowledge(0, 0)
  }

  /** A task that calls a step again without having awaited it runs the work
      twice, and goes on with a result that is not the recorded one. */
  lemma UnawaitedStepSplits(run: seq<Event>)
    requires CallsTwice(run)
    ensures var w := After(run);
            && w.row && |w.attempts| == 1
            && w.stored == map["charge" := [1]] && w.attempts[0].completed == map["charge" := [2]]
  {
    FirstStep(run);
    StepAt(run, 1);
    StepAt(run, 2);
    SentTwice(run);
    StepAt(run, 4);
    assert run[..5] == run;
  }

  lemma SentTwice(run: seq<Event>)
    requires CallsTwice(run)
    requires var w := After(run[..3]);
             && w.row && w.stored == map[] && |w.attempts| == 1 && w.attempts[0].alive
             && w.attempts[0].waiting == map["charge" := [2]] && w.attempts[0].completed == map[]
             && w.attempts[0].records == [Recorded("charge", [1]), Recorded("charge", [2])] && w.attempts[0].acks == []
    ensures var w := After(run[..4]);
            && w.row && w.stored == map["charge" := [1]] && |w.attempts| == 1 && w.attempts[0].alive
            && w.attempts[0].waiting == map["charge" := [2]] && w.attempts[0].completed == map[]
            && w.attempts[0].acks == ["charge"]
  {
    StepAt(run, 3);
  }

  // ---- the objects ---------------------------------------------------------

  /** `StepContext` and the acknowledgements it waits for, as the child holds
      them. */
  class StepContext {
    var completed: map<Name, Bytes>
    var waiting: map<Name, Bytes>
    var outbox: seq<Recorded>

    ghost function Value(acks: seq<Name>): Attempt
      reads this
    {
      Attempt(true, completed, waiting, outbox, acks)
    }

    constructor (handed: map<Name, Bytes>)
      ensures Value([]) == Attempt(true, handed, map[], [], [])
    {
      completed, waiting, outbox := handed, map[], [];
    }

    /** Answers from the record, or sends the result of the work and leaves the
        caller waiting for its acknowledgement. */
    method Step(name: Name, work: Bytes, ghost acks: seq<Name>) returns (replayed: Option<Bytes>)
      modifies this
      ensures Value(acks) == old(Value(acks)).Call(name, work)
      ensures replayed == if name in old(completed) then Some(old(completed)[name]) else None
    {
      if name in completed {
        replayed := Some(completed[name]);
      } else {
        outbox := outbox + [Recorded(name, work)];
        waiting := waiting[name := work];
        replayed := None;
      }
    }

    /** An acknowledgement arrives; one nobody waits for is ignored. */
    method Resolve(name: Name, ghost acks: seq<Name>)
      modifies this
      ensures Value(acks) == old(Value(acks)).Resolved(name)
    {
      if name in waiting {
        completed := completed[name := waiting[name]];
        waiting := waiting - {name};
      }
    }
  }
}
