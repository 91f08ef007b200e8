/** The supervisor's bookkeeping: what a child is holding, how far ahead of it
    jobs are leased, and how its reports are settled in batches. */
module Supervisor {
  import opened Prelude
  import opened JobTable
  import opened Queue
  import opened QueueInvariant
  import opened Lifecycle
  import opened Backend

  // ---- what a child holds --------------------------------------------------

  /** Jobs handed to the child and not yet finalised. */
  class InFlight {
    var ids: set<JobId>
    const limit: nat

    constructor (limit: nat)
      ensures ids == {} && this.limit == limit
    {
      ids := {};
      this.limit := limit;
    }

    /** Room left under the limit; none once it is reached or passed. */
    function Available(): (room: nat)
      reads this
      ensures room > 0 ==> |ids| + room == limit
      ensures room == 0 <==> |ids| >= limit
    {
      if |ids| < limit then limit - |ids| else 0
    }

    method Reserve(more: seq<JobId>)
      modifies this
      ensures ids == old(ids) + SetOf(more)
      ensures |ids| <= old(|ids|) + |more|
    {
      for i := 0 to |more|
        invariant ids == old(ids) + SetOf(more[..i]) && |ids| <= old(|ids|) + i
      {
        assert more[..i + 1] == more[..i] + [more[i]];
        ids := ids + {more[i]};
      }
      assert more[..|more|] == more;
    }

    /** Reports whether nothing is held any more, which wakes whoever drains. */
    method Release(done: seq<JobId>) returns (drained: bool)
      modifies this
      ensures ids == old(ids) - SetOf(done)
      ensures drained <==> ids == {} && done != []
    {
      for i := 0 to |done|
        invariant ids == old(ids) - SetOf(done[..i])
      {
        assert done[..i + 1] == done[..i] + [done[i]];
        ids := ids - {done[i]};
      }
      assert done[..|done|] == done;
      drained := ids == {} && done != [];
    }

    /** A point where reports may be released by the collecting side. */
    method OthersRelease()
      modifies this
      ensures ids <= old(ids)
    {}

    /** A point where the dispatching side may reserve what it fetched. */
    method OthersReserve()
      modifies this
      ensures old(ids) <= ids
    {}

    /** Everything held, leaving nothing. */
    method Take() returns (held: set<JobId>)
      modifies this
      ensures held == old(ids) && ids == {}
    {
      held := ids;
      ids := {};
    }
  }

  // ---- how far ahead -------------------------------------------------------

  /** The dispatch loop of one child: idle, or waiting for a fetch it asked for
      with some limit. */
  datatype Loop = Loop(held: set<JobId>, fetching: Option<nat>)

  datatype Event =
    | AskFetch(batch: nat)
    | Fetched(db: Table, q: Query, probe: real, now: real, skipped: set<JobId>, f: Fetching, after: Table,
              encodable: set<JobId>)
    | FetchFailed
    | Settled(jobs: seq<JobId>)
    | HandedBack

  /** A fetch is asked for no more than the room that is left, and its answer is
      one that a fetch can give on some table, of which what cannot be encoded is
      not reserved. Reports settle at any time; a failed session drops its fetch
      and hands everything back. */
  ghost function Next(l: Loop, e: Event, concurrency: nat): Loop {
    match e
    case AskFetch(batch) =>
      if l.fetching.None? && |l.held| < concurrency && batch >= 1
      then l.(fetching := Some(if batch < concurrency - |l.held| then batch else concurrency - |l.held|))
      else l
    case Fetched(db, q, probe, now, skipped, f, after, encodable) =>
      if l.fetching == Some(q.limit) && Answer(db, q, probe, now, skipped, f, after) && f.unkeyedOk && f.keyedOk
      then Loop(l.held + SetOf(f.unkeyed + f.keyed) * encodable, None)
      else l
    case FetchFailed => l.(fetching := None)
    case Settled(jobs) => l.(held := l.held - SetOf(jobs))
    case HandedBack => Loop({}, None)
  }

  ghost function After(events: seq<Event>, concurrency: nat): Loop {
    if events == [] then Loop({}, None)
    else Next(After(events[..|events| - 1], concurrency), events[|events| - 1], concurrency)
  }

  predicate Bounded(l: Loop, concurrency: nat) {
    && |l.held| <= concurrency + 1
    && (l.fetching.Some? ==> 1 <= l.fetching.value && |l.held| + l.fetching.value <= concurrency)
  }

  lemma SetOfSize(s: seq<JobId>)
    ensures |SetOf(s)| <= |s|
  {
    if s != [] {
      var n := |s| - 1;
      SetOfSize(s[..n]);
      assert s == s[..n] + [s[n]];
      assert SetOf(s) == SetOf(s[..n]) + {s[n]};
    }
  }

  lemma NextKeepsBound(l: Loop, e: Event, concurrency: nat)
    requires Bounded(l, concurrency)
    ensures Bounded(Next(l, e, concurrency), concurrency)
  {
    match e
    case Fetched(db, q, probe, now, skipped, f, after, encodable) =>
      if Answer(db, q, probe, now, skipped, f, after) {
        FetchBounded(db, q, probe, now, skipped, f, after);
        SetOfSize(f.unkeyed + f.keyed);
        SubsetSize(SetOf(f.unkeyed + f.keyed) * encodable, SetOf(f.unkeyed + f.keyed));
      }
    case Settled(jobs) => SubsetSize(l.held - SetOf(jobs), l.held);
    case _ =>
  }

  /** In every run of asking, fetching, settling and handing back, a child never
      holds more than one job above its concurrency. */
  lemma {:induction false} NeverFarAhead(events: seq<Event>, concurrency: nat)
    ensures Bounded(After(events, concurrency), concurrency)
    decreases |events|
  {
    if events != [] {
      NeverFarAhead(events[..|events| - 1], concurrency);
      NextKeepsBound(After(events[..|events| - 1], concurrency), events[|events| - 1], concurrency);
    }
  }

  /** Why each job that cannot be encoded cannot, and for the statement that
      discards it when it is executed, if it is. */
  datatype Encoding = Encoding(worker: WorkerId, errors: map<JobId, string>, clock: JobId -> real,
                               reaches: JobId -> bool)

  function Kept(jobs: seq<JobId>, errors: map<JobId, string>): seq<JobId> {
    if jobs == [] then [] else
    var n := |jobs| - 1;
    if jobs[n] in errors then Kept(jobs[..n], errors) else Kept(jobs[..n], errors) + [jobs[n]]
  }

  function Refused(jobs: seq<JobId>, errors: map<JobId, string>): (ids: seq<JobId>)
    ensures forall i :: 0 <= i < |ids| ==> ids[i] in errors
  {
    if jobs == [] then [] else
    var n := |jobs| - 1;
    if jobs[n] in errors then Refused(jobs[..n], errors) + [jobs[n]] else Refused(jobs[..n], errors)
  }

  /** Every job of the batch is kept or refused, and none is both. */
  lemma {:induction false} KeptOrRefused(jobs: seq<JobId>, errors: map<JobId, string>)
    ensures multiset(Kept(jobs, errors)) + multiset(Refused(jobs, errors)) == multiset(jobs)
    ensures forall id :: id in Kept(jobs, errors) ==> id !in errors
    ensures forall id :: id in Refused(jobs, errors) ==> id in errors
    decreases |jobs|
  {
    if jobs != [] {
      var n := |jobs| - 1;
      KeptOrRefused(jobs[..n], errors);
      assert jobs == jobs[..n] + [jobs[n]];
    }
  }

  lemma {:induction false} KeptSize(jobs: seq<JobId>, errors: map<JobId, string>)
    ensures |Kept(jobs, errors)| <= |jobs|
    decreases |jobs|
  {
    if jobs != [] {
      KeptSize(jobs[..|jobs| - 1], errors);
    }
  }

  ghost function Dropped(before: Table, id: JobId, e: Encoding): Table
    requires id in e.errors
  {
    Reach(before, DoDiscard(map[id := e.errors[id]], e.worker, e.clock(id)), e.reaches(id))
  }

  /** The i-th statement comes after others' and is executed or failed. */
  ghost predicate DiscardedAt(db: Table, e: Encoding, ids: seq<JobId>, stages: seq<Stage>, i: nat)
    requires i < |ids| == |stages| && ids[i] in e.errors
  {
    && Later(if i == 0 then db else stages[i - 1].after, stages[i].before)
    && stages[i].after == Dropped(stages[i].before, ids[i], e)
  }

  /** One statement for each refused job, in order. */
  ghost predicate DiscardedInTurn(db: Table, e: Encoding, ids: seq<JobId>, stages: seq<Stage>, end: Table)
    requires forall i :: 0 <= i < |ids| ==> ids[i] in e.errors
  {
    && |stages| == |ids|
    && (forall i :: 0 <= i < |ids| ==> DiscardedAt(db, e, ids, stages, i))
    && end == if ids == [] then db else stages[|ids| - 1].after
  }

  lemma OneMoreDiscarded(db: Table, e: Encoding, ids: seq<JobId>, stages: seq<Stage>, end: Table, id: JobId,
                         stage: Stage)
    requires forall i :: 0 <= i < |ids| ==> ids[i] in e.errors
    requires DiscardedInTurn(db, e, ids, stages, end) && id in e.errors
    requires Later(end, stage.before) && stage.after == Dropped(stage.before, id, e)
    ensures DiscardedInTurn(db, e, ids + [id], stages + [stage], stage.after)
  {
    var more, longer := ids + [id], stages + [stage];
    forall i | 0 <= i < |more| ensures DiscardedAt(db, e, more, longer, i) {
      if i < |ids| {
        assert DiscardedAt(db, e, ids, stages, i);
      }
    }
  }

  /** Encodes a fetched batch job by job. One that cannot be encoded is discarded
      there and then, with everything downstream of it. */
  method EncodeBatch(store: Store, jobs: seq<JobId>, e: Encoding) returns (kept: seq<JobId>, ghost stages: seq<Stage>)
    requires store.Valid()
    modifies store
    ensures store.Valid() && kept == Kept(jobs, e.errors)
    ensures DiscardedInTurn(old(store.Db()), e, Refused(jobs, e.errors), stages, store.Db())
  {
    kept, stages := [], [];
    for i := 0 to |jobs|
      invariant store.Valid() && kept == Kept(jobs[..i], e.errors)
      invariant DiscardedInTurn(old(store.Db()), e, Refused(jobs[..i], e.errors), stages, store.Db())
    {
      var id := jobs[i];
      assert jobs[..i + 1][..i] == jobs[..i];
      if id in e.errors {
        ghost var before := store.Db();
        ghost var stage := DiscardBatch(store, map[id := e.errors[id]], e.worker, e.clock(id), e.reaches(id));
        OneMoreDiscarded(old(store.Db()), e, Refused(jobs[..i], e.errors), stages, before, id, stage);
        stages := stages + [stage];
      } else {
        kept := kept + [id];
      }
    }
    assert jobs[..|jobs|] == jobs;
  }

  /** Reserves what can be encoded, after any reports released meanwhile. */
  method ReserveBatch(store: Store, inflight: InFlight, jobs: seq<JobId>, e: Encoding)
      returns (ghost stages: seq<Stage>)
    requires store.Valid()
    modifies store, inflight
    ensures store.Valid() && |inflight.ids| <= old(|inflight.ids|) + |jobs|
    ensures inflight.ids <= old(inflight.ids) + SetOf(Kept(jobs, e.errors))
              && SetOf(Kept(jobs, e.errors)) <= inflight.ids
    ensures DiscardedInTurn(old(store.Db()), e, Refused(jobs, e.errors), stages, store.Db())
  {
    var kept;
    kept, stages := EncodeBatch(store, jobs, e);
    KeptSize(jobs, e.errors);
    inflight.OthersRelease();
    SubsetSize(inflight.ids, old(inflight.ids));
    inflight.Reserve(kept);
  }

  /** One turn of the dispatch loop on the objects themselves. With room left, it
      fetches no more than that and no more than a batch, and what both passes of
      the fetch picked is what it leased, or nothing when one was refused. What it
      leased and can be encoded it reserves. Reports may be released meanwhile, and
      only this loop reserves. */
  method DispatchOnce(store: Store, inflight: InFlight, q: Query, probe: real, now: real, skipped: set<JobId>,
                      e: Encoding)
      returns (leased: seq<JobId>, ghost f: Fetching, ghost fetched: Table, ghost stages: seq<Stage>)
    requires store.Valid() && |inflight.ids| <= inflight.limit + 1 && q.limit >= 1
    modifies store, inflight
    ensures store.Valid() && |inflight.ids| <= inflight.limit + 1
    ensures old(|inflight.ids|) < inflight.limit ==>
              var room := inflight.limit - old(|inflight.ids|);
              && Answer(old(store.Db()), q.(limit := if q.limit < room then q.limit else room), probe, now, skipped,
                        f, fetched)
              && leased == if f.unkeyedOk && f.keyedOk then f.unkeyed + f.keyed else []
    ensures old(|inflight.ids|) >= inflight.limit ==> leased == [] && fetched == old(store.Db())
    ensures inflight.ids <= old(inflight.ids) + SetOf(Kept(leased, e.errors))
              && SetOf(Kept(leased, e.errors)) <= inflight.ids
    ensures DiscardedInTurn(fetched, e, Refused(leased, e.errors), stages, store.Db())
  {
    leased, fetched, stages := [], store.Db(), [];
    f := Fetching([], false, fetched, fetched, false, fetched, [], false);
    var room := inflight.Available();
    if room == 0 {
      return;
    }
    var asked := q.(limit := if q.limit < room then q.limit else room);
    var answer;
    answer, f := store.Fetch(asked, probe, now, skipped);
    FetchBounded(fetched, asked, probe, now, skipped, f, store.Db());
    fetched := store.Db();
    if answer.Some? {
      leased := answer.value;
      stages := ReserveBatch(store, inflight, leased, e);
    }
  }

  // ---- settling reports ----------------------------------------------------

  datatype Verdict = Succeeded(result: Bytes) | Failed(error: string, retry: bool)

  datatype Report = Report(id: JobId, verdict: Verdict)

  /** The four statements a report may be settled by. */
  datatype Bucket = Plain | WithResult | Retryable | Terminal

  function BucketOf(v: Verdict): Bucket {
    match v
    case Succeeded(result) => if result == [] then Plain else WithResult
    case Failed(_, retry) => if retry then Retryable else Terminal
  }

  function Filed(reports: seq<Report>, b: Bucket): seq<Report> {
    if reports == [] then [] else
    var last := reports[|reports| - 1];
    Filed(reports[..|reports| - 1], b) + if BucketOf(last.verdict) == b then [last] else []
  }

  function Ids(reports: seq<Report>): seq<JobId> {
    seq(|reports|, i requires 0 <= i < |reports| => reports[i].id)
  }

  /** Filing keeps every reported id exactly as often as it was reported. */
  lemma {:induction false} FilingConserves(reports: seq<Report>)
    ensures multiset(Ids(reports)) == multiset(Ids(Filed(reports, Plain))) + multiset(Ids(Filed(reports, WithResult)))
                                    + multiset(Ids(Filed(reports, Retryable))) + multiset(Ids(Filed(reports, Terminal)))
    decreases |reports|
  {
    if reports != [] {
      var n := |reports| - 1;
      FilingConserves(reports[..n]);
      assert Ids(reports) == Ids(reports[..n]) + [reports[n].id];
      FiledId(reports, Plain);
      FiledId(reports, WithResult);
      FiledId(reports, Retryable);
      FiledId(reports, Terminal);
    }
  }

  lemma FiledId(reports: seq<Report>, b: Bucket)
    requires reports != []
    ensures var last := reports[|reports| - 1];
            Ids(Filed(reports, b)) ==
              Ids(Filed(reports[..|reports| - 1], b)) + if BucketOf(last.verdict) == b then [last.id] else []
  {}

  lemma {:induction false} FiledMembers(reports: seq<Report>, b: Bucket)
    ensures forall r :: r in Filed(reports, b) <==> r in reports && BucketOf(r.verdict) == b
    decreases |reports|
  {
    if reports != [] {
      var n := |reports| - 1;
      FiledMembers(reports[..n], b);
      assert reports == reports[..n] + [reports[n]];
    }
  }

  lemma FiledSnoc(reports: seq<Report>, r: Report, b: Bucket)
    ensures Filed(reports + [r], b) == if BucketOf(r.verdict) == b then Filed(reports, b) + [r] else Filed(reports, b)
  {
    assert (reports + [r])[..|reports|] == reports;
  }

  predicate CarriesResults(ids: seq<JobId>, results: seq<Bytes>, rs: seq<Report>) {
    && ids == Ids(rs) && |results| == |ids|
    && forall i :: 0 <= i < |rs| ==> rs[i].verdict == Succeeded(results[i])
  }

  predicate CarriesErrors(ids: seq<JobId>, errors: seq<string>, retry: bool, rs: seq<Report>) {
    && ids == Ids(rs) && |errors| == |ids|
    && forall i :: 0 <= i < |rs| ==> rs[i].verdict == Failed(errors[i], retry)
  }

  datatype Vectors = Vectors(
    completed: seq<JobId>,
    withResult: seq<JobId>,
    results: seq<Bytes>,
    retry: seq<JobId>,
    retryErrors: seq<string>,
    terminal: seq<JobId>,
    terminalErrors: seq<string>)

  /** Each vector holds, in order of arrival, the reports of its kind, and its
      companion vector what they carried. */
  ghost predicate Sorted(v: Vectors, b: Bucket, rs: seq<Report>) {
    match b
    case Plain => v.completed == Ids(rs)
    case WithResult => CarriesResults(v.withResult, v.results, rs)
    case Retryable => CarriesErrors(v.retry, v.retryErrors, true, rs)
    case Terminal => CarriesErrors(v.terminal, v.terminalErrors, false, rs)
  }

  function Pushed(v: Vectors, r: Report): Vectors {
    match r.verdict
    case Succeeded(result) =>
      if result == [] then v.(completed := v.completed + [r.id])
      else v.(withResult := v.withResult + [r.id], results := v.results + [result])
    case Failed(error, retry) =>
      if retry then v.(retry := v.retry + [r.id], retryErrors := v.retryErrors + [error])
      else v.(terminal := v.terminal + [r.id], terminalErrors := v.terminalErrors + [error])
  }

  lemma PushSorts(v: Vectors, b: Bucket, rs: seq<Report>, r: Report)
    requires Sorted(v, b, rs)
    ensures Sorted(Pushed(v, r), b, if BucketOf(r.verdict) == b then rs + [r] else rs)
  {
    assert Ids(rs + [r]) == Ids(rs) + [r.id];
  }

  ghost predicate AllSorted(v: Vectors, reports: seq<Report>) {
    && Sorted(v, Plain, Filed(reports, Plain)) && Sorted(v, WithResult, Filed(reports, WithResult))
    && Sorted(v, Retryable, Filed(reports, Retryable)) && Sorted(v, Terminal, Filed(reports, Terminal))
  }

  lemma PushKeepsSorted(v: Vectors, reports: seq<Report>, r: Report)
    requires AllSorted(v, reports)
    ensures AllSorted(Pushed(v, r), reports + [r])
  {
    forall b ensures Sorted(v, b, Filed(reports, b)) ==> Sorted(Pushed(v, r), b, Filed(reports + [r], b)) {
      if Sorted(v, b, Filed(reports, b)) {
        PushSorts(v, b, Filed(reports, b), r);
        FiledSnoc(reports, r, b);
      }
    }
  }

  /** The parallel vectors in which reports wait for their batch. */
  class Pending {
    var completed: seq<JobId>
    var withResult: seq<JobId>
    var results: seq<Bytes>
    var retry: seq<JobId>
    var retryErrors: seq<string>
    var terminal: seq<JobId>
    var terminalErrors: seq<string>
    ghost var reports: seq<Report>

    ghost function Value(): Vectors
      reads this
    {
      Vectors(completed, withResult, results, retry, retryErrors, terminal, terminalErrors)
    }

    ghost predicate Valid()
      reads this
    {
      AllSorted(Value(), reports)
    }

    constructor ()
      ensures Valid() && reports == []
    {
      completed, withResult, results := [], [], [];
      retry, retryErrors, terminal, terminalErrors := [], [], [], [];
      reports := [];
    }

    method Push(id: JobId, verdict: Verdict)
      requires Valid()
      modifies this
      ensures Valid() && reports == old(reports) + [Report(id, verdict)]
    {
      PushKeepsSorted(Value(), reports, Report(id, verdict));
      match verdict {
        case Succeeded(result) =>
          if result == [] {
            completed := completed + [id];
          } else {
            withResult := withResult + [id];
            results := results + [result];
          }
        case Failed(error, again) =>
          if again {
            retry := retry + [id];
            retryErrors := retryErrors + [error];
          } else {
            terminal := terminal + [id];
            terminalErrors := terminalErrors + [error];
          }
      }
      reports := reports + [Report(id, verdict)];
      assert Value() == Pushed(old(Value()), Report(id, verdict));
    }

    /** Settles everything pending with four statements and releases it. Any of
        the statements may fail, in which case it had no effect; its jobs are
        released all the same, and their leases are left to run out. Anybody may
        run between two statements and before the release, the dispatch loop of
        this child included. */
    method Flush(store: Store, inflight: InFlight, w: Settler, reaches: Bucket -> bool)
        returns (settled: seq<JobId>, ghost f: Flushing, ghost held: set<JobId>)
      requires Valid() && store.Valid()
      modifies this, store, inflight
      ensures Valid() && store.Valid() && reports == []
      ensures Flushes(old(store.Db()), old(reports), w, reaches, f, store.Db())
      ensures multiset(settled) == multiset(Ids(old(reports)))
      ensures old(inflight.ids) <= held && inflight.ids == held - SetOf(Ids(old(reports)))
    {
      ghost var all := reports;
      settled := completed + withResult + retry + terminal;
      f := Settle(store, w, reaches);
      store.OthersRun();
      inflight.OthersReserve();
      held := inflight.ids;
      SettledAreReported(all);
      var drained := inflight.Release(settled);
      Clear();
    }

    method Clear()
      modifies this
      ensures Valid() && reports == []
    {
      completed, withResult, results := [], [], [];
      retry, retryErrors, terminal, terminalErrors := [], [], [], [];
      reports := [];
    }

    /** Read side by side, each vector and its companion are the reports of
        their kind with what they carried. */
    lemma VectorsCarryReports()
      requires Valid()
      ensures NoResults(completed) == ResultsOf(Filed(reports, Plain))
      ensures Zip(withResult, Wrapped(results)) == ResultsOf(Filed(reports, WithResult))
      ensures forall draws :: Zip(retry, Setbacks(retry, retryErrors, draws)) ==
                SetbacksOf(Filed(reports, Retryable), draws)
      ensures Zip(terminal, terminalErrors) == ErrorsOf(Filed(reports, Terminal))
    {
      forall b: Bucket, i | 0 <= i < |Filed(reports, b)| ensures BucketOf(Filed(reports, b)[i].verdict) == b {
        FiledMembers(reports, b);
        assert Filed(reports, b)[i] in Filed(reports, b);
      }
      var p, w := Filed(reports, Plain), Filed(reports, WithResult);
      var r, t := Filed(reports, Retryable), Filed(reports, Terminal);
      assert seq(|completed|, _ => None) == seq(|p|, i requires 0 <= i < |p| => ResultOf(p[i]));
      assert Wrapped(results) == seq(|w|, i requires 0 <= i < |w| => ResultOf(w[i]));
      forall draws: map<JobId, real>
        ensures Setbacks(retry, retryErrors, draws) == seq(|r|, i requires 0 <= i < |r| => SetbackOf(r[i], draws)) {}
      assert terminalErrors == seq(|t|, i requires 0 <= i < |t| => ErrorOf(t[i]));
    }

    method Settle(store: Store, w: Settler, reaches: Bucket -> bool) returns (ghost f: Flushing)
      requires Valid() && store.Valid()
      modifies store
      ensures store.Valid() && store.Db() == f.terminal.after && Stages(old(store.Db()), reports, w, reaches, f)
    {
      VectorsCarryReports();
      f := SettleBatches(store, NoResults(completed), Zip(withResult, Wrapped(results)),
                         Zip(retry, Setbacks(retry, retryErrors, w.draws)), Zip(terminal, terminalErrors), w, reaches);
      StageByStage(reports, w, reaches, f);
    }
  }

  // ---- what each report carries --------------------------------------------

  function ResultOf(r: Report): Option<Bytes> {
    if r.verdict.Succeeded? && r.verdict.result != [] then Some(r.verdict.result) else None
  }

  function ErrorOf(r: Report): string {
    if r.verdict.Failed? then r.verdict.error else ""
  }

  function SetbackOf(r: Report, draws: map<JobId, real>): Setback {
    Setback(ErrorOf(r), if r.id in draws then draws[r.id] else 0.0)
  }

  function ResultsOf(rs: seq<Report>): map<JobId, Option<Bytes>> {
    Zip(Ids(rs), seq(|rs|, i requires 0 <= i < |rs| => ResultOf(rs[i])))
  }

  function SetbacksOf(rs: seq<Report>, draws: map<JobId, real>): map<JobId, Setback> {
    Zip(Ids(rs), seq(|rs|, i requires 0 <= i < |rs| => SetbackOf(rs[i], draws)))
  }

  function ErrorsOf(rs: seq<Report>): map<JobId, string> {
    Zip(Ids(rs), seq(|rs|, i requires 0 <= i < |rs| => ErrorOf(rs[i])))
  }

  /** Who settles, with which backoff, at which moment of the database clock for
      each kind of report, and the random draws the database makes. */
  datatype Settler = Settler(worker: WorkerId, base: real, cap: real, clock: Bucket -> real, draws: map<JobId, real>)

  /** The statement that settles the reports of one kind. */
  ghost function StatementFor(b: Bucket, reports: seq<Report>, w: Settler): Op {
    match b
    case Plain => DoComplete(ResultsOf(Filed(reports, b)), w.worker, w.clock(b))
    case WithResult => DoComplete(ResultsOf(Filed(reports, b)), w.worker, w.clock(b))
    case Retryable => DoRetry(SetbacksOf(Filed(reports, b), w.draws), w.worker, w.base, w.cap, w.clock(b))
    case Terminal => DoDiscard(ErrorsOf(Filed(reports, b)), w.worker, w.clock(b))
  }

  /** The table a statement found and the one it left. */
  datatype Stage = Stage(before: Table, after: Table)

  datatype Flushing = Flushing(plain: Stage, withResult: Stage, retryable: Stage, terminal: Stage) {
    function At(b: Bucket): Stage {
      match b
      case Plain => plain
      case WithResult => withResult
      case Retryable => retryable
      case Terminal => terminal
    }
  }

  /** The statement of each kind in turn, executed or failed, with anybody's
      statements before and between them. */
  ghost predicate Stages(db: Table, reports: seq<Report>, w: Settler, reaches: Bucket -> bool, f: Flushing) {
    && Later(db, f.plain.before) && Later(f.plain.after, f.withResult.before)
    && Later(f.withResult.after, f.retryable.before) && Later(f.retryable.after, f.terminal.before)
    && forall b :: StageOf(b, reports, w, reaches, f)
  }

  ghost predicate StageOf(b: Bucket, reports: seq<Report>, w: Settler, reaches: Bucket -> bool, f: Flushing) {
    f.At(b).after == Reach(f.At(b).before, StatementFor(b, reports, w), reaches(b))
  }

  lemma StageByStage(reports: seq<Report>, w: Settler, reaches: Bucket -> bool, f: Flushing)
    requires StageOf(Plain, reports, w, reaches, f) && StageOf(WithResult, reports, w, reaches, f)
    requires StageOf(Retryable, reports, w, reaches, f) && StageOf(Terminal, reports, w, reaches, f)
    ensures forall b :: StageOf(b, reports, w, reaches, f)
  {
    forall b ensures StageOf(b, reports, w, reaches, f) {
      match b
      case Plain =>
      case WithResult =>
      case Retryable =>
      case Terminal =>
    }
  }

  /** What a flush may do, with anybody's statements after it too. */
  ghost predicate Flushes(db: Table, reports: seq<Report>, w: Settler, reaches: Bucket -> bool, f: Flushing,
                          end: Table) {
    Stages(db, reports, w, reaches, f) && Later(f.terminal.after, end)
  }

  // ---- what the four statements do together --------------------------------

  method CompleteBatch(store: Store, results: map<JobId, Option<Bytes>>, worker: WorkerId, now: real, reached: bool)
      returns (ghost stage: Stage)
    requires store.Valid()
    modifies store
    ensures store.Valid() && Later(old(store.Db()), stage.before) && store.Db() == stage.after
    ensures stage.after == Reach(stage.before, DoComplete(results, worker, now), reached)
  {
    store.OthersRun();
    ghost var before := store.Db();
    if reached {
      var n := store.CompleteMany(results, worker, now);
    }
    stage := Stage(before, store.Db());
  }

  method RetryBatch(store: Store, setbacks: map<JobId, Setback>, worker: WorkerId, base: real, cap: real, now: real,
                    reached: bool) returns (ghost stage: Stage)
    requires store.Valid()
    modifies store
    ensures store.Valid() && Later(old(store.Db()), stage.before) && store.Db() == stage.after
    ensures stage.after == Reach(stage.before, DoRetry(setbacks, worker, base, cap, now), reached)
  {
    store.OthersRun();
    ghost var before := store.Db();
    if reached {
      var n, m := store.RetryMany(setbacks, worker, base, cap, now);
    }
    stage := Stage(before, store.Db());
  }

  method DiscardBatch(store: Store, errors: map<JobId, string>, worker: WorkerId, now: real, reached: bool)
      returns (ghost stage: Stage)
    requires store.Valid()
    modifies store
    ensures store.Valid() && Later(old(store.Db()), stage.before) && store.Db() == stage.after
    ensures stage.after == Reach(stage.before, DoDiscard(errors, worker, now), reached)
  {
    store.OthersRun();
    ghost var before := store.Db();
    if reached {
      var n := store.DiscardMany(errors, worker, now);
    }
    stage := Stage(before, store.Db());
  }

  /** Expired leases only, up to the limit and all of them if they are fewer. */
  ghost predicate TakesExpired(db: Table, victims: set<JobId>, limit: nat, now: real) {
    && (forall id :: id in victims ==> id in db.jobs && db.jobs[id].Expired(now))
    && |victims| <= limit
    && (|victims| < limit ==> forall id :: id in db.jobs && db.jobs[id].Expired(now) ==> id in victims)
  }

  /** What a failed session leaves: everything it held is taken out of the
      in-flight set and given up in the table, and what has expired there is
      reclaimed. Either statement may fail, and without the first there is no
      second. */
  method HandBack(store: Store, inflight: InFlight, worker: WorkerId, limit: nat, now: real, later: real,
                  abandons: bool, reclaims: bool)
      returns (ghost given: Stage, ghost taken: Stage, ghost victims: set<JobId>)
    requires store.Valid()
    modifies store, inflight
    ensures store.Valid() && inflight.ids == {}
    ensures old(inflight.ids) == {} ==> store.Db() == old(store.Db())
    ensures old(inflight.ids) != {} ==>
              && Later(old(store.Db()), given.before)
              && given.after == Reach(given.before, DoAbandon(old(inflight.ids), worker, now), abandons)
              && (!abandons ==> store.Db() == given.after)
              && (abandons ==> && Later(given.after, taken.before) && store.Db() == taken.after
                               && taken.after == Reach(taken.before, DoReclaim(victims, later), reclaims)
                               && (reclaims ==> TakesExpired(taken.before, victims, limit, later)))
  {
    var held := inflight.Take();
    given, taken, victims := Stage(store.Db(), store.Db()), Stage(store.Db(), store.Db()), {};
    if held == {} {
      return;
    }
    store.OthersRun();
    ghost var before := store.Db();
    if abandons {
      var n := store.AbandonLeases(held, worker, now);
    }
    given := Stage(before, store.Db());
    if abandons {
      store.OthersRun();
      before := store.Db();
      if reclaims {
        var released, exhausted;
        released, exhausted, victims := store.ReclaimExpired(limit, later);
      }
      taken := Stage(before, store.Db());
    }
  }

  /** A statement that was executed, or one that failed and changed nothing. */
  ghost function Reach(db: Table, op: Op, reached: bool): Table {
    if reached then Exec(db, op) else db
  }

  method SettleBatches(store: Store, plain: map<JobId, Option<Bytes>>, withResult: map<JobId, Option<Bytes>>,
                       retry: map<JobId, Setback>, terminal: map<JobId, string>, w: Settler, reaches: Bucket -> bool)
      returns (ghost f: Flushing)
    requires store.Valid()
    modifies store
    ensures store.Valid() && store.Db() == f.terminal.after
    ensures Later(old(store.Db()), f.plain.before) && Later(f.plain.after, f.withResult.before)
    ensures Later(f.withResult.after, f.retryable.before) && Later(f.retryable.after, f.terminal.before)
    ensures f.plain.after == Reach(f.plain.before, DoComplete(plain, w.worker, w.clock(Plain)), reaches(Plain))
    ensures f.withResult.after ==
              Reach(f.withResult.before, DoComplete(withResult, w.worker, w.clock(WithResult)), reaches(WithResult))
    ensures f.retryable.after ==
              Reach(f.retryable.before, DoRetry(retry, w.worker, w.base, w.cap, w.clock(Retryable)), reaches(Retryable))
    ensures f.terminal.after ==
              Reach(f.terminal.before, DoDiscard(terminal, w.worker, w.clock(Terminal)), reaches(Terminal))
  {
    ghost var one := CompleteBatch(store, plain, w.worker, w.clock(Plain), reaches(Plain));
    ghost var two := CompleteBatch(store, withResult, w.worker, w.clock(WithResult), reaches(WithResult));
    ghost var three := RetryBatch(store, retry, w.worker, w.base, w.cap, w.clock(Retryable), reaches(Retryable));
    ghost var four := DiscardBatch(store, terminal, w.worker, w.clock(Terminal), reaches(Terminal));
    f := Flushing(one, two, three, four);
  }

  lemma LaterStays(db: Table)
    ensures Later(db, db)
  {
    assert db == TableThrough(db, []);
  }

  /** For each report, exactly: right after the statement for its kind, the
      worker holds the job if and only if it did before and the statement
      failed. */
  lemma HeldAfterwardsExactly(db: Table, seen: History, reports: seq<Report>, w: Settler, reached: bool, r: Report)
    requires Inv(db, seen) && r in reports
    ensures var after := Reach(db, StatementFor(BucketOf(r.verdict), reports, w), reached);
            Holds(after, w.worker, r.id) <==> Holds(db, w.worker, r.id) && !reached
  {
    var b := BucketOf(r.verdict);
    if reached {
      EveryReportFiled(reports);
      SettlingEnds(db, seen, StatementFor(b, reports, w), r.id);
      assert r.id in SetOf(Ids(Filed(reports, b)));
    }
  }

  /** A flush whose statement fails releases a job that is still leased: in any
      table where the worker holds the job, some flush of a report on it leaves
      it held. */
  lemma FailedFlushLeavesTheLease(db: Table, id: JobId, verdict: Verdict, w: Settler)
    returns (f: Flushing)
    requires Holds(db, w.worker, id)
    ensures Flushes(db, [Report(id, verdict)], w, _ => false, f, db)
              && Holds(f.At(BucketOf(verdict)).after, w.worker, id)
  {
    var stage := Stage(db, db);
    f := Flushing(stage, stage, stage, stage);
    LaterStays(db);
    assert forall b :: f.At(b) == stage;
  }

  /** Such a table is soon reached: one job, enqueued and leased. */
  lemma ReleasedButLeased(run: seq<Op>, spec: NewJob, verdict: Verdict, w: Settler) returns (f: Flushing)
    requires Insertable(spec) && spec.maxAttempts >= 1
    requires |run| == 2 && run[0] == DoEnqueue(0, spec, 0.0, 0.0) && run[1] == DoLease({0}, w.worker, 30.0, 0.0)
    ensures Flushes(TableAfter(run), [Report(0, verdict)], w, _ => false, f, TableAfter(run))
    ensures Holds(TableAfter(run), w.worker, 0)
  {
    OneIsQueued(run, spec);
    OneIsLeased(run[..1], run[1], w.worker, spec);
    assert run == run[..1] + [run[1]];
    f := FailedFlushLeavesTheLease(TableAfter(run), 0, verdict, w);
  }

  lemma OneIsLeased(run: seq<Op>, op: Op, worker: WorkerId, spec: NewJob)
    requires op == DoLease({0}, worker, 30.0, 0.0) && spec.maxAttempts >= 1
    requires 0 in TableAfter(run).jobs && TableAfter(run).jobs[0] == Inserted(spec, None, None, 0, 0.0, 0.0)
    ensures Holds(TableAfter(run + [op]), worker, 0)
  {
    ReachableInv(run);
    AbortsExactlyWhen(TableAfter(run), SeenAfter(run), op);
    assert (run + [op])[..|run|] == run;
  }

  lemma OneIsQueued(run: seq<Op>, spec: NewJob)
    requires Insertable(spec) && |run| >= 1 && run[0] == DoEnqueue(0, spec, 0.0, 0.0)
    ensures 0 in TableAfter(run[..1]).jobs && TableAfter(run[..1]).jobs[0] == Inserted(spec, None, None, 0, 0.0, 0.0)
  {
    ReachableInv(run[..0]);
    StepAt(run, 0);
    AbortsExactlyWhen(TableAfter(run[..0]), SeenAfter(run[..0]), run[0]);
  }

  lemma EveryReportFiled(reports: seq<Report>)
    ensures forall r :: r in reports ==> r.id in Ids(Filed(reports, BucketOf(r.verdict)))
  {
    forall r | r in reports ensures r.id in Ids(Filed(reports, BucketOf(r.verdict))) {
      var b := BucketOf(r.verdict);
      FiledMembers(reports, b);
      var i :| 0 <= i < |Filed(reports, b)| && Filed(reports, b)[i] == r;
      assert Ids(Filed(reports, b))[i] == r.id;
    }
  }

  /** What is released is what was reported, each as often as it was. */
  lemma SettledAreReported(reports: seq<Report>)
    ensures var settled := Ids(Filed(reports, Plain)) + Ids(Filed(reports, WithResult))
                         + Ids(Filed(reports, Retryable)) + Ids(Filed(reports, Terminal));
            multiset(settled) == multiset(Ids(reports)) && SetOf(settled) == SetOf(Ids(reports))
  {
    FilingConserves(reports);
    MembersAreCounted(Ids(Filed(reports, Plain)) + Ids(Filed(reports, WithResult))
                      + Ids(Filed(reports, Retryable)) + Ids(Filed(reports, Terminal)), Ids(reports));
  }

  lemma MembersAreCounted(a: seq<JobId>, b: seq<JobId>)
    requires multiset(a) == multiset(b)
    ensures SetOf(a) == SetOf(b)
  {
    forall x ensures x in SetOf(a) <==> x in SetOf(b) {
      assert x in a <==> x in multiset(a);
      assert x in b <==> x in multiset(b);
    }
  }

  function Zip<V>(ids: seq<JobId>, values: seq<V>): (m: map<JobId, V>)
    requires |ids| == |values|
    ensures m.Keys == SetOf(ids)
  {
    if ids == [] then map[] else
    var n := |ids| - 1;
    assert ids == ids[..n] + [ids[n]];
    Zip(ids[..n], values[..n])[ids[n] := values[n]]
  }

  function Wrapped(results: seq<Bytes>): seq<Option<Bytes>> {
    seq(|results|, i requires 0 <= i < |results| => Some(results[i]))
  }

  function NoResults(ids: seq<JobId>): (m: map<JobId, Option<Bytes>>)
    ensures m.Keys == SetOf(ids)
  {
    Zip(ids, seq(|ids|, _ => None))
  }

  /** Each failure with the random draw the database makes for its delay. */
  function Setbacks(ids: seq<JobId>, errors: seq<string>, draws: map<JobId, real>): seq<Setback>
    requires |ids| == |errors|
  {
    seq(|ids|, i requires 0 <= i < |ids| => Setback(errors[i], if ids[i] in draws then draws[ids[i]] else 0.0))
  }
}
