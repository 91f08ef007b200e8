/** Statements carried out row by row: which rows a query picks and in which
    order, the scan behind an `UPDATE` or a `DELETE`, and what each of the
    backend's statements makes of the table that way. */
module Rows {
  import opened Prelude
  import opened Graph
  import opened JobTable
  import opened Queue
  import opened QueueInvariant
  import opened Admission
  import Cascade
  import Backoff

  // ---- ordering ------------------------------------------------------------

  /** `ORDER BY priority, scheduled_at, id` between two due rows. */
  predicate Before(db: Table, a: JobId, b: JobId)
    requires a in db.jobs && b in db.jobs
  {
    var x, y := db.jobs[a], db.jobs[b];
    || x.spec.priority < y.spec.priority
    || (x.spec.priority == y.spec.priority && x.scheduledAt.At? && y.scheduledAt.At?
        && (x.scheduledAt.time < y.scheduledAt.time || (x.scheduledAt.time == y.scheduledAt.time && a < b)))
  }

  /** The first `limit` of the candidates in that order. */
  ghost predicate Top(db: Table, candidates: set<JobId>, limit: nat, picked: seq<JobId>) {
    && (forall id :: id in candidates ==> id in db.jobs && db.jobs[id].scheduledAt.At?)
    && (forall i :: 0 <= i < |picked| ==> picked[i] in candidates)
    && (forall i, j :: 0 <= i < j < |picked| ==> Before(db, picked[i], picked[j]))
    && |picked| == (if |candidates| < limit then |candidates| else limit)
    && (forall id, i :: id in candidates && id !in picked && 0 <= i < |picked| ==> Before(db, picked[i], id))
  }

  /** The first row of a set of due rows. */
  method First(db: Table, rows: set<JobId>) returns (first: JobId)
    requires rows != {} && forall id :: id in rows ==> id in db.jobs && db.jobs[id].scheduledAt.At?
    ensures first in rows
    ensures forall id :: id in rows && id != first ==> Before(db, first, id)
  {
    first :| first in rows;
    var left := rows - {first};
    while left != {}
      invariant left <= rows && first in rows && first !in left
      invariant forall id :: id in rows && id !in left && id != first ==> Before(db, first, id)
      decreases |left|
    {
      var id :| id in left;
      if Before(db, id, first) {
        first := id;
      }
      left := left - {id};
    }
  }

  method PickTop(db: Table, candidates: set<JobId>, limit: nat) returns (picked: seq<JobId>)
    requires forall id :: id in candidates ==> id in db.jobs && db.jobs[id].scheduledAt.At?
    ensures Top(db, candidates, limit, picked)
  {
    picked := [];
    var left := candidates;
    while |picked| < limit && left != {}
      invariant left <= candidates && |picked| <= limit
      invariant |picked| + |left| == |candidates|
      invariant forall id :: id in candidates ==> (id in picked <==> id !in left)
      invariant forall i :: 0 <= i < |picked| ==> picked[i] in candidates
      invariant forall i, j :: 0 <= i < j < |picked| ==> Before(db, picked[i], picked[j])
      invariant forall id, i :: id in left && 0 <= i < |picked| ==> Before(db, picked[i], id)
      decreases |left|
    {
      var first := First(db, left);
      picked := picked + [first];
      left := left - {first};
    }
  }

  predicate KeyedDue(db: Table, queues: set<string>, now: real, id: JobId) {
    id in db.jobs && db.jobs[id].DueBy(now) && db.jobs[id].spec.queue in queues && db.jobs[id].spec.limit.Some?
  }

  function UnkeyedRows(db: Table, queues: set<string>, now: real, skipped: set<JobId>): set<JobId> {
    set id | id in db.jobs && db.jobs[id].DueBy(now) && db.jobs[id].spec.queue in queues
             && db.jobs[id].spec.limit.None? && id !in skipped
  }

  function KeyedRows(db: Table, queues: set<string>, now: real, skipped: set<JobId>): set<JobId> {
    set id | id in db.jobs && Candidate(db, db, queues, now, id) && id !in skipped
  }

  lemma TopIsLockable(db: Table, queues: set<string>, limit: nat, now: real, skipped: set<JobId>, locked: seq<JobId>)
    requires Top(db, KeyedRows(db, queues, now, skipped), limit, locked)
    ensures Lockable(db, db, queues, limit, now, locked)
  {
    forall i, j | 0 <= i < j < |locked| ensures locked[i] != locked[j] {
      assert Before(db, locked[i], locked[j]);
    }
  }

  /** Keeps, of the locked rows in order, those their rank leaves room for. */
  method Admit(db: Table, locked: seq<JobId>) returns (admitted: seq<JobId>)
    requires forall i :: 0 <= i < |locked| ==> locked[i] in db.jobs
    ensures SetOf(admitted) == Admitted(db, db, locked)
    ensures |admitted| <= |locked|
    ensures Distinct(locked) ==> Distinct(admitted)
  {
    admitted := [];
    for i := 0 to |locked|
      invariant |admitted| <= i
      invariant forall k :: 0 <= k < |admitted| ==> admitted[k] in locked[..i]
      invariant Distinct(locked) ==> Distinct(admitted)
      invariant forall id :: id in admitted <==> exists n :: 0 <= n < i && Admits(db, db, locked, n) && locked[n] == id
    {
      if Admits(db, db, locked, i) {
        admitted := admitted + [locked[i]];
      }
    }
  }

  // ---- scans ---------------------------------------------------------------

  /** `UPDATE ... SET ... WHERE ...`: every row is tested once, and changed from
      what it was before the statement. */
  method UpdateWhere(rows: map<JobId, Job>, matches: (JobId, Job) -> bool, change: (JobId, Job) -> Job)
      returns (jobs: map<JobId, Job>, touched: set<JobId>)
    ensures touched == set id | id in rows && matches(id, rows[id])
    ensures jobs == map id | id in rows :: if matches(id, rows[id]) then change(id, rows[id]) else rows[id]
  {
    jobs, touched := rows, {};
    var left := rows.Keys;
    while left != {}
      invariant left <= rows.Keys && Scanned(rows, matches, change, left, jobs, touched)
      decreases |left|
    {
      var id :| id in left;
      OneMoreRow(rows, matches, change, left, jobs, touched, id);
      if matches(id, rows[id]) {
        jobs := jobs[id := change(id, rows[id])];
        touched := touched + {id};
      }
      left := left - {id};
    }
  }

  /** The scan has dealt with every row but the ones left. */
  ghost predicate Scanned(rows: map<JobId, Job>, matches: (JobId, Job) -> bool, change: (JobId, Job) -> Job,
                          left: set<JobId>, jobs: map<JobId, Job>, touched: set<JobId>)
  {
    && jobs.Keys == rows.Keys
    && (forall id :: id in touched <==> id in rows && id !in left && matches(id, rows[id]))
    && (forall id :: id in rows ==> jobs[id] == if id in touched then change(id, rows[id]) else rows[id])
  }

  lemma OneMoreRow(rows: map<JobId, Job>, matches: (JobId, Job) -> bool, change: (JobId, Job) -> Job,
                   left: set<JobId>, jobs: map<JobId, Job>, touched: set<JobId>, id: JobId)
    requires id in left && left <= rows.Keys && Scanned(rows, matches, change, left, jobs, touched)
    ensures if matches(id, rows[id])
            then Scanned(rows, matches, change, left - {id}, jobs[id := change(id, rows[id])], touched + {id})
            else Scanned(rows, matches, change, left - {id}, jobs, touched)
  {}

  /** `DELETE`: the victims go, and each takes the edges at either end of it. */
  method DeleteRows(db: Table, victims: set<JobId>) returns (next: Table)
    requires victims <= db.jobs.Keys
    ensures next == Delete(db, victims)
  {
    var jobs, edges := db.jobs, db.edges;
    var left := victims;
    while left != {}
      invariant left <= victims
      invariant jobs == map id | id in db.jobs && id !in victims - left :: db.jobs[id]
      invariant edges == set e | e in db.edges && e.0 !in victims - left && e.1 !in victims - left
      decreases |left|
    {
      var id :| id in left;
      jobs := map other | other in jobs && other != id :: jobs[other];
      edges := set e | e in edges && e.0 != id && e.1 != id;
      left := left - {id};
    }
    next := Table(jobs, edges, db.used);
  }

  /** The oldest finished rows, as many as the limit allows. */
  ghost predicate Oldest(db: Table, candidates: set<JobId>, limit: nat, victims: set<JobId>) {
    && (forall id :: id in candidates ==> id in db.jobs && db.jobs[id].finalizedAt.Some?)
    && victims <= candidates
    && |victims| == (if |candidates| < limit then |candidates| else limit)
    && forall v, c :: v in victims && c in candidates && c !in victims ==>
         db.jobs[v].finalizedAt.value <= db.jobs[c].finalizedAt.value
  }

  method OldestOf(db: Table, rows: set<JobId>) returns (oldest: JobId)
    requires rows != {} && forall id :: id in rows ==> id in db.jobs && db.jobs[id].finalizedAt.Some?
    ensures oldest in rows
    ensures forall id :: id in rows ==> db.jobs[oldest].finalizedAt.value <= db.jobs[id].finalizedAt.value
  {
    oldest :| oldest in rows;
    var left := rows - {oldest};
    while left != {}
      invariant left <= rows && oldest in rows
      invariant forall id :: id in rows && id !in left ==>
                  db.jobs[oldest].finalizedAt.value <= db.jobs[id].finalizedAt.value
      decreases |left|
    {
      var id :| id in left;
      if db.jobs[id].finalizedAt.value < db.jobs[oldest].finalizedAt.value {
        oldest := id;
      }
      left := left - {id};
    }
  }

  method PickOldest(db: Table, candidates: set<JobId>, limit: nat) returns (victims: set<JobId>)
    requires forall id :: id in candidates ==> id in db.jobs && db.jobs[id].finalizedAt.Some?
    ensures Oldest(db, candidates, limit, victims)
  {
    victims := {};
    var left := candidates;
    while |victims| < limit && left != {}
      invariant left !! victims && left + victims == candidates && |victims| + |left| == |candidates|
                  && |victims| <= limit
      invariant forall v, c :: v in victims && c in left ==>
                  db.jobs[v].finalizedAt.value <= db.jobs[c].finalizedAt.value
      decreases |left|
    {
      var id := OldestOf(db, left);
      victims, left := victims + {id}, left - {id};
    }
  }

  /** `expired`: no order is asked for, so any of them may be taken. */
  method ExpiredRows(db: Table, limit: nat, now: real) returns (victims: set<JobId>)
    ensures forall id :: id in victims ==> id in db.jobs && db.jobs[id].Expired(now)
    ensures |victims| <= limit
    ensures |victims| < limit ==> forall id :: id in db.jobs && db.jobs[id].Expired(now) ==> id in victims
  {
    var left := set id | id in db.jobs && db.jobs[id].Expired(now);
    victims := {};
    while left != {} && |victims| < limit
      invariant forall id :: id in db.jobs && db.jobs[id].Expired(now) <==> id in left || id in victims
      invariant left !! victims && |victims| <= limit
      decreases |left|
    {
      var id :| id in left;
      left, victims := left - {id}, victims + {id};
    }
  }

  // ---- statements of one update --------------------------------------------

  function HeldAmong(db: Table, ids: set<JobId>, worker: WorkerId): set<JobId> {
    set id | id in ids && id in db.jobs && db.jobs[id].HeldBy(worker)
  }

  function WaitingAmong(db: Table, ids: set<JobId>): set<JobId> {
    set id | id in ids && id in db.jobs && db.jobs[id].state.Available?
  }

  function ToReviveIn(db: Table, chosen: Option<set<JobId>>, queue: Option<string>): set<JobId> {
    set id | id in db.jobs && ToRevive(db.jobs[id], id, chosen, queue)
  }

  /** Whether every row kept to its bound on attempts is seen afterwards. */
  method LeasedRows(db: Table, picked: set<JobId>, worker: WorkerId, lease: real, now: real)
      returns (jobs: map<JobId, Job>, ok: bool)
    requires picked <= db.jobs.Keys
    ensures jobs == Lease(db, picked, worker, lease, now).jobs
    ensures ok <==> !Exhausted(db, picked)
  {
    var touched;
    jobs, touched := UpdateWhere(db.jobs, (id: JobId, job: Job) => id in picked,
                                 (id: JobId, job: Job) => job.Leased(worker, lease, now));
    ok := forall id :: id in picked ==> jobs[id].attempt <= jobs[id].spec.maxAttempts;
    assert forall id :: id in picked ==> jobs[id].attempt == db.jobs[id].attempt + 1;
  }

  method RenewedRows(db: Table, ids: set<JobId>, worker: WorkerId, lease: real, now: real)
      returns (jobs: map<JobId, Job>, held: set<JobId>)
    ensures jobs == Renew(db, ids, worker, lease, now).jobs && held == HeldAmong(db, ids, worker)
  {
    jobs, held := UpdateWhere(db.jobs, (id: JobId, job: Job) => id in ids && job.HeldBy(worker),
                              (id: JobId, job: Job) => job.LeaseUntil(now + lease));
  }

  method AbandonedRows(db: Table, ids: set<JobId>, worker: WorkerId, now: real)
      returns (jobs: map<JobId, Job>, held: set<JobId>)
    ensures jobs == Abandon(db, ids, worker, now).jobs && held == HeldAmong(db, ids, worker)
  {
    jobs, held := UpdateWhere(db.jobs, (id: JobId, job: Job) => id in ids && job.HeldBy(worker),
                              (id: JobId, job: Job) => job.LeaseUntil(now - Microsecond));
  }

  method CancelledRows(db: Table, ids: set<JobId>, now: real) returns (jobs: map<JobId, Job>, waiting: set<JobId>)
    ensures jobs == Cancel(db, ids, now).jobs && waiting == WaitingAmong(db, ids)
  {
    jobs, waiting := UpdateWhere(db.jobs, (id: JobId, job: Job) => id in ids && job.state.Available?,
                                 (id: JobId, job: Job) => job.CancelledByUser(now));
  }

  method RevivedRows(db: Table, chosen: Option<set<JobId>>, queue: Option<string>, now: real)
      returns (jobs: map<JobId, Job>, revived: set<JobId>)
    ensures jobs == Revive(db, chosen, queue, now).jobs && revived == ToReviveIn(db, chosen, queue)
  {
    jobs, revived := UpdateWhere(db.jobs, (id: JobId, job: Job) => ToRevive(job, id, chosen, queue),
                                 (id: JobId, job: Job) => job.Revived(now));
  }

  /** Whether no unique key came to be live twice is seen afterwards. */
  method RevivedIfUnique(db: Table, chosen: Option<set<JobId>>, queue: Option<string>, now: real)
      returns (jobs: map<JobId, Job>, revived: set<JobId>, ok: bool)
    requires UniqueLive(db.jobs)
    ensures jobs == Revive(db, chosen, queue, now).jobs && revived == ToReviveIn(db, chosen, queue)
    ensures ok <==> !KeyClash(db, chosen, queue)
  {
    ReviveClashes(db, chosen, queue, now);
    jobs, revived := RevivedRows(db, chosen, queue, now);
    ok := UniqueLive(jobs);
  }

  // ---- statements of several parts -----------------------------------------

  lemma OneMoreParent(db: Table, done: set<JobId>, e: Edge, c: JobId)
    requires e !in db.edges && e.0 in done
    ensures var more := db.(edges := db.edges + {e});
            && (c != e.1 ==> Finishing(more, done, c) == Finishing(db, done, c))
            && Finishing(more, done, e.1) == Finishing(db, done, e.1) + {e.0}
            && |Finishing(more, done, e.1)| == |Finishing(db, done, e.1)| + 1
  {
    assert Finishing(db.(edges := db.edges + {e}), done, e.1) == Finishing(db, done, e.1) + {e.0};
    assert e.0 !in Finishing(db, done, e.1);
  }

  /** For each child with a finishing parent, how many there are. */
  ghost predicate Counts(counts: map<JobId, nat>, db: Table, done: set<JobId>) {
    && (forall c :: c in counts <==> Finishing(db, done, c) != {})
    && (forall c :: c in counts ==> counts[c] == |Finishing(db, done, c)|)
  }

  lemma CountsGrow(counts: map<JobId, nat>, db: Table, done: set<JobId>, e: Edge)
    requires Counts(counts, db, done) && e !in db.edges && e.0 in done
    ensures Counts(counts[e.1 := 1 + if e.1 in counts then counts[e.1] else 0], db.(edges := db.edges + {e}), done)
  {
    forall c: nat
      ensures c != e.1 ==> Finishing(db.(edges := db.edges + {e}), done, c) == Finishing(db, done, c)
    {
      OneMoreParent(db, done, e, c);
    }
    OneMoreParent(db, done, e, e.1);
  }

  /** `counted`, edge by edge. */
  method CountFinishing(db: Table, done: set<JobId>) returns (counts: map<JobId, nat>)
    ensures Counts(counts, db, done)
  {
    counts := map[];
    var relevant := set e | e in db.edges && e.0 in done;
    var left := relevant;
    while left != {}
      invariant left <= relevant && Counts(counts, db.(edges := relevant - left), done)
      decreases |left|
    {
      var e :| e in left;
      CountsGrow(counts, db.(edges := relevant - left), done, e);
      assert relevant - left + {e} == relevant - (left - {e});
      counts := counts[e.1 := 1 + if e.1 in counts then counts[e.1] else 0];
      left := left - {e};
    }
    assert relevant - {} == relevant;
    forall c: nat ensures Finishing(db.(edges := relevant), done, c) == Finishing(db, done, c) {}
  }

  function Payload<R>(reports: map<JobId, R>, id: JobId, otherwise: R): R {
    if id in reports then reports[id] else otherwise
  }

  method FinishedRows(db: Table, results: map<JobId, Option<Bytes>>, worker: WorkerId, now: real)
      returns (jobs: map<JobId, Job>, done: set<JobId>)
    ensures done == Reported(db, results, worker)
    ensures jobs == map id | id in db.jobs :: if id in done then db.jobs[id].Finished(results[id], now) else db.jobs[id]
  {
    jobs, done := UpdateWhere(db.jobs, (id: JobId, job: Job) => id in results && job.HeldBy(worker),
                              (id: JobId, job: Job) => job.Finished(Payload(results, id, None), now));
  }

  method ReleasedRows(rows: map<JobId, Job>, counts: map<JobId, nat>, now: real) returns (jobs: map<JobId, Job>)
    ensures jobs == map id | id in rows :: if id in counts then rows[id].Unblocked(counts[id], now) else rows[id]
  {
    var released;
    jobs, released := UpdateWhere(rows, (id: JobId, job: Job) => id in counts,
                                  (id: JobId, job: Job) => job.Unblocked(Payload(counts, id, 0), now));
  }

  /** Finishes the rows still held, then releases what waited for them. The two
      updates must not meet on a row, and in a reachable table they never do. */
  method CompletedRows(db: Table, results: map<JobId, Option<Bytes>>, worker: WorkerId, now: real)
      returns (jobs: map<JobId, Job>, done: set<JobId>)
    requires forall id :: id in Reported(db, results, worker) ==> Finishing(db, Reported(db, results, worker), id) == {}
    ensures jobs == Complete(db, results, worker, now).jobs && done == Reported(db, results, worker)
  {
    var finished;
    finished, done := FinishedRows(db, results, worker, now);
    var counts := CountFinishing(db, done);
    jobs := ReleasedRows(finished, counts, now);
    forall id | id in db.jobs ensures jobs[id] == CompletedRow(db, results, done, now, id) {}
  }

  /** Buries the rows still held, walks the edges below them, and cancels what
      is waiting there. */
  method DiscardedRows(db: Table, errors: map<JobId, string>, worker: WorkerId, now: real)
      returns (jobs: map<JobId, Job>, dead: set<JobId>)
    ensures jobs == Discard(db, errors, worker, now).jobs && dead == Reported(db, errors, worker)
  {
    var buried;
    buried, dead := UpdateWhere(db.jobs, (id: JobId, job: Job) => id in errors && job.HeldBy(worker),
                                (id: JobId, job: Job) => job.Buried(Payload(errors, id, ""), now));
    assert dead == Reported(db, errors, worker);
    var walk := Cascade.Walk(db.edges, dead);
    var cancelled;
    jobs, cancelled := UpdateWhere(buried, (id: JobId, job: Job) => id in walk && job.state.Available?,
                                   (id: JobId, job: Job) => job.CancelledByCascade(now));
    forall id | id in db.jobs ensures jobs[id] == Discard(db, errors, worker, now).jobs[id] {
      assert id in walk <==> Downstream(db.edges, dead, id);
    }
  }

  /** Reschedules the rows still held that have attempts left, and buries the
      others: two updates under one snapshot, which never meet. */
  method RetriedRows(db: Table, setbacks: map<JobId, Setback>, worker: WorkerId, base: real, cap: real, now: real)
      returns (jobs: map<JobId, Job>, scheduled: set<JobId>, exhausted: set<JobId>)
    ensures jobs == Retry(db, setbacks, worker, base, cap, now).jobs
    ensures scheduled ==
              set id | id in Reported(db, setbacks, worker) && db.jobs[id].attempt < db.jobs[id].spec.maxAttempts
    ensures exhausted == Reported(db, setbacks, worker) - scheduled
  {
    var none := Setback("", 0.0);
    var some;
    some, scheduled := UpdateWhere(db.jobs,
      (id: JobId, job: Job) => id in setbacks && job.HeldBy(worker) && job.attempt < job.spec.maxAttempts,
      (id: JobId, job: Job) => job.Rescheduled(Payload(setbacks, id, none).error,
                                        Backoff.Delay(base, cap, job.attempt, Payload(setbacks, id, none).draw), now));
    jobs, exhausted := UpdateWhere(some,
      (id: JobId, job: Job) => id in setbacks && job.HeldBy(worker) && job.attempt >= job.spec.maxAttempts,
      (id: JobId, job: Job) => job.Buried(Payload(setbacks, id, none).error, now));
  }

  /** Returns expired rows to the queue, and buries those out of attempts. */
  method ReclaimedRows(db: Table, victims: set<JobId>, now: real)
      returns (jobs: map<JobId, Job>, released: set<JobId>, exhausted: set<JobId>)
    requires forall id :: id in victims ==> id in db.jobs && db.jobs[id].state.Running?
    ensures jobs == Reclaim(db, victims, now).jobs
    ensures released == set id | id in victims && db.jobs[id].attempt < db.jobs[id].spec.maxAttempts
    ensures exhausted == victims - released
  {
    var some;
    some, released := UpdateWhere(db.jobs,
      (id: JobId, job: Job) => id in victims && job.attempt < job.spec.maxAttempts && job.state.Running?,
      (id: JobId, job: Job) => job.Released());
    jobs, exhausted := UpdateWhere(some,
      (id: JobId, job: Job) => id in victims && job.attempt >= job.spec.maxAttempts && job.state.Running?,
      (id: JobId, job: Job) => job.Buried(LeaseExpired, now));
  }

  function OutOfAttempts(db: Table, ids: set<JobId>): set<JobId> {
    set id | id in ids && id in db.jobs && db.jobs[id].attempt >= db.jobs[id].spec.maxAttempts
  }

  lemma SplitByAttempts(db: Table, ids: set<JobId>, again: set<JobId>, over: set<JobId>)
    requires ids <= db.jobs.Keys && over == ids - again
    requires again == set id | id in ids && db.jobs[id].attempt < db.jobs[id].spec.maxAttempts
    ensures |again| + |over| == |ids| && over == OutOfAttempts(db, ids)
  {
    assert again + over == ids && again !! over;
  }

  method RetriedCounts(db: Table, setbacks: map<JobId, Setback>, worker: WorkerId, base: real, cap: real, now: real)
      returns (jobs: map<JobId, Job>, scheduled: nat, exhausted: nat)
    ensures jobs == Retry(db, setbacks, worker, base, cap, now).jobs
    ensures scheduled + exhausted == |Reported(db, setbacks, worker)|
    ensures exhausted == |OutOfAttempts(db, Reported(db, setbacks, worker))|
  {
    var again, over;
    jobs, again, over := RetriedRows(db, setbacks, worker, base, cap, now);
    scheduled, exhausted := |again|, |over|;
    SplitByAttempts(db, Reported(db, setbacks, worker), again, over);
  }

  method ReclaimedUpTo(db: Table, limit: nat, now: real)
      returns (jobs: map<JobId, Job>, released: nat, exhausted: nat, ghost victims: set<JobId>)
    ensures forall id :: id in victims ==> id in db.jobs && db.jobs[id].Expired(now)
    ensures |victims| < limit ==> forall id :: id in db.jobs && db.jobs[id].Expired(now) ==> id in victims
    ensures jobs == Reclaim(db, victims, now).jobs
    ensures released + exhausted == |victims| <= limit && exhausted == |OutOfAttempts(db, victims)|
  {
    var expired := ExpiredRows(db, limit, now);
    victims := expired;
    var again, over;
    jobs, again, over := ReclaimedRows(db, expired, now);
    released, exhausted := |again|, |over|;
    SplitByAttempts(db, victims, again, over);
  }

  // ---- inserting -----------------------------------------------------------

  /** Row by row, each with the id the sequence handed out for it. */
  method NodeRows(db: Table, flow: WorkflowId, nodes: seq<Node>, pending: seq<nat>, ids: seq<JobId>, now: real)
      returns (jobs: map<JobId, Job>)
    requires |pending| == |ids| == |nodes| && FreshIds(db, ids) && forall id :: id in db.jobs ==> id in db.used
    ensures jobs.Keys == db.jobs.Keys + SetOf(ids)
    ensures forall id :: id in db.jobs ==> jobs[id] == db.jobs[id]
    ensures forall n :: 0 <= n < |ids| ==>
              jobs[ids[n]] == Inserted(nodes[n].spec, Some(flow), None, pending[n], nodes[n].delay, now)
  {
    jobs := db.jobs;
    for i := 0 to |nodes|
      invariant jobs.Keys == db.jobs.Keys + SetOf(ids[..i])
      invariant forall id :: id in db.jobs ==> jobs[id] == db.jobs[id]
      invariant forall n :: 0 <= n < i ==>
                  jobs[ids[n]] == Inserted(nodes[n].spec, Some(flow), None, pending[n], nodes[n].delay, now)
    {
      assert ids[..i + 1] == ids[..i] + [ids[i]];
      jobs := jobs[ids[i] := Inserted(nodes[i].spec, Some(flow), None, pending[i], nodes[i].delay, now)];
    }
    assert ids[..|ids|] == ids;
  }

  /** Inserts the nodes one by one, then the edges between their rows. */
  method WorkflowRows(db: Table, flow: WorkflowId, nodes: seq<Node>, pending: seq<nat>, edges: set<Edge>,
                      ids: seq<JobId>, now: real) returns (next: Table)
    requires |ids| == |nodes| && FreshIds(db, ids) && forall id :: id in db.jobs ==> id in db.used
    requires |pending| == |nodes| && forall i :: 0 <= i < |nodes| ==> pending[i] == InDegree(edges, i)
    requires forall e :: e in edges ==> e.0 < |nodes| && e.1 < |nodes|
    ensures next == InsertWorkflow(db, flow, nodes, edges, ids, now)
  {
    var jobs := NodeRows(db, flow, nodes, pending, ids, now);
    next := Table(jobs, db.edges + EdgeRows(edges, ids), db.used + SetOf(ids));
    RowsAreInserted(db, flow, nodes, pending, edges, ids, now, jobs);
  }

  lemma RowsAreInserted(db: Table, flow: WorkflowId, nodes: seq<Node>, pending: seq<nat>, edges: set<Edge>,
                        ids: seq<JobId>, now: real, jobs: map<JobId, Job>)
    requires |pending| == |ids| == |nodes| && forall i :: 0 <= i < |nodes| ==> pending[i] == InDegree(edges, i)
    requires forall e :: e in edges ==> e.0 < |ids| && e.1 < |ids|
    requires forall id :: id in db.jobs ==> id !in ids
    requires jobs.Keys == db.jobs.Keys + SetOf(ids) && forall id :: id in db.jobs ==> jobs[id] == db.jobs[id]
    requires forall n :: 0 <= n < |ids| ==>
               jobs[ids[n]] == Inserted(nodes[n].spec, Some(flow), None, pending[n], nodes[n].delay, now)
    ensures jobs == InsertWorkflow(db, flow, nodes, edges, ids, now).jobs
  {
    forall id | id in ids ensures jobs[id] == InsertWorkflow(db, flow, nodes, edges, ids, now).jobs[id] {
      RowIsInserted(db, flow, nodes, edges, ids, now, id);
      var n := PositionOf(ids, id);
    }
    SameRows(jobs, InsertWorkflow(db, flow, nodes, edges, ids, now).jobs);
  }

  lemma RowIsInserted(db: Table, flow: WorkflowId, nodes: seq<Node>, edges: set<Edge>, ids: seq<JobId>, now: real,
                      id: JobId)
    requires |ids| == |nodes| && id in ids && forall e :: e in edges ==> e.0 < |ids| && e.1 < |ids|
    ensures var n := PositionOf(ids, id);
            InsertWorkflow(db, flow, nodes, edges, ids, now).jobs[id] ==
              Inserted(nodes[n].spec, Some(flow), None, InDegree(edges, n), nodes[n].delay, now)
  {}

  lemma SameRows(a: map<JobId, Job>, b: map<JobId, Job>)
    requires a.Keys == b.Keys && forall id :: id in a ==> a[id] == b[id]
    ensures a == b
  {}
}
