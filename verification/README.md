# Gylo: a verified model of the queue

Gylo is a task queue kept in Postgres tables. Supervisors lease jobs in batches,
hand them to Python children over a framed byte protocol, and settle what the
children report. This project models that machinery in Dafny and proves what it
promises over every run. `dafny verify dfyconfig.toml` verifies all of it.

The parts, from the table outwards:

- **The queue.** `JobTable` holds the rows and, for each SQL statement, the table
  it proposes. `Queue` makes a state machine of the statements: any statement, by
  any worker, at any time, in any order. A statement whose rows it could not have
  chosen does nothing; one that breaks a constraint is aborted whole. A *run* is
  any sequence of statements, with any values callers may hand in. `QueueInvariant`
  proves the invariant that carries the rest. `Lifecycle`, `Effects`, `FanIn`,
  `Completion`, `Cascade`, `Stranding` and `Refusals` say what it means for jobs and
  workflows. `Columns` tells what each statement writes, column by column, and what
  it leaves alone. `Backend` is the same table as an object. Its methods pick, update,
  delete and count rows with the loops of `Rows`, and refine the state machine;
  `Counts` says of which rows the numbers they return are.
- **Keyed admission.** `Admission` breaks the keyed fetch into its phases (lock,
  snapshot, rank, commit) with everybody else's statements running in between.
  `Picks` says which rows a fetch takes and leaves, by their columns alone.
- **Workflows.** `Composition` gives chains, groups and chords a meaning and the
  graphs they build; `Workflows` has the mutable Python objects and their loops;
  `Covers` shows that their graphs have no edge too many; `Sharing` evaluates whole
  expressions over them; `EndToEnd` joins the composition to every run of the queue.
- **The wire.** `Wire` is the frame format and a parser of whole streams, `Codec`
  the Rust encoder and incremental decoder, `PythonWire` the Python half and when
  the two agree. `Layout` measures them against the documented bytes and `Utf8`
  against the encoding of code points.
- **Leases in time.** `LeaseTiming` is a timed machine for one worker's leases,
  renewals, flushes and shutdown. `Exclusive` runs it together with everybody else's
  statements on the one table, `Exposure` shows that its conditions are exact there,
  and `Disturbed` is a run in which an operator gets in the way.
- **Around the queue.** `DurableSteps` (record, store, acknowledge, replay),
  `Cron` (leaderless schedules), `Supervisor`, `Verdicts` and `Overshoot` (in-flight
  accounting and settling). `Backoff`, `Graph`, `ByteCoding` and `Prelude` support them.

## Where the code does not do what it says

Each of these is proved with a run in which it happens. Where the promise can hold,
the exact condition for it is proved too.

- `docs/workflows.md:39-41` says a dead-lettered job cancels everything downstream.
  Only `DISCARD_MANY` does. A job that runs out of attempts in `RETRY_MANY` or
  `RECLAIM`, or is cancelled by a user, leaves its children parked
  (`Stranding.StrandsExactlyWhenUnclean`, `Stranding.ExhaustedStepParksItsChain`).
- `docs/deployment.md:35-38` says the lease bounds recovery time, never task
  duration, and that the startup validation keeps healthy jobs from being
  reclaimed. That takes two things, and holds exactly when both are given
  (`LeaseTiming.SafeExactlyWhen`). The lease must cover the handover, one turn of the
  renew loop for each tolerated failure and one more, and the longer of one round
  trip and the shutdown drain; two round trips count, not one, since a job can be
  handed over just after a snapshot. And a flush must be over sooner than anything
  it settled can come due again: a retried job fetched before its release is taken
  out of the in-flight set while its child runs it, and never renewed
  (`LeaseTiming.SomeRefetchExpires`).
- The renew loop stops at shutdown while children may drain for 30 seconds, so with
  the default 30 second lease a draining job can be reclaimed and run twice
  (`LeaseTiming.DefaultsExposeDraining`).
- No timing helps a job that an operator retries out of a flush that has discarded
  and not yet released it (`Disturbed.RevivedOutOfAFlush`). Without that, workers
  share the table safely exactly under the two conditions above, `comeback` being the
  shortest retry delay (`Exclusive.ClaimsAreExclusive`,
  `Exposure.ExclusiveExactlyWhen`).
- A fetch that picks one row without an attempt left is aborted for the whole
  batch, and `max_attempts` of zero is accepted at enqueue
  (`Refusals.FetchAbortsExactlyWhen`, `Refusals.ZeroAttemptsPoisonsTheQueue`).
- Durable steps run again when an attempt is not handed what is stored, which is so
  for the first attempt after an operator's retry, or when a record lands while an
  overlapping attempt has still to call the step (`DurableSteps.RunRepeatsExactlyWhen`,
  `DurableSteps.OperatorRetryRepeatsSteps`, `DurableSteps.OverlapRepeatsSteps`). A
  task that calls a step twice without awaiting it goes on with a result that is not
  the recorded one (`DurableSteps.UnawaitedStepSplits`).
- An operator's retry of dead letters is aborted by the unique index exactly when it
  would make one key live twice (`QueueInvariant.AbortsExactlyWhen`,
  `Refusals.RivalKeyAbortsTheRetry`).
- A failure report longer than 64 KiB is cut by bytes; when the cut splits a
  character the supervisor rejects the frame (`PythonWire.FailureArrives`,
  `Layout.TextArrives`, `PythonWire.TruncationCanBreakAReport`).
- The two halves of the protocol unpack MessagePack with different libraries, and
  make the same of a stream exactly when those agree on the frames met
  (`PythonWire.DecodersAgree`, `PythonWire.UnlikeFrameSplits`).
- The next run of a schedule is computed from a worker's clock, read once a round.
  A clock that lags the database fires an occurrence again, and so does a round that
  is slower than the schedule (`Cron.RunInOrderExactlyWhen`,
  `Cron.RoundInOrderExactlyWhen`, `Cron.LaggingClockFiresTwice`,
  `Cron.SlowRoundFiresTwice`).
- `crates/gylo-worker/src/lib.rs:921-922` says jobs are released once their batch
  is durable; a batch whose statement failed is released as well, and exactly then
  its jobs are still leased (`Supervisor.HeldAfterwardsExactly`,
  `Supervisor.ReleasedButLeased`).
- `chord` extends its body in place, so an expression that uses the body elsewhere
  may copy it with the callback in it. It builds the graph that is written exactly
  when no argument of a chain or group was extended by another
  (`Sharing.BuildsAsWrittenExactlyWhen`, `Sharing.SharedBodyIsCopiedTwice`).

## Model

| member | source | states |
|---|---|---|
| QueueInvariant.ReachableInv | crates/gylo-pg/src/lib.rs:97-464 | In every run, whatever callers hand in, after every statement: rows are well formed (running exactly when held, finalised exactly when not live), unique keys are live once, edges are the inserted ones whose rows are still there, each pending count is the number of inserted parents that have never completed, and nothing was ever leased before its parents completed |
| QueueInvariant.AbortsExactlyWhen | migrations/0001_create_job.sql:27-30 | From any reachable table the constraints abort an insert exactly when a limit it carries is not positive or its attempts are negative, a lease exactly when it picked a row with no attempt left, an operator's retry exactly when a unique key would be live twice, and nothing else ever |
| QueueInvariant.NeverAborts | migrations/0001_create_job.sql:27-30 | No report, renewal, reclaim, cancel or deletion trips a constraint in a reachable table |
| QueueInvariant.DoneAndReleasedDisjoint | crates/gylo-pg/src/lib.rs:217-250 | No job completed by a statement is also a child released by it, so no row is updated twice |
| Lifecycle.RunEvolves | crates/gylo-pg/src/lib.rs:128-152 | Over every step of every run: the only state changes that exist, what each does to attempts and errors, that only finalised rows are deleted, and that new rows are fresh and unattempted |
| Lifecycle.CompletedIsFinal | crates/gylo-pg/src/lib.rs:217-228 | A completed job is unchanged or gone at every later point of every run; it is never leased again and its id never reused |
| Lifecycle.LeaseEndsProperly | crates/gylo-pg/src/lib.rs:307-335 | A running job stops running at a statement if and only if that statement is its holder's report on it or a reclaim of its expired lease |
| Lifecycle.Fencing | crates/gylo-pg/src/lib.rs:346-350 | No completion, failure, renewal or abandonment by one worker changes a row that another worker is running |
| Lifecycle.SettlingEnds | crates/gylo-worker/src/lib.rs:866-919 | A settling statement ends exactly the leases of its worker that it reports on, starts none and leaves the others as they are |
| Lifecycle.AttemptsCounted | crates/gylo-pg/src/lib.rs:375-413 | In every run the attempt counter is the number of leases since insertion or the last operator reset, and the errors since then carry strictly increasing attempts, none for an attempt still running |
| FanIn.HistoryIsObserved | crates/gylo-pg/src/lib.rs:229-244 | The ghost history is what the run's own tables showed: an edge, a completion or a lease is in it exactly when some table of the run had it |
| FanIn.FanInExact | crates/gylo-pg/src/lib.rs:229-244 | In every run, deletions and operator retries included, there is the set of a row's inserted parents never seen completed, and its `pending_deps` is the size of that set; the row is parked at infinity exactly while that is positive, and zero once it has run |
| FanIn.AncestorsFirst | crates/gylo-pg/src/lib.rs:229-244 | Whatever has been leased in a run had every transitive ancestor complete in that run |
| Effects.LeaseProtects | crates/gylo-pg/src/lib.rs:138-146 | After a lease the table accepts, the worker holds the job and a reclaim may take it exactly after the lease has run out, never at or before |
| Effects.RenewalProtects | crates/gylo-pg/src/lib.rs:346-350 | A renewal by the holder gives the same protection anew, whatever was left |
| Effects.HandedBackAtOnce | crates/gylo-worker/src/lib.rs:370-391 | What a failed session abandons can be reclaimed at that very moment, and is then due as before its lease, or dead-lettered if that was its last attempt |
| Effects.RetryBacksOff | crates/gylo-pg/src/lib.rs:375-413 | A retryable failure is remembered with its attempt; with attempts left the job comes due inside the jitter window of its backoff and not before, otherwise it is dead-lettered |
| Effects.ReviveStartsOver | crates/gylo-pg/src/lib.rs:960-972 | An operator's retry that commits makes the job due at once with all its attempts and all its past errors |
| Effects.LastParentReleases | crates/gylo-pg/src/lib.rs:229-244 | A waiting child comes due at the moment its last unmet parents complete, and stays parked as long as one is missing |
| Effects.CancelledNeverRuns | crates/gylo-pg/src/lib.rs:252-259 | A cancelled job stays cancelled at every later point of every run |
| Effects.ResultIsKept | crates/gylo-pg/src/lib.rs:217-228 | The result a holder reports is the one read at every later point of the run, for as long as the row is kept |
| Columns.OnlyItsRowsChange | crates/gylo-pg/src/lib.rs:217-295 | In every reachable table a statement leaves a row exactly as it was unless it names it in the state it asks for, completes a parent of it, or buries something upstream of it while it waits |
| Columns.ColumnsTell | crates/gylo-pg/src/lib.rs:128-152 | Whatever a statement changes of a row that stays comes from the statement: start and end are its clock, a new error is one entry with the attempt, the clock and the text reported for that job, a result is the one reported for it, and a schedule moves only by a retry, by completing a parent or by an operator's retry |
| Columns.FailureIsWritten | crates/gylo-pg/src/lib.rs:266-295 | Every failure its worker reports ends up as the last error with that text and attempt, terminal or not |
| Columns.EnqueuedAsAsked | crates/gylo-pg/src/lib.rs:97-102 | A new job has the queue, task, payload and options asked for and the key asked for, and can be fetched from `now + delay` on and not before; no other row appears |
| Columns.NodesAsAsked | python/gylo/_adapters.py:77-103 | Each node of an inserted workflow has the job written for it, due from its delay on if it has no parent and not due at all otherwise |
| Columns.GoneExactly | crates/gylo-pg/src/lib.rs:1018-1043 | A row goes exactly when retention takes it or it is a dead letter of the purged queue; what retention takes is over, old enough, of the states and queue asked for, and in no workflow with a live member |
| Columns.CancelledExactly | crates/gylo-pg/src/lib.rs:252-259 | A cancellation ends exactly the waiting jobs it names and leaves the state of every other as it is |
| Refusals.FetchAbortsExactlyWhen | migrations/0001_create_job.sql:27 | In every run a fetch has no effect at all exactly when the batch it picked has a row with no attempt left |
| Refusals.AttemptableRunsNeverAbortAFetch | migrations/0001_create_job.sql:27 | As long as every job may be attempted at least once, no fetch of any run is aborted |
| Refusals.ZeroAttemptsPoisonsTheQueue | crates/gylo-pg/src/lib.rs:97-102 | A job enqueued with no attempts is accepted, and then a healthy job beside it cannot be leased with it |
| Refusals.RivalKeyAbortsTheRetry | migrations/0003_unique_jobs.sql:3-5 | A run in which a key is dead-lettered and queued again, and the operator's retry is aborted and revives nobody |
| Completion.BatchSplits | crates/gylo-pg/src/lib.rs:217-250 | Completing a batch equals completing any one of its jobs and then the rest |
| Completion.BatchRefinesSingles | crates/gylo-pg/src/lib.rs:217-250 | In every reachable table, completing a batch equals completing its jobs one at a time in any order |
| Cascade.Walk | crates/gylo-pg/src/lib.rs:266-280 | The recursive walk terminates on every graph, cycles included, and finds exactly what is reachable from the dead jobs |
| Cascade.DownstreamWaits | crates/gylo-pg/src/lib.rs:266-295 | Everything downstream of a job that has not completed was never leased and is available or cancelled |
| Cascade.CascadeClosed | crates/gylo-pg/src/lib.rs:266-295 | After a terminal failure in any run, every descendant is cancelled and had never run, and rows not downstream are unchanged |
| Stranding.StrandsExactlyWhenUnclean | crates/gylo-pg/src/lib.rs:375-417 | From a table where nobody waits in vain, a statement keeps it so if and only if every job it kills without cascading has no live child, other than ones killed with it |
| Stranding.CleanRunsStrandNobody | crates/gylo-pg/src/lib.rs:266-295 | A run of such statements never leaves a live job waiting for a parent that cannot complete |
| Stranding.StrandedForever | crates/gylo-pg/src/lib.rs:252-259 | A child of a parent that was cancelled or deleted is never leased in any continuation; of a discarded one, not before an operator retries it |
| Stranding.NoParkedGraph | crates/gylo-pg/src/lib.rs:234-244 | In a clean run of composed workflows, while any member of a workflow is live some live member of it, itself or an ancestor, is running or has a finite time at which it will |
| Stranding.ExhaustedStepParksItsChain | crates/gylo-pg/src/lib.rs:375-417 | In a chain of two whose first step fails retryably on its last attempt, the first is dead-lettered and the second stays parked |
| Admission.LimitsAlwaysHold | crates/gylo-pg/src/lib.rs:171-208 | Over every interleaving of lock, snapshot, ranking and commit with other workers' statements: for every key and every v, at most v running jobs of the key have a limit of v or less |
| Admission.OneLimitNeverExceeded | crates/gylo-pg/src/lib.rs:171-208 | For every set of running jobs of a key that each allow at most `limit` at once, in every interleaving: the set is no larger than `limit` |
| Admission.LastRankCovers | crates/gylo-pg/src/lib.rs:185-200 | Ranking within the locked batch admits, next to what the snapshot counted, no more rows of any limit than that limit |
| Admission.PhasesRefineQueue | crates/gylo-pg/src/lib.rs:595-607 | Every phased run is a run of the queue, so what holds of those holds here |
| Admission.SomeoneIsAdmitted | crates/gylo-pg/src/lib.rs:171-208 | When a due keyed job with room is locked at all, at least the first is admitted |
| Admission.AdmittedInTurn | crates/gylo-pg/src/lib.rs:185-200 | The p-th locked row of a key, counting from zero, is admitted if and only if the running jobs of that key and p + 1 are within its limit, whatever other keys the batch holds |
| Admission.KeyIsFilled | crates/gylo-pg/src/lib.rs:185-200 | For a key whose locked rows carry one limit, those admitted are exactly its first rows, as many as the smaller of the room left and the rows locked |
| Admission.AdmissionIsPerKey | crates/gylo-pg/src/lib.rs:193-197 | Which rows of a key are admitted depends on the locked rows of that key alone: two batches with the same ones admit the same ones |
| Rows.PickTop | crates/gylo-pg/src/lib.rs:128-140 | The picked rows are the first candidates by priority, schedule and id, in order and as many as the limit allows |
| Rows.Admit | crates/gylo-pg/src/lib.rs:185-208 | The loop over locked rows admits, in order and each once, exactly those whose rank within their key fits their limit; `Admission.AdmittedInTurn` says which those are |
| Rows.CountFinishing | crates/gylo-pg/src/lib.rs:229-233 | For each child, the number of its parents completing in this statement, and no entry for anyone else |
| Rows.CompletedRows | crates/gylo-pg/src/lib.rs:217-250 | Finishing the reported rows and then releasing their children by count gives the table of the one atomic statement |
| Rows.DiscardedRows | crates/gylo-pg/src/lib.rs:266-295 | Burying the reported rows and cancelling along the walk gives the table of the one atomic statement |
| Rows.RetriedRows | crates/gylo-pg/src/lib.rs:375-417 | Each reported row held by the worker is rescheduled after its backoff or buried when out of attempts, row by row, as the statement does |
| Rows.WorkflowRows | python/gylo/_adapters.py:77-103 | With the ids the sequence gave, inserting node by node and then the edges gives the table of one atomic insert |
| Rows.ExpiredRows | crates/gylo-pg/src/lib.rs:307-313 | Only expired leases are taken, at most the limit, and all of them when fewer |
| Rows.PickOldest | crates/gylo-pg/src/lib.rs:1027-1059 | The victims are the candidates finalised first, as many as the batch size allows |
| Backend.Store.FetchUnkeyed | crates/gylo-pg/src/lib.rs:128-155 | Leases exactly the top unkeyed due rows that nobody has locked, and answers whether keyed work is due |
| Backend.Store.FetchKeyed | crates/gylo-pg/src/lib.rs:171-208 | Leases exactly the rows admitted among the top due keyed rows with room, at most the limit; `Picks.KeyedPassTakes` says which those are |
| Backend.Store.Fetch | crates/gylo-pg/src/lib.rs:556-613 | With other workers running between any two of its statements: what it returns is the unkeyed pass on the first table and, exactly when keyed work was found waiting, the keyed pass on a later one, both leased to the worker; or nothing, when a pass was refused for a row without an attempt left |
| Backend.FetchBounded | crates/gylo-pg/src/lib.rs:556-613 | Such a fetch returns at most one job above the limit, that one exactly for keyed work behind a full unkeyed batch, and below the limit it leaves no unkeyed due row behind; how many it locks and takes is `Picks.FetchTakes` |
| Backend.KeyedWorkIsServed | crates/gylo-pg/src/lib.rs:588-612 | A keyed pass that finds due keyed work with room leases some of it, so keyed jobs are never starved |
| Picks.UnkeyedPassTakes | crates/gylo-pg/src/lib.rs:128-155 | The unkeyed pass takes, each once, the first of the due rows without a key in its queues, by smaller priority, then earlier time, then smaller id, as many as the limit allows; nothing left behind comes before anything taken |
| Picks.KeyedPassTakes | crates/gylo-pg/src/lib.rs:171-208 | The keyed pass locks the first of the due keyed rows whose key has room, as many as its limit allows, and takes the p-th locked row of a key, counting from zero, if and only if the running jobs of the key and p + 1 are within that row's limit |
| Picks.FetchTakes | crates/gylo-pg/src/lib.rs:556-613 | For every answer of a fetch: the unkeyed rows are the first ones, as many as the limit allows; keyed work is looked for exactly when some is due; the rows then locked number the smaller of the keyed rows with room and of the limit less the unkeyed rows taken, or one if that leaves none; and if no two of them are of one key, all are returned |
| Picks.DifferentKeysAllTaken | crates/gylo-pg/src/lib.rs:588-612 | Locked rows of different keys are all taken, each once |
| Backend.Store.CompleteMany | crates/gylo-pg/src/lib.rs:617-648 | Takes exactly the queue's completion step, keeps the invariant, and counts the jobs it settled |
| Backend.Store.DiscardMany | crates/gylo-pg/src/lib.rs:650-667 | Takes exactly the queue's cascading failure step, keeps the invariant, and counts the jobs it settled |
| Backend.Store.RetryMany | crates/gylo-pg/src/lib.rs:434-458 | Takes exactly the queue's retry step, keeps the invariant, and counts the jobs that get another attempt and those dead-lettered |
| Backend.Store.ReclaimExpired | crates/gylo-pg/src/lib.rs:495-504 | Takes exactly a reclaim step, of expired leases only, complete when below the limit, and counts the jobs released and those dead-lettered |
| Backend.Store.RenewLeases | crates/gylo-pg/src/lib.rs:357-373 | Takes exactly the renewal step, keeps the invariant, and counts the leases the worker still held |
| Backend.Store.AbandonLeases | crates/gylo-pg/src/lib.rs:460-493 | Takes exactly the abandonment step, keeps the invariant, and counts the leases the worker still held |
| Backend.Store.CancelWaiting | crates/gylo-pg/src/lib.rs:252-259 | Takes exactly the cancel step, keeps the invariant, and counts the jobs that had not begun |
| Backend.Store.RetryDiscarded | crates/gylo-pg/src/lib.rs:960-987 | Revives the chosen dead letters and returns them, exactly when no unique key would be live twice; otherwise nothing changes |
| Backend.Store.Prune | crates/gylo-pg/src/lib.rs:1027-1059 | Removes the oldest prunable rows nobody has locked, up to the batch size, with their edges, and counts them; the invariant survives the missing rows |
| Backend.Store.PurgeDiscarded | crates/gylo-pg/src/lib.rs:989-1003 | Afterwards no dead letter of the queue is left, the count is of the rows that went, and the invariant survives |
| Counts.CompletionCounts | crates/gylo-pg/src/lib.rs:617-648 | The count of a completion is of the jobs that went from running to completed by it |
| Counts.DiscardCounts | crates/gylo-pg/src/lib.rs:650-667 | The count of a terminal failure is of the jobs that went from running to discarded by it, the cancelled ones not among them |
| Counts.RetryCounts | crates/gylo-pg/src/lib.rs:434-458 | The two counts of a retry are of the jobs that wait again and of those it discarded |
| Counts.ReclaimCounts | crates/gylo-pg/src/lib.rs:495-504 | The two counts of a reclaim are of the jobs that wait again and of those it discarded |
| Counts.CancelCounts | crates/gylo-pg/src/lib.rs:252-259 | The count of a cancellation is of the jobs that went from available to cancelled by it |
| Counts.ReviveCounts | crates/gylo-pg/src/lib.rs:960-987 | What an operator's retry returns is the jobs that went from discarded to available by it |
| Counts.PruneTakes | crates/gylo-pg/src/lib.rs:1018-1043 | Retention takes as many as the limit allows of the rows that are over, old enough, of the states and queue asked for, in no workflow with a live member and not locked by others, those that ended first |
| Backend.Store.EnqueueUniqueJob | python/gylo/_adapters.py:63-67 | Returns a live job with the key, one queued earlier exactly when the key was live already; refused, live key or not, exactly when the table does not take the limit or attempts |
| Backend.Store.EnqueueJob | python/gylo/_adapters.py:62-63 | Inserts one fresh row and returns its id, or changes nothing exactly when the table does not take its limit or attempts |
| Backend.Store.InsertGraph | python/gylo/_adapters.py:77-103 | All nodes and edges appear together, or none exactly when the table does not take some node's limit or attempts |
| Composition.BuildMeans | python/gylo/_workflow.py:118-160 | For any nesting: in the graph built, one node reaches another if and only if the composition puts its task first; which task stands where is `Composition.BuildKeepsTasks` |
| Composition.ThenMeans | python/gylo/_workflow.py:118-138 | Putting a graph after another makes every node of the first reach every node of the second and adds no other reachability |
| Composition.BesideMeans | python/gylo/_workflow.py:141-146 | Putting a graph beside another adds no reachability between them |
| Composition.ChainMeans | python/gylo/_workflow.py:118-138 | In a chain a node precedes exactly those of later steps and what its own step puts after it |
| Composition.GroupMeans | python/gylo/_workflow.py:141-146 | In a group nodes of different branches never reach each other |
| Composition.BuildKeepsTasks | python/gylo/_workflow.py:112-160 | The nodes of the graph built are the tasks written in the composition from left to right, with their arguments, none lost, added or changed |
| Covers.EdgesAreImmediate | python/gylo/_workflow.py:118-160 | The graph built has an edge exactly where the composition puts one task before another with none in between, so the rows wait for no parent they need not |
| Workflows.Workflow.Absorb | python/gylo/_workflow.py:47-55 | Copies the other graph in beside this one and returns the positions its nodes got |
| Workflows.Workflow.RootList | python/gylo/_workflow.py:57-61 | Exactly the nodes without a parent, in ascending order |
| Workflows.Workflow.LeafList | python/gylo/_workflow.py:63-66 | Exactly the nodes without a child, in ascending order |
| Workflows.Workflow.Dependencies | python/gylo/_workflow.py:68-72 | For each node the number of its parents, which is what the queue's pending count starts from |
| Workflows.Chained | python/gylo/_workflow.py:118-138 | The loop, empty steps skipped, leaves the value that is proved to be the chain's graph; the steps are not changed |
| Workflows.Grouped | python/gylo/_workflow.py:141-146 | The loop leaves the value that is proved to be the group's graph; the branches are not changed |
| Workflows.Chorded | python/gylo/_workflow.py:149-160 | The callback is linked behind every leaf of the body, in the body's own object when the body is a workflow |
| Workflows.ChainLoopBuilds | python/gylo/_workflow.py:118-138 | What the chain loop computes is the algebra's chain, and its running tails are that graph's leaves |
| Workflows.GroupLoopBuilds | python/gylo/_workflow.py:141-146 | What the group loop computes is the algebra's group |
| Workflows.LinkedLeaves | python/gylo/_workflow.py:118-138 | Once every leaf has been given a child, the leaves are those of the part added last |
| EndToEnd.RowsFollowComposition | python/gylo/_workflow.py:74-105 | At every later point of every run, one row of an inserted workflow is upstream of another if and only if the composition puts its task first, whatever else was inserted or deleted |
| EndToEnd.RowsHoldTheTasks | python/gylo/_workflow.py:74-105 | At every later point of every run, the row with the i-th id of an inserted composition holds the i-th task written in it, its queue, payload and options, as long as it is kept |
| EndToEnd.UpstreamCompletedEarlier | crates/gylo-pg/src/lib.rs:217-250 | Whenever a job is running, whatever is upstream of it had completed at a strictly earlier point of the run |
| EndToEnd.CompositionIsObeyed | python/gylo/_workflow.py:118-160 | For any nesting of chains, groups and chords, in any run: whenever one of its tasks is running, every task that comes before it had completed strictly earlier, after the insertion |
| EndToEnd.ComposedGraphsNeverPark | python/gylo/_workflow.py:118-160 | In every run whose workflows come from the constructors and in which nothing dies without its descendants, a workflow with a live member has one running or coming due, that member or something upstream of it |
| Sharing.BuildsAsWrittenExactlyWhen | python/gylo/_workflow.py:118-160 | For every expression over workflow variables: evaluated as Python does, it builds the graph written there if and only if no argument of a chain or group was extended by another |
| Sharing.SharedBodyIsCopiedTwice | python/gylo/_workflow.py:149-160 | A chain of a graph and a chord on that graph copies it twice with the callback in it, whatever the two are |
| Sharing.WrittenBuilds | python/gylo/_workflow.py:118-160 | A composition written in one expression always builds the graph it denotes |
| Sharing.Evaluate | python/gylo/_workflow.py:112-160 | The objects after evaluating an expression, arguments first and from left to right, are those of the evaluation on values |
| Sharing.EvaluateComposition | python/gylo/_workflow.py:112-160 | A composition evaluates to a new object that holds the graph it denotes and, as its nodes, the tasks written in it from left to right |
| Wire.BodyRoundTrip | crates/gylo-core/src/protocol.rs:175-279 | Every message the encoder accepts decodes to itself |
| Wire.BodyCanonical | crates/gylo-core/src/protocol.rs:337-400 | Whatever decodes is the encoding of what it decodes to: no second spelling, no ignored bytes. A MessagePack part stands for itself, as the bytes it is |
| Wire.FrameRoundTrip | crates/gylo-core/src/protocol.rs:161-170 | A frame at the front of any stream is read back as its message and its own length |
| Wire.FrameStable | crates/gylo-core/src/protocol.rs:310-335 | Bytes that arrive later never change the verdict on a frame that is there |
| Wire.ParseExtends | crates/gylo-core/src/protocol.rs:310-335 | Bytes that arrive later extend the parse of a stream and never revise it |
| Wire.ParseIsFaithful | crates/gylo-core/src/protocol.rs:310-400 | Any stream is the frames of its messages followed by what is left over: no byte is dropped or invented |
| Wire.BatchRoundTrip | crates/gylo-core/src/protocol.rs:161-279 | A batch from which messages were rejected decodes to exactly the others, in order, with nothing left over |
| Utf8.TextExactlyWhen | crates/gylo-core/src/protocol.rs:354-376 | Bytes are accepted as text if and only if they are the encoding of some sequence of Unicode scalar values, computed from the code points by arithmetic |
| Utf8.CutIsText | python/gylo/_protocol.py:108-123 | A text cut after some bytes is still text if and only if the cut falls between two of its characters |
| Layout.DecodesExactly | crates/gylo-core/src/protocol.rs:1-23 | A body is decoded to a message if and only if it spells that message byte by byte as the protocol documents it: kind and outcome codes, little-endian numbers at their offsets, the name's length, text, and the rest |
| Layout.EncodesExactly | crates/gylo-core/src/protocol.rs:175-279 | What the encoder writes is the length of the body in four little-endian bytes and a body that spells the message |
| Layout.RefusesExactly | crates/gylo-core/src/protocol.rs:337-400 | Which error a body gets: truncated, unknown kind, unknown outcome, no text or malformed, each exactly when that is what is wrong with its bytes |
| Layout.FrontExactly | crates/gylo-core/src/protocol.rs:310-335 | A stream yields a message exactly when its first four bytes give a length of at most 16 MiB, that many bytes follow and they spell it; it waits exactly while some are missing; a longer length is an error at once |
| Layout.RejectsExactly | crates/gylo-core/src/protocol.rs:175-217 | The encoder refuses exactly a name of 64 KiB or more and otherwise a body beyond 16 MiB, with its size |
| Layout.TextArrives | python/gylo/_protocol.py:108-123 | The report of a failure with any text arrives if and only if the text takes at most 64 KiB or the cut falls between two of its characters |
| Codec.Batch.Encode | crates/gylo-core/src/protocol.rs:161-170 | Appends the frame, or reports the error and leaves the buffer as it was |
| Codec.Batch.EncodeAll | crates/gylo-core/src/protocol.rs:161-279 | After any mix of accepted and rejected messages the buffer holds the frames of the accepted ones |
| Codec.Decoder.NextMessage | crates/gylo-core/src/protocol.rs:310-335 | Gives what the pure parser sees at the cursor and moves past it; less than the compaction threshold is ever kept behind the cursor |
| Codec.Decoder.RefinesParser | crates/gylo-core/src/protocol.rs:296-335 | With extends and reads interleaved anyhow, what was handed out begins the parse of everything received, and the rest is the parse of what is behind the cursor |
| Codec.Decoder.StopsWhereTheStreamDoes | crates/gylo-core/src/protocol.rs:310-335 | When no message comes, all messages of the stream are out and the error, if any, is the stream's own |
| Codec.DecodeChunks | crates/gylo-core/src/protocol.rs:296-335 | For any stream in any chunks, the messages and the error are those of parsing the whole |
| PythonWire.DecodersAgreeOnFront | python/gylo/_protocol.py:137-193 | On every byte string the two decoders wait together; Python reads a message exactly where Rust reads one for a child, if and only if their MessagePack libraries agree on a packed frame there; where both read one it is the same |
| PythonWire.DecodersAgree | python/gylo/_protocol.py:137-193 | The child gets exactly what the Rust parser finds for it in a stream, and fails or waits where that does, if and only if the libraries agree on every packed frame it meets |
| PythonWire.UnlikeFrameSplits | python/gylo/_protocol.py:157-166 | A packed frame that one library unpacks and the other does not is a message on one side and an error on the other |
| PythonWire.SupervisorFramesArrive | python/gylo/_protocol.py:137-193 | The frames a supervisor sends reach the child as the messages they were made from, as long as Python unpacks what Rust packed |
| PythonWire.Drainer.RefinesDrain | python/gylo/_protocol.py:126-193 | With extends and drains interleaved anyhow, failed ones included, what was handed out begins the drain of everything received |
| PythonWire.Drainer.Drain | python/gylo/_protocol.py:137-193 | Hands out all complete messages, or raises, hands out none and keeps the buffer, exactly when an unreadable frame is reached |
| PythonWire.DrainChunks | python/gylo/_protocol.py:126-193 | Supervisor frames in any chunks: no call raises and exactly the messages sent come out |
| PythonWire.PayloadLimitExact | python/gylo/_protocol.py:45-52 | A dispatch can be encoded exactly when the name fits its two length bytes and the payload is within the limit checked at enqueue |
| PythonWire.ReportsAreFrames | python/gylo/_protocol.py:99-123 | What Python packs by hand for a report is the very frame the Rust encoder would make |
| PythonWire.SuccessArrives | python/gylo/_protocol.py:99-105 | A success is read back unchanged exactly when it fits a frame; a larger one fails the connection |
| PythonWire.FailureArrives | python/gylo/_protocol.py:108-123 | A failure is read back exactly when the text is within 64 KiB or what the cut leaves is text; otherwise the frame is rejected. What counts as text is `Utf8.TextExactlyWhen` |
| PythonWire.TruncationCanBreakAReport | python/gylo/_protocol.py:108-123 | A valid text for which the cut splits a character and the report is rejected |
| DurableSteps.CompletedIsStored | python/gylo/_steps.py:45-63 | In every run, overlapping attempts and failed writes included, every step a child counts as completed or is told is stored is stored, until the row is deleted |
| DurableSteps.StoredForGood | crates/gylo-pg/src/lib.rs:297-301 | A stored result never changes while the row exists |
| DurableSteps.StepGoesThrough | python/gylo/_steps.py:45-63 | A new step is stored and completed with the bytes its work returned once its record is written and acknowledged, and nothing else changes |
| DurableSteps.DurableStepsReplay | python/gylo/_worker.py:145-163 | With attempts that do not overlap and are handed what is stored, and tasks that await each step, a step with a durable record never runs again and is answered with the recorded bytes |
| DurableSteps.LaterAttemptsSeeTheRecord | crates/gylo-worker/src/lib.rs:784-796 | Under the same conditions every attempt dispatched after the record has it, byte for byte, for as long as the row exists |
| DurableSteps.RepeatsExactlyWhen | python/gylo/_steps.py:45-63 | From a state where no durable step would run again, each event keeps it so if and only if it is careful: a dispatch hands over what is stored, and a record lands only when no live attempt would still run that step |
| DurableSteps.RunRepeatsExactlyWhen | crates/gylo-worker/src/lib.rs:784-796 | A run never has a durable step about to run again if and only if each of its events is careful |
| DurableSteps.OperatorRetryRepeatsSteps | crates/gylo-pg/src/lib.rs:960-972 | A run in which an operator's retry makes a recorded step run again |
| DurableSteps.OverlapRepeatsSteps | crates/gylo-worker/src/lib.rs:965-985 | A run of two overlapping attempts in which a record lands and the other attempt is about to run that step |
| DurableSteps.UnawaitedStepSplits | python/gylo/_steps.py:74-87 | A run in which a step is called twice unawaited, and the task's result differs from the recorded one |
| DurableSteps.StepContext.Step | python/gylo/_steps.py:45-63 | Answers from the record, or runs the work and leaves it sent and awaited, also when the step is awaited already |
| DurableSteps.StepContext.Resolve | python/gylo/_steps.py:84-87 | An acknowledgement completes the step awaited with the bytes sent, whichever attempt sent the record; one nobody awaits is ignored |
| Cron.OrderKeptExactlyWhen | crates/gylo-pg/src/lib.rs:669-705 | A step keeps occurrences strictly increasing if and only if a fire that lands names a later run, or a change of timing starts after what was fired |
| Cron.RunInOrderExactlyWhen | crates/gylo-pg/src/lib.rs:669-705 | From any state in order, a run is in order throughout if and only if each of its steps moves on |
| Cron.EachOccurrenceOnce | crates/gylo-pg/src/lib.rs:695-705 | However workers' fires and registrations interleave, in a run of such steps each occurrence of a schedule inserts at most one job |
| Cron.LaggingClockFiresTwice | crates/gylo-worker/src/lib.rs:671-697 | A worker whose clock lags names the due run again, and it is fired twice |
| Cron.SlowRoundFiresTwice | crates/gylo-worker/src/lib.rs:671-697 | With clocks that agree, a round slower than the schedule fires an occurrence that is then fired again |
| Cron.PausedInsertsNothing | crates/gylo-pg/src/lib.rs:669-705 | From pause to resume nothing is inserted for a schedule, across any registrations and fires |
| Cron.InsertsExactly | crates/gylo-pg/src/lib.rs:695-705 | In every run a step inserts a job if and only if it fires a schedule that is registered, not suspended and due, and the job has the queue, task and arguments of the latest registration and the table's defaults otherwise |
| Cron.ClockMoves | crates/gylo-pg/src/lib.rs:669-705 | The next run of a schedule is set by its first registration, by one with another expression or timezone and by a fire that lands, to the run that step names, and by nothing else |
| Cron.CronTable.UpsertCron | crates/gylo-pg/src/lib.rs:669-685 | Registering again keeps the clock unless the timing changed and never unpauses |
| Cron.CronTable.FireCron | crates/gylo-pg/src/lib.rs:695-705 | Inserts the schedule's job and moves it on exactly when it is due and not paused; losers change nothing |
| Cron.CronTable.FireDueSchedules | crates/gylo-worker/src/lib.rs:671-697 | A round with everybody else's statements in between, some of its own failing: the table is that of the interleaved statements, and the jobs it won are counted |
| Cron.RoundInOrderExactlyWhen | crates/gylo-worker/src/lib.rs:671-697 | With others' statements that move on in between, a round is in order after every one of its statements if and only if each of its fires that lands names a later run; a rival that won the row first does no harm |
| Cron.RoundKeepsOrder | crates/gylo-worker/src/lib.rs:671-697 | Such a round is in order throughout when what others did moves on and the worker's clock has reached each run that one of its fires wins |
| Cron.LoneRoundLeavesNothingDue | crates/gylo-worker/src/lib.rs:671-697 | Undisturbed, a round leaves nothing it could advance due at the worker's clock |
| Cron.LoneRoundCounts | crates/gylo-worker/src/lib.rs:671-697 | Undisturbed, a round counts exactly the jobs it inserted |
| Supervisor.InFlight.Available | crates/gylo-worker/src/lib.rs:209-211 | The room left, never negative, zero exactly when the limit is reached |
| Supervisor.InFlight.Release | crates/gylo-worker/src/lib.rs:238-253 | Removes exactly the given jobs and signals draining exactly when that leaves none |
| Supervisor.NeverFarAhead | crates/gylo-worker/src/lib.rs:739-823 | In every run of asking, fetching by what the fetch is proved to return, settling and handing back, a child holds at most one job above its concurrency |
| Supervisor.DispatchOnce | crates/gylo-worker/src/lib.rs:739-823 | One turn of the dispatch loop with room left asks for the smaller of the batch and the room, and leases what some answer of the fetch to that question took, or nothing if it was refused; it discards what cannot be encoded and reserves exactly the rest, with reports released in between; without room it asks nothing. The child stays within one job of its limit |
| Supervisor.EncodeBatch | crates/gylo-worker/src/lib.rs:780-816 | Keeps what can be encoded, in order, and discards each other job by a statement of its own, executed or failed, with other workers running in between |
| Supervisor.KeptOrRefused | crates/gylo-worker/src/lib.rs:780-816 | Every job of a batch is kept or refused, as often as it was in it, and refused exactly if it cannot be encoded |
| Supervisor.HandBack | crates/gylo-worker/src/lib.rs:370-391 | A failed session leaves nothing in flight; all it held is abandoned at once, and then expired leases are reclaimed up to the limit, all of them if fewer, each statement executed or failed and no reclaim without the abandoning |
| Overshoot.BoundIsReached | crates/gylo-worker/src/lib.rs:739-823 | At every concurrency some reachable table makes an undisturbed fetch return one job more, and the child then holds it |
| Supervisor.FilingConserves | crates/gylo-worker/src/lib.rs:829-865 | Sorting reports into their four kinds keeps every reported id exactly as often as it was reported |
| Supervisor.Pending.Push | crates/gylo-worker/src/lib.rs:829-865 | The parallel vectors always hold the reports of their kind in order, each beside what it carried |
| Supervisor.Pending.Flush | crates/gylo-worker/src/lib.rs:866-919 | With other workers running between any two of its statements and before the release: each statement is on the reports of its kind, executed or failed, and every reported job leaves the in-flight set |
| Supervisor.HeldAfterwardsExactly | crates/gylo-worker/src/lib.rs:866-919 | For each report: right after the statement for its kind, the worker holds the job if and only if it did before and the statement failed |
| Verdicts.EachVerdictSettles | crates/gylo-worker/src/lib.rs:829-919 | For every report that is the only one on its job: of the four statements one settles the job as the verdict says, completed with the result (none for an empty one), waiting again or dead-lettered with the error text, and the other three leave it as it is |
| Supervisor.ReleasedButLeased | crates/gylo-worker/src/lib.rs:866-919 | A run after which a flush whose statement fails releases a job that is still leased |
| LeaseTiming.RunningNeverExpires | crates/gylo-worker/src/lib.rs:519-540 | When the lease covers handover (for a fetch of both kinds, that of the first batch), the tolerated turns of the renew loop and the longer of round trip and drain, and a flush ends before what it settled comes due, no job on its way to a child, in its hands or draining ever has an expired lease or none, in any run of any length |
| LeaseTiming.SomeRunExpires | crates/gylo-worker/src/lib.rs:519-540 | When the lease does not cover that, for every choice of settings and latencies some run lets a job expire in a child's hands, on the timed machine and wherever its steps can be hosted |
| LeaseTiming.SomeRefetchExpires | crates/gylo-worker/src/lib.rs:866-919 | When a flush may outlast the comeback, some run has a job fetched again before its release, dropped from the in-flight set and expired in a child's hands, however long the lease |
| LeaseTiming.SafeExactlyWhen | crates/gylo-worker/src/lib.rs:519-540 | The two failing families and the proof together: the exact lease length and the exact promptness that are enough |
| LeaseTiming.ValidationIsTheLimit | crates/gylo-worker/src/lib.rs:147-169 | The startup validation accepts an interval exactly when some positive latencies are safe with it, with no failed renewal and no shutdown |
| LeaseTiming.DefaultsRideOutOneFailure | crates/gylo-worker/src/lib.rs:113-135 | The defaults survive one failed renewal exactly when a handover and three round trips fit into ten seconds, and never two in a row |
| LeaseTiming.DefaultsExposeDraining | crates/gylo-worker/src/lib.rs:449-465 | With the defaults, however fast everything is and whatever the dispatch loop takes to end, a draining job can expire while its child still runs it |
| Exclusive.AlwaysInStep | crates/gylo-pg/src/lib.rs:307-350 | In every joint run of the timed worker and anybody's statements, the table keeps the queue's invariant and the worker's machine has exactly the rows leased to it there, with their expiries |
| Exclusive.ClaimsAreExclusive | crates/gylo-pg/src/lib.rs:307-313 | In every such run that is timely and in which no operator revives a job out of a flush: what the child runs is leased to its worker and unexpired in the table, and no statement of anybody else, a reclaim included, changes its row |
| Exposure.ExclusiveExactlyWhen | crates/gylo-pg/src/lib.rs:307-313 | No reclaim that anybody can issue takes a job its child runs, in any joint run without an operator in a flush, if and only if the lease holds out and flushes end before the shortest retry delay |
| Exclusive.SettledIsAway | crates/gylo-pg/src/lib.rs:375-413 | What a worker settles is not due for anybody until the shortest retry delay has passed |
| Disturbed.RevivedOutOfAFlush | crates/gylo-pg/src/lib.rs:960-972 | A joint run, whatever the timing, in which an operator revives a job out of a flush and a reclaim then takes it from under the child that runs it |
| Backoff.DelayWithinHalf | crates/gylo-pg/src/lib.rs:384-387 | Every delay lies between half its nominal value and that value, which is positive and capped |
| Backoff.NominalMonotone | crates/gylo-pg/src/lib.rs:384-387 | Nominal delays never shrink from attempt to attempt and stay at the cap once there |
| Backoff.NominalSteps | crates/gylo-pg/src/lib.rs:384-387 | The first nominal delay is the base and each later one twice the one before, both up to the cap |
| Backoff.EveryDelayDrawn | crates/gylo-pg/src/lib.rs:384-387 | Every delay from half the nominal value up to it is the one some draw gives |
| Backoff.DelayAtLeast | crates/gylo-pg/src/lib.rs:384-387 | No retry comes back before half the base, or half the cap where that is smaller |
| Backoff.DelaysGrow | crates/gylo-pg/src/lib.rs:384-387 | Below the cap each delay exceeds the one before, whatever the two draws |
| Backoff.CappedDelaysMayShrink | crates/gylo-pg/src/lib.rs:384-387 | At the cap a later delay can be shorter than an earlier one |
| Backoff.TotalDelayBounded | crates/gylo-pg/src/lib.rs:384-387 | The first k delays together stay below base times (2^k - 1) |

## Left out

- The Redis backend: the worker cannot reach it and its reports are not fenced.
- MessagePack bodies (registrations, steps, records, acknowledgements) are opaque bytes. Each library has a predicate saying which ones it unpacks, an empty body never does in Python, and what two libraries make of the same bytes is not compared.
- Cron expressions and time zones: a function giving a run for the moment it is asked about. The limit and order of the due read are an argument.
- Postgres internals: a statement is atomic, the rows `SKIP LOCKED` passed over are an argument, and row re-checks after a lock wait are not modelled. Clock readings, random draws and the ids a sequence gives are arguments; ids are never given twice and appear in any order. A statement takes effect at the moment whose clock it reads.
- Sockets, child processes, signals, notifications, metrics and the command line; wake-ups affect latency only.
- Listing, depth and outcome queries, and removal of empty workflow records, which change no job.
- Backend.Store.OthersRun: stands for whatever other workers do between two statements of a fetch or a flush.
- DurableSteps.StepContext.Step: the call and the acknowledgement it waits for are two methods.
- Verdicts.EachVerdictSettles: which report wins is not said of a job that is reported twice in one flush; the first statement that settles it ends its lease.
- Integer widths of ids and counters are modelled on the wire only; in the table they are unbounded.
