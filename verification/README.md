# lsbx: a Dafny model of the broker, the lock, the lifecycle and the text protocols

`lsbx` runs disposable virtual machines and a CI broker on top of them. This
project models its stateful cores and its string protocols in Dafny and proves
what they keep. `dafny verify dfyconfig.toml` checks all of it.

| module | subject |
|---|---|
| `Text` | Rust string operations (`trim`, `lines`, `replace`, `split`) shared by the parsers |
| `Markers` | the runner-log expressions, with leftmost-greedy matching |
| `Tail` | one job record advanced by re-reading its growing log |
| `LogMeaning` | what one pass over a log leaves in the record, said by the log's lines alone |
| `LogText` | the same for the text that is read, wherever an earlier read cut it |
| `Broker` | jobs in memory against jobs on disk: startup, dispatch, tails, divergence |
| `Runner` | one job from provisioning through monitoring to cleanup |
| `RunnerBroker` | the broker that runs jobs to their end: which VMs a restart can find |
| `Lock` | `flock` on a path that others may unlink and recreate |
| `Lifecycle` | create, destroy, renew and reap as interleaved, crashing steps |
| `Leases` | which records a sweep goes after, in those interleavings |
| `AccountKeys` | account keys while creates, destroys and reconciliations interleave |
| `Reap` | sweeps, leases and account keys, one call after another |
| `Gate` | the sandbox cap under concurrent handlers |
| `RateLimit` | the token bucket against the full request history |
| `Shell`, `TwoLayer` | quoting of argv, lexed back once or twice |
| `Sentinel` | the exit code sent in band |
| `Exec` | guest execution over HTTPS from end to end: what the VM echoes and what is reported |
| `Escape` | XML and HTML escaping |
| `FileStore` | temporary file plus rename as a map update |

Code that changes state is a class or a loop proved against a specification
function or an invariant; the theorems are about those. In `Lock`, `Lifecycle`,
`AccountKeys` and `Gate` the protocol is a state machine over atomic steps. The theorems there
speak about every run, and the methods of `Host`, `Cloud` and `Gateway` are the
source's functions carried out step by step while everybody else moves in between.

Answers of the outside world (backend, GitHub, file system, clock) are inputs, or
arbitrary choices that a ghost history records as they are made; the contracts tie
outcomes to them in both directions. A VM's `destroy` means only this: Ok or NotFound says that the
VM is absent, and any other error leaves it either way.

## What the proofs found

Several properties that the design suggests hold only under a condition. Each is
proved with its exact condition or with a construction of the failing case.

* **Tail.** Phase and runner name do not depend on what prefix of the log an earlier
  read saw. The job name depends on it in one case only: the read stopped between the
  carriage return and the newline of a line that ends in "Running job: ", and the log
  names no job (`LogText.ReplayText`). `last_error` is right whatever the log becomes if
  and only if an error was recorded already, or the read ended at a line end, or a line in
  front of the open one shows a failure, or the open one shows none
  (`LogText.StickyError`). Otherwise the open line may still become a success, as in
  `Tail.CutInsideResultLeavesError`.
* **Exit sentinel.** The wrapped command echoes the marker right behind the guest's
  output. If that output is not empty and does not end in a newline, the marker is
  not at a line start, and output and exit code do not both survive
  (`Sentinel.SurvivesIffLineEnds`). Without another marker in the output, every
  exit code is then reported as 0 (`Sentinel.CodeLost`).
* **Two-layer quoting.** Argv arrives if and only if no argument holds a double
  quote, a dollar, a backtick, or a backslash in front of a backslash or newline
  (`TwoLayer.ArrivesIffClean`). A dollar or backtick fails there because the lexer
  refuses to expand; what the expansion would give is not modelled.
* **Account keys.** A destroy revokes the key before it removes the VM. Whatever the
  backend answers, a record that survives a sweep keeps its key if and only if the
  sweep does not select the record or the record names no VM
  (`Reap.SurvivorKeepsKeyIff`); `Reap.SurvivorLosesKey` is the failing case. In
  interleavings a stored sandbox can also lose its key to a reconciliation, if and only
  if one is under way that will not know its label and has still to list the keys, or
  has listed this one (`AccountKeys.KeyCanBeLostIff`); every create can run into it
  (`AccountKeys.RaceLosesKey`).
* **Cap.** With `renew` as two steps, load and save, a deleted record can come
  back, and the cap is exceeded by at most the number of such revivals. It can be
  exceeded at any cap (`Gate.CapPlusRevivals`, `Gate.SplitRenewalOverfills`).
* **Job cleanup.** Beside "record deleted and VM absent" and "record kept in phase
  cleaning with an error" there is a third end: only the delete of the record failed.
  The record is then kept in phase cleaning and the VM is absent, and there is no error
  if and only if the job ended well and had none before. Only a failed first save of the
  cleanup leaves the record in another phase (`Runner.Runner.RunJob`).
* **Restart.** While saves succeed, the job-running broker has every VM named by a live
  record at each loop head (`RunnerBroker.RunRunnerBroker`). In between it has not: a
  startup tail takes a job out of the live records, its VM still up, if and only if the
  job's log holds a completion line (`RunnerBroker.ResumeHidesIff`). A crash before that
  job is run again leaves a VM that no later restart lists.
* **Limiter.** A refusal at zero requests per minute divides by zero and panics while it
  holds the mutex, and every later check panics too. The limiter can panic if and only
  if it is configured so, and then does right after its burst
  (`RateLimit.CanPanicIffZeroRate`, `RateLimit.ZeroRatePanics`).
* **Key directories.** A swept record's key directory goes with it, whatever the answers,
  if and only if the sweep does not select the record, or the record names no VM or one
  that is there (`Reap.DirGoesTooIff`). In interleavings, too, a directory outlives its
  record only where reap found no VM and deleted the record itself, and every run can be
  continued to such a case (`Lifecycle.KeyDirectoryGoesFirst`,
  `Lifecycle.KeyDirectoryLeftBehind`).

## Model

| member | source | states |
|---|---|---|
| Markers.CompletionRoundTrip | crates/lsbx-broker/src/job_record.rs:118-123 | any completion line parses back to the job name and result it was made from, even when the name contains the separator itself, behind any prefix without "Job " |
| Markers.ResultOverwritten | crates/lsbx-broker/src/job_record.rs:59-65 | by greediness, a completion line that goes on with the separator and a word has that word as its result |
| Markers.FindCompletion | crates/lsbx-broker/src/job_record.rs:59-65 | the match starts at the leftmost place that admits one, and its `(.+)` reaches the last admissible end; no match means that no place admits one |
| Markers.Leftmost | crates/lsbx-broker/src/job_record.rs:35-57 | the first occurrence of a marker literal with its required follow-up, and none only if there is none |
| Markers.RegisteredRoundTrip | crates/lsbx-broker/src/job_record.rs:78-83 | a registration line gives the runner's name, up to the next white space, behind any prefix without the marker |
| Markers.RunningJobRoundTrip | crates/lsbx-broker/src/job_record.rs:101-106 | a running line gives the job's name, up to the end of the line and trimmed, and is a running line |
| Tail.ApplyLog | crates/lsbx-broker/src/reconcile.rs:276-350 | the line loop computes the closed form: last marker for phase and names, first failure for an empty error; an unset `changed` means an equal record |
| Tail.ApplyLiveMarkers | crates/lsbx-broker/src/reconcile.rs:279-323 | registration, listening and running markers of one line, none of which moves a terminal phase |
| Tail.ApplyCompletion | crates/lsbx-broker/src/reconcile.rs:325-344 | a completion overrides even a terminal phase, and only an empty error is filled |
| LogMeaning.CompletionDecides | crates/lsbx-broker/src/reconcile.rs:325-344 | the last completion line alone decides the phase, whatever the phase was |
| LogMeaning.MarkerDecides | crates/lsbx-broker/src/reconcile.rs:292-322 | without a completion the last running or listening line decides: running, or listening until a later line registers |
| LogMeaning.RegistrationDecides | crates/lsbx-broker/src/reconcile.rs:279-291 | without such a line a registration moves any live phase but running, and nothing moves a terminal one |
| LogMeaning.LastNames | crates/lsbx-broker/src/reconcile.rs:279-338 | the last registration names the runner, and the last completion or running line the job |
| LogMeaning.FirstFailureReported | crates/lsbx-broker/src/reconcile.rs:339-343 | a recorded error stays, and otherwise the first failed completion is reported with its name and result |
| LogMeaning.IgnoresCaseIff | crates/lsbx-broker/src/reconcile.rs:326-331 | results are compared letter by letter, up to the case of ASCII letters |
| Tail.Replay | crates/lsbx-broker/src/reconcile.rs:240-250 | re-applying the log to a record that any whole-line prefix has advanced gives the complete record of one pass |
| Tail.ReplayView | crates/lsbx-broker/src/reconcile.rs:240-250 | the same for phase, runner and job name when the earlier snapshot was cut anywhere in a line |
| Tail.StickyLines | crates/lsbx-broker/src/reconcile.rs:339-343 | over lines: the error after a snapshot is right for every log it may have been read from if and only if one was recorded before, or a line in front of the last shows a failure, or the last line shows none |
| Tail.CutInsideResultLeavesError | crates/lsbx-broker/src/reconcile.rs:339-343 | a snapshot cut anywhere inside a successful result leaves an error on a job that the full log completes |
| Tail.RunConverges | crates/lsbx-broker/src/reconcile.rs:251-353 | for every run of tails over snapshots in any order, failed saves, startup notes, divergence updates and restarts, both the memory and the disk copy end where one pass would |
| Tail.RunConvergesWithError | crates/lsbx-broker/src/reconcile.rs:251-353 | and with whole-line snapshots and no startup note, with the same error |
| Tail.TerminalStays | crates/lsbx-broker/src/reconcile.rs:284-344 | no log makes a terminal phase non-terminal |
| LogText.CutIsSnapshot | crates/lsbx-broker/src/reconcile.rs:274-278 | the lines of a text prefix are the text's own lines, the last one perhaps cut, unless the cut parts a carriage return from its newline; at a line end they are whole |
| LogText.ReplayText | crates/lsbx-broker/src/reconcile.rs:274-278 | for every prefix of the text read first, phase and runner are those of one pass, the name is if and only if the one bad case is absent, and at a line end the whole record is |
| LogText.StickyError | crates/lsbx-broker/src/reconcile.rs:339-343 | the error that a read of a growing log leaves is right for every text it may become if and only if one was recorded before, or the read ended at a line end, or the open line brings no new failure |
| LogText.LineCr | crates/lsbx-broker/src/job_record.rs:35-123 | a carriage return behind a line changes nothing but the job name of a line that ends in the marker itself |
| Broker.Reconciler.TailAndUpdate | crates/lsbx-broker/src/reconcile.rs:251-353 | a log read with exit code 0 advances the record by one pass, stamps it if it changed and saves it; any other read changes nothing, and a failed save is reported |
| Broker.Reconciler.CheckDivergence | crates/lsbx-broker/src/reconcile.rs:371-415 | the flag says that GitHub names another job for this runner; nothing but the two divergence fields and the time stamp changes |
| Broker.Reconciler.ListInFlight | crates/lsbx-store/src/ci_job_store.rs:130-152 | exactly the live records on disk, each once |
| Broker.Reconciler.ReconcileOnStartup | crates/lsbx-broker/src/reconcile.rs:435-463 | exactly the jobs that were live on disk are resumed, each by its own log and once, and memory agrees with disk |
| Broker.Reconciler.Resume | crates/lsbx-broker/src/reconcile.rs:444-459 | one record's resume: what its log makes of it, with the failure note in its error only after a failed read or save |
| Broker.Reconciler.Dispatch | crates/lsbx-broker/src/reconcile.rs:177-226 | the new record is on disk before it is returned: phase dispatched, its sandbox, job, repository and first label, and nothing known of a runner |
| Broker.DispatchedIdParses | crates/lsbx-broker/src/reconcile.rs:177-226 | the id of a dispatched job is read back as the number it was made from |
| Broker.Reconciler.DispatchOne | crates/lsbx-broker/src/reconcile.rs:1171-1186 | a job that is live already is skipped, and any other is live afterwards unless its sandbox or its save failed |
| Broker.Reconciler.DispatchAll | crates/lsbx-broker/src/reconcile.rs:1171-1186 | one tick adds at most one live record per job however often the job is listed, none for a job already live, and agreement with disk is kept |
| Broker.Reconciler.StepJob | crates/lsbx-broker/src/reconcile.rs:1194-1205 | one job's tail and divergence check: everything but the divergence fields is what its log says; if the log could be read and names a runner and GitHub answered, the flag says whether the answer names another job, and otherwise both fields stay |
| Broker.Reconciler.TailAll | crates/lsbx-broker/src/reconcile.rs:1194-1205 | every live record is advanced by its own log and compared with its own answer, every terminal one is untouched, and agreement with disk is kept |
| Broker.Reconciler.Tick | crates/lsbx-broker/src/reconcile.rs:1171-1206 | a tick dispatches every queued job that is not live and then steps every job, the new ones included; agreement with disk is kept |
| Broker.Reconciler.RunBroker | crates/lsbx-broker/src/reconcile.rs:1145-1217 | startup resumes every live job on disk; then each poll leads from one loop head to the next by one tick, by nothing after a retryable error, and to the end after a fatal one; while all saves have succeeded the live records in memory are, as a map, the live records on disk |
| Broker.RestartFindsTheSame | crates/lsbx-store/src/ci_job_store.rs:130-152 | agreement means that what a restart lists is exactly the set of live records in memory |
| Runner.Scan | crates/lsbx-broker/src/reconcile.rs:895-921 | a job round's line loop computes last names, first completion, any exit and any job name other than the expected one |
| Runner.ScanWaiting | crates/lsbx-broker/src/reconcile.rs:853-861 | the waiting loop's line loop, likewise |
| Runner.Runner.AwaitListening | crates/lsbx-broker/src/reconcile.rs:831-882 | ends well only on a log with the listening marker whose turn began within the timeout, with phase running saved last; by time-out only when the clock shows it and no log listened or quit; its rounds are the logs read and hold only answers that GitHub gave; three seconds of sleep per read |
| Runner.Runner.Observe | crates/lsbx-broker/src/reconcile.rs:895-979 | one round: divergence is asked if a runner is known, the record is saved once, the job is looked up if and only if the log has not decided and the id is a number, and the decision follows |
| Runner.AcceptsIff | crates/lsbx-broker/src/reconcile.rs:928-974 | a round ends a job well, in terms of its lines and GitHub's answer: the first completion line says success or succeeded, or nothing completed and nobody quit and the looked-up job concluded success; a diverged job ends well however it ends |
| Runner.ShowsIff | crates/lsbx-broker/src/reconcile.rs:903-974 | a round shows divergence if and only if a running line names another job, or GitHub names another job for the runner or another runner for the job |
| Runner.Runner.Turn | crates/lsbx-broker/src/reconcile.rs:895-990 | a whole turn: the questions asked are exactly those that are due, and a job that goes on has its lease renewed if that is due |
| Runner.Runner.WatchJob | crates/lsbx-broker/src/reconcile.rs:884-997 | stops at the first round that ends the job; success only on an accepted round decided within the timeout, every other end on the failure it names; the lease is renewed before a pause is over at every round but the last |
| Runner.LeaseNeverRunsOut | crates/lsbx-broker/src/reconcile.rs:980-988 | at this pace a lease of thirty seconds or more never runs out between two rounds, and only such a lease is sure not to |
| Runner.Runner.Monitor | crates/lsbx-broker/src/reconcile.rs:819-997 | every end rests on what the rounds, the clock, the saves and the renewals show: success on an earned end within both timeouts, each time-out on the clock, an early exit, a rejection, a bad id, a refused renewal or a failed save on itself; the rounds are the logs read |
| Runner.Runner.Provision | crates/lsbx-broker/src/reconcile.rs:762-817 | saves phase provisioning, then runs the script, then saves the first runner name in its output, then starts the runner; the first failure ends it, and each end says which failure it was |
| Runner.Runner.RunPrimary | crates/lsbx-broker/src/reconcile.rs:1055-1069 | a runner is provisioned if and only if the first look at the log failed or no line of it registers one; the job is monitored if and only if it was not provisioned or provisioning went well; every end has its grounds |
| Runner.BeganIff | crates/lsbx-broker/src/reconcile.rs:1055-1069 | that condition line by line: one provisioning exactly without a log that registers a runner, one monitor exactly without a failed provisioning, whose error is then the end |
| Runner.Runner.CleanUp | crates/lsbx-broker/src/reconcile.rs:999-1044 | the end is the one that the answers lead to, and each end states disk, VM and record; the scrub runs while the VM is there and the record is on disk in phase cleaning, the destroy next, and the record is deleted last and only if both went well |
| Runner.EndIff | crates/lsbx-broker/src/reconcile.rs:999-1044 | each end of the cleanup in terms of the answers, and the error text of a scrub, a destroy or both |
| Runner.Runner.RunJob | crates/lsbx-broker/src/reconcile.rs:1049-1089 | one look at the log decides about provisioning and monitoring as above, and the cleanup follows every end; if its saves succeed, the record is deleted and the VM absent, or the record is on disk in phase cleaning and a restart lists it, with the scrub's or destroy's error, or after a failed delete without one only if the job ended well and had none before; Ok if and only if the monitor finished, within both timeouts and with the lease kept up, and the record was deleted |
| Runner.EarnedWhenAccepted | crates/lsbx-broker/src/reconcile.rs:928-974 | an accepted last round, with divergence traced to the rounds that showed it, is a success result, a success conclusion or a shown divergence |
| RunnerBroker.RunRunnerBroker | crates/lsbx-broker/src/reconcile.rs:1223-1288 | every job live on disk at the start is run once, and then each poll leads to one claim, to nothing after a retryable error, and to the end after a fatal one; while every save succeeds, at each loop head every VM is named by a record that a restart lists, but for those that none named at the start |
| RunnerBroker.ClaimOne | crates/lsbx-broker/src/reconcile.rs:1259-1283 | one tick dispatches the first queued job that no record stands for and whose sandbox comes up, runs exactly that record to its end with the configured timeouts and lease, and touches no other; without such a job nothing happens |
| RunnerBroker.ResumeAll | crates/lsbx-broker/src/reconcile.rs:1235-1239 | every job that was live on disk is run to its end once, as its log has it, before new work is claimed, and then all of its VMs are gone or named |
| RunnerBroker.ResumeHidesIff | crates/lsbx-broker/src/reconcile.rs:435-463 | a startup tail ends a live job's listing if and only if its log holds a completion line |
| Lock.LocksAlwaysMatch | crates/lsbx-store/src/lock.rs:61-128 | in every state of every run a file is locked by a process exactly while that process is between its flock and its release |
| Lock.Acquisition | crates/lsbx-store/src/lock.rs:61-90 | every live guard was checked against the path in some earlier state, when its file was the path's file, and has been held since |
| Lock.TwoGuardsNeedPathChange | crates/lsbx-store/src/lock.rs:28-43 | two guards are live together only if the path was changed while one of them was held |
| Lock.MutualExclusion | crates/lsbx-store/src/lock.rs:28-43 | with no outside change of the path at most one guard is live |
| Lock.Host.Acquire | crates/lsbx-store/src/lock.rs:77-94 | a guard is handed out only for the file at the path at that moment, locked by the caller; an error comes from a failed system call only; every round of waiting met a locked or replaced file; every other end leaves no lock |
| Lock.Host.TryAcquire | crates/lsbx-store/src/lock.rs:98-128 | never waits; contention means a moment of this call at which the file was locked or no longer the path's, and an error a failed system call, so a free file at an unchanged path is acquired; without a guard no lock is kept |
| Lock.Host.Compare | crates/lsbx-store/src/lock.rs:61-73 | the guard survives the comparison if and only if the path still names the locked file, and an error means that it could not be compared |
| Lock.Host.DropGuard | crates/lsbx-store/src/lock.rs:20-30 | releases exactly the guard's lock and leaves the path alone |
| Lifecycle.TrackedUntilGone | crates/lsbx-lifecycle/src/create.rs:333-346 | in every interleaving with crashes and failures, a VM whose create passed its save is named by a store record until the backend no longer has it, and once gone stays gone |
| Lifecycle.KeyDirectoryGoesFirst | crates/lsbx-lifecycle/src/create.rs:364-407 | in every run a directory outlives its record only if reap's NotFound arm deleted the record |
| Lifecycle.KeyDirectoryLeftBehind | crates/lsbx-lifecycle/src/reap.rs:165-170 | and every run can be continued to where it does: the VM of a new sandbox vanishes, the lease runs out, and a sweep retires the record |
| Lifecycle.Always | crates/lsbx-lifecycle/src/create.rs:225-431 | the invariant behind both, in every state of every run |
| Lifecycle.StepKeeps | crates/lsbx-lifecycle/src/reap.rs:136-178 | and under every single step of every call |
| Lifecycle.Lasts | crates/lsbx-lifecycle/src/create.rs:333-346 | saved births, vanished VMs and removed key directories are never taken back |
| Lifecycle.Cloud.Create | crates/lsbx-lifecycle/src/create.rs:225-346 | it is saved if and only if the tag is free and backend, key registration and store answer well, with the key and the lease asked for; a failure before the save removes the key directory and a VM whose key was not registered; after a save the VM is on record or gone, whether or not readiness was proved |
| Lifecycle.Cloud.Destroy | crates/lsbx-lifecycle/src/create.rs:381-408 | the answer is the one that the record at its load and the answers of the outside call for; Ok means that the VM and the key directory are gone, whatever ran meanwhile |
| Lifecycle.Cloud.Renew | crates/lsbx-lifecycle/src/create.rs:413-431 | Ok if and only if load and save went well and the record at its load exists and is not marked as failed in cleanup, and then that record is stored with the new lease |
| Lifecycle.Cloud.Reap | crates/lsbx-lifecycle/src/reap.rs:93-178 | a listing that reports every record that stays; exactly those it read with an expired lease are tried, whatever becomes of the others; exactly those whose destroy, or deletion after a NotFound, went well are reported, and they are gone |
| Leases.SweptWasExpired | crates/lsbx-lifecycle/src/reap.rs:101-120 | in every run, a record that a sweep goes after was in the store since the sweep began with a lease that ran out, grace included |
| Leases.RenewProtects | crates/lsbx-lifecycle/src/create.rs:410-431 | in every run, no sweep that begins after a renewal's save goes after the record before the saved lease has run out, unless another renewal saved less |
| Leases.LeaseHolds | crates/lsbx-lifecycle/src/create.rs:413-431 | from a renewal's save on the stored lease is at least what it saved, whatever other calls do short of such a renewal |
| AccountKeys.LostKey | crates/lsbx-lifecycle/src/reap.rs:180-187 | in every run, a key that no destroy revoked is gone only through a reconciliation that had begun before its sandbox was stored |
| AccountKeys.StoredKeepsKey | crates/lsbx-backend-exedev/src/lib.rs:863-964 | a stored sandbox that no reconciliation endangers at one moment keeps its key in every continuation, until a destroy revokes it |
| AccountKeys.KeyCanBeLostIff | crates/lsbx-lifecycle/src/reap.rs:180-187 | from any state of any run, an untried stored sandbox can lose its key if and only if some reconciliation has missed its label and may list, or has listed, its key |
| AccountKeys.RaceLosesKey | crates/lsbx-lifecycle/src/create.rs:248-335 | every run can be continued to a stored sandbox whose key a reconciliation took between registration and save |
| Reap.SelectedIff | crates/lsbx-lifecycle/src/reap.rs:202-222 | both filters together: the lease was read and is more than `ttl` past |
| Reap.Fleet.Destroy | crates/lsbx-lifecycle/src/create.rs:381-408 | key, VM, directory, record in this order, each touched only if all before it went well; the record goes only at the end |
| Reap.Fleet.Renew | crates/lsbx-lifecycle/src/create.rs:413-431 | only a record that exists and is not marked as failed gets the lease `now + d`; nothing else changes |
| Reap.Fleet.Expired | crates/lsbx-lifecycle/src/reap.rs:101-128 | exactly the selected ids, ascending, whatever order the directory listing has |
| Reap.Fleet.SweepAll | crates/lsbx-lifecycle/src/reap.rs:136-178 | the loop's effect on store, account, VMs and key directories is the closed form over the selected records, and the report is exactly the removed ids, ascending |
| Reap.RemovedLeaves | crates/lsbx-lifecycle/src/reap.rs:149-170 | a removed record has no VM left, and its key directory outlives it if and only if the backend answered that it had no such VM |
| Reap.RemovedIff | crates/lsbx-lifecycle/src/reap.rs:149-170 | what it takes for a record to go, answer by answer |
| Reap.DirGoesTooIff | crates/lsbx-lifecycle/src/reap.rs:149-170 | whatever a truthful backend and the file system answer, a record's key directory goes with it if and only if the record is not selected, or names no VM or one that is there |
| Reap.Fleet.ReconcileKeys | crates/lsbx-keys/src/reconcile.rs:18-36 | revokes exactly the tagged keys with no known label and counts them; an error comes from a failed revocation, and costs only such keys |
| Reap.Fleet.Reap | crates/lsbx-lifecycle/src/reap.rs:93-200 | a dry run changes nothing; otherwise store, VMs and key directories are the closed forms even when the key reconciliation fails, which takes a failed listing or an orphan whose revocation failed, and costs orphans only; after success the account is the closed form too and `keys_reconciled` is the number of keys the reconciliation took |
| Reap.ReportWithinDryRun | crates/lsbx-lifecycle/src/reap.rs:122-134 | the report is a subsequence of the dry run's, and equal to it when every step goes well |
| Reap.SecondSweepIdle | crates/lsbx-lifecycle/src/reap.rs:149-176 | after a sweep in which all went well a second one at the same time removes nothing |
| Reap.RenewProtects | crates/lsbx-lifecycle/src/create.rs:410-431 | a record renewed at `t` for `d` outlives, unchanged, every series of sweeps that start by `t + d` plus their grace |
| Reap.NoLeaseNoSweep | crates/lsbx-lifecycle/src/lease.rs:11-46 | a record without a readable lease outlives every series of sweeps |
| Reap.SurvivorKeepsKeyIff | crates/lsbx-backend-exedev/src/lib.rs:719-757 | whatever backend, key directory and record store answer, a surviving record keeps its key if and only if the sweep does not select it or it names no VM |
| Reap.SurvivorLosesKey | crates/lsbx-backend-exedev/src/lib.rs:719-757 | the failing case in any store: key revoked, even behind an error, and the record kept by a later failure |
| Reap.SurvivorsKey | crates/lsbx-lifecycle/src/reap.rs:180-193 | one sweep: a survivor's key is still registered if and only if the sweep did not get as far as revoking it |
| Reap.UntaggedKeysStay | crates/lsbx-keys/src/reconcile.rs:38-43 | an untagged key goes only if it is itself the public key of a swept record |
| Reap.OrphanIff | crates/lsbx-keys/src/reconcile.rs:18-43 | a tagged key is an orphan if and only if no record goes by its label, bare or tagged |
| Reap.OrphansRevoked | crates/lsbx-lifecycle/src/reap.rs:180-193 | after a reap no tagged key is left whose label no surviving record goes by |
| Gate.CapPlusRevivals | crates/lsbx-gateway/src/routes.rs:605-651 | in every run the store exceeds the cap by at most the number of deleted records that renewals saved again |
| Gate.CapHolds | crates/lsbx-gateway/src/routes.rs:616-631 | with atomic renewals the cap holds in every state, failed creates included |
| Gate.SplitRenewalOverfills | crates/lsbx-lifecycle/src/create.rs:413-431 | from any full state reached in any run, split renewals reach a state one above the cap |
| Gate.StepKeeps | crates/lsbx-gateway/src/routes.rs:616-651 | the gate is held by exactly the handler that lists or creates, and each step keeps the room it counted on |
| Gate.Gateway.CreateSandbox | crates/lsbx-gateway/src/routes.rs:605-651 | a zero cap, and nothing else, is refused at once; a handler still waits only if every look found the gate taken; then a failed listing or one that reached the cap, and nothing else, is refused, and otherwise the create decides; the gate is released however the handler ends |
| Gate.Gateway.List | crates/lsbx-gateway/src/routes.rs:619-630 | a listing that is not a snapshot still reports every record that stayed while it ran |
| RateLimit.RefusedIffWindowFull | crates/lsbx-gateway/src/ratelimit.rs:93-113 | over the whole history, a request is refused if and only if some window ending now is full |
| RateLimit.NoWindowExceedsRate | crates/lsbx-gateway/src/ratelimit.rs:74-82 | every window allows at most capacity plus rate times its length |
| RateLimit.WindowBound | crates/lsbx-gateway/src/ratelimit.rs:74-82 | the same against any non-decreasing clock of credit |
| RateLimit.AllowedPerMinute | crates/lsbx-gateway/src/ratelimit.rs:46-82 | within sixty seconds at most the burst and the requests per minute together are allowed |
| RateLimit.MinuteRefills | crates/lsbx-gateway/src/ratelimit.rs:89-97 | sixty quiet seconds give back exactly the requests per minute, up to the burst |
| RateLimit.BurstAtOnce | crates/lsbx-gateway/src/ratelimit.rs:74-97 | at any one moment exactly the burst, or one request at a burst of zero, is allowed |
| RateLimit.RefusalsOnlyRefill | crates/lsbx-gateway/src/ratelimit.rs:99-113 | refused requests take nothing: the budget after them is the refilled one |
| RateLimit.RetryAfterIsTight | crates/lsbx-gateway/src/ratelimit.rs:99-113 | after refusals only, a request is allowed exactly from the shortfall time on; `Retry-After` is never earlier, less than one second later, and waiting for it suffices |
| RateLimit.ZeroRatePanics | crates/lsbx-gateway/src/ratelimit.rs:99-113 | at a zero rate as many checks as the capacity are allowed, and the next panics |
| RateLimit.CanPanicIffZeroRate | crates/lsbx-gateway/src/ratelimit.rs:85-113 | some history of its own decisions leads the limiter to a panic if and only if it is configured to zero requests per minute |
| RateLimit.CheckLinks | crates/lsbx-gateway/src/ratelimit.rs:89-97 | one key's new number is the budget that its longer history leaves, and no other key is touched |
| RateLimit.TokenBucket.Check | crates/lsbx-gateway/src/ratelimit.rs:83-114 | with that key's clock readings in order the decision is the one its full history calls for; other keys keep bucket and history; at a positive rate no check panics, whatever the readings, and at a zero rate none is answered with a delay |
| Shell.SplitAndPush | crates/lsbx-backend-libvirt/src/guest_ssh.rs:131-143 | the split-and-push loop is replacement of every quote |
| Shell.ShellQuote | crates/lsbx-backend-libvirt/src/guest_ssh.rs:122-144 | safe words stay bare, and every other argument gets the form that exe.dev's replacement gives |
| Shell.QuoteReads | crates/lsbx-backend-exedev/src/lib.rs:212-214 | lexing either quoted form appends exactly the argument to the current word |
| Shell.JoinRoundTrip | crates/lsbx-backend-libvirt/src/guest_ssh.rs:146-152 | for every argv POSIX token lexing of the joined line gives argv back, in both backends' forms |
| TwoLayer.ArrivesIffClean | crates/lsbx-backend-exedev/src/http_fallback.rs:192-194 | lexing the wrapped command and then its third word gives argv back if and only if every argument is clean |
| TwoLayer.LossyThirdWord | crates/lsbx-backend-exedev/src/lib.rs:553-557 | a third word that lost quotes or backslashes cannot lex to argv |
| Sentinel.FramedRoundTrip | crates/lsbx-backend-exedev/src/http_fallback.rs:153-172 | framed text, full of fake sentinels or not, gives back text and code; the bare marker gives empty text |
| Sentinel.ResultIsLastMarker | crates/lsbx-backend-exedev/src/http_fallback.rs:153-172 | a result appears if and only if an exit code alone follows the last line-start marker, or the leading marker when there is none |
| Sentinel.ExitCodeIff | crates/lsbx-backend-exedev/src/http_fallback.rs:166-171 | an exit code is a 32-bit integer that is not negative, with white space around it |
| Sentinel.CutIffLastMarker | crates/lsbx-backend-exedev/src/http_fallback.rs:155-165 | the cut is at the last line-start marker and nowhere else |
| Sentinel.SurvivesIffLineEnds | crates/lsbx-backend-exedev/src/http_fallback.rs:124-129 | output and exit code of a wrapped command are reported if and only if the output is empty or ends a line |
| Sentinel.CodeLost | crates/lsbx-backend-exedev/src/http_fallback.rs:124-129 | otherwise, with no other marker in the output, the report is the whole body and code 0 |
| Sentinel.DecimalParses | crates/lsbx-backend-exedev/src/http_fallback.rs:158-159 | every code below the limit prints as digits that parse back to it |
| Exec.EchoesExitCode | crates/lsbx-backend-exedev/src/http_fallback.rs:192-194 | behind a clean command the VM prints the marker the reader looks for and the command's own status |
| Exec.ExecRoundTrip | crates/lsbx-backend-exedev/src/http_fallback.rs:124-194 | a clean argv arrives, and its output and exit code are reported if and only if the output is empty or ends a line |
| Escape.ChainIsSinglePass | crates/lsbx-backend-libvirt/src/domain_xml.rs:54-61 | five successive replacements equal one pass, for XML and HTML |
| Escape.DecodeInverts | crates/lsbx-backend-libvirt/src/domain_xml.rs:54-61 | decoding the predefined entities gives back every string |
| Escape.OutputIsWellEscaped | crates/lsbx-gateway/src/routes.rs:1029-1036 | no raw markup character is left, and every ampersand starts an entity |
| FileStore.CrashSafe | crates/lsbx-store/src/sandbox_store.rs:64-101 | stopping a save after any step leaves the old or the new record, every other id untouched and the temporary file unlisted |
| FileStore.ListedIffPresent | crates/lsbx-store/src/sandbox_store.rs:137-157 | the names a listing accepts are exactly those that a load finds |
| FileStore.SaveEffect | crates/lsbx-store/src/sandbox_store.rs:64-101 | a save is a map update, or nothing before its rename |
| FileStore.DeleteEffect | crates/lsbx-store/src/sandbox_store.rs:125-135 | a delete is a map removal |
| FileStore.Store.Save | crates/lsbx-store/src/ci_job_store.rs:77-115 | the file is written under the temporary name and renamed: complete it is a map update, failed it changes nothing at all, stopped it leaves the map as it was |
| FileStore.Store.Load | crates/lsbx-store/src/sandbox_store.rs:103-123 | a load is the map's lookup |
| FileStore.Store.Delete | crates/lsbx-store/src/ci_job_store.rs:156-162 | a delete is the map's removal, a missing record is no error, and a failed one removes nothing |
| FileStore.Store.List | crates/lsbx-store/src/ci_job_store.rs:130-152 | exactly the kept records of the map, one per id, whatever the listing order |

## Left out

- Lock.Host.Acquire: a blocking acquire may wait for ever, so it is watched for a bounded number of retries and waits; what it returns within the bound is stated in full.
- Gate.Gateway.CreateSandbox: likewise, the wait for the mutex is watched for a bounded number of looks.
- Broker.Reconciler.RunBroker: agreement of memory and disk is stated while all saves have succeeded; a failed save leaves memory ahead of disk, as the source accepts.
- Broker.Reconciler.DispatchAll: the create inside a dispatch is its answer, a sandbox id or a failure; its own steps are the subject of `Lifecycle`.
- Runner.Runner.Provision: upload and guest commands are one success or failure; only the log line that names the runner is read.
- Runner.Runner.RunJob: a crash between the save of phase completed and the save of phase cleaning leaves a terminal record and a live VM; the statement is about returns. Time passes in calls to the outside only, so code between two of them takes none. Error texts other than the cleanup's, and time stamps, are not modelled.
- Lifecycle.TrackedUntilGone: before its save a failed or crashed create may leave a VM that no record names, so tracking starts at the save.
- Lifecycle.KeyDirectoryGoesFirst: one direction in interleavings, because a second destroy may still remove the directory of a retired record; the exact condition is stated for one sweep after another (`Reap.RemovedLeaves`).
- Leases.RenewProtects: every stored lease is a readable deadline there, as create and renew write it; unreadable ones are covered by `Reap.NoLeaseNoSweep`.
- AccountKeys.LostKey: keys are one per sandbox and known by its id; shared or untagged keys are covered by `Reap`.
- Lifecycle.Cloud.Create: ids and VMs are fresh values, and creates of one id never collide; the clock and random suffix that make ids are not modelled.
- Reap.Fleet.Reap: ids are numbers, used only by equality and order; the warning about unknown goldens has no effect and is left out. A key directory whose removal reports an error counts as still there.
- Gate.CapHolds: every create goes through the gate; creates from other entry points are not counted by it in the source either.
- RateLimit.TokenBucket.Check: reals stand for 64-bit floats, and a key whose clock readings arrive out of order (the clock is read before the mutex is taken) falls outside the history statement.
- LogText.ReplayText: the log is already decoded text; lossy decoding of invalid UTF-8 is not modelled.
- Shell.JoinRoundTrip: the lexer is token recognition and quote removal; reserved words, aliases and assignment prefixes of the first word are outside it.
- TwoLayer.ArrivesIffClean: the VM tag is a plain non-empty word.
- FileStore.Store.Save: ids are non-empty names without a path separator, and the temporary name is the one the temp-file library draws, new in the directory.
- RunnerBroker.RunRunnerBroker: stated while all saves succeed; a create that fails, or a dispatch whose save fails, may leave a VM that no record names.
- Reap.DirGoesTooIff: two records that name one VM are outside it, because the first removal makes the VM missing for the second.
- Broker.Reconciler.Tick: the broker lock that is held around the loops is the subject of `Lock`, and the sleep between two ticks is left out.
- Repository discovery and the poll schedule: they choose which jobs reach the parts modelled here.
- Unreadable or malformed record files: records are taken as parsed, so the error paths of `load` and `list` for them are absent.
- Subprocesses, SSH, HTTP, libvirt and GitHub calls: arbitrary answers within the contracts above.
- Key generation, hashing, tokens, PEM and JSON: values are taken as given.
- CLI, MCP, routing, authentication, tables, bootstrap, domain templates and golden images: translation with no hard property.
- The WebSocket relay: it rests on the runtime's cancellation, which this code does not define.
- `cmd_quote` for Windows: its shell has no standard lexer to prove against.
- A grace period too large for the clock library: durations are unbounded integers here.
