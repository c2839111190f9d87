/** One CI job from provisioning to cleanup (`run_runner_job`). Instants and timeouts are in
    seconds. */
module Runner {
  import opened Text
  import opened Markers
  import opened Tail
  import opened Broker

  /** The part of GitHub's answer about one job that the monitor reads. */
  datatype Job = Job(completed: bool, conclusion: Option<string>, runnerName: Option<string>)

  /** What one turn of a monitor loop saw: when the log came back, the log, the runner name
      known by then, the divergence query (`None`: not asked, or failed) and the job lookup
      (likewise). */
  datatype Round = Round(
    at: int,
    lines: seq<string>,
    runner: Option<string>,
    check: Option<Option<nat>>,
    job: Option<Job>
  )

  datatype End =
    | Finished | NoSandbox | SaveFailed | NeverListened | ExitedEarly
    | Rejected | BadJobId | RenewFailed | TimedOut | NotProvisioned

  /** `Iterator::find_map`. */
  function First<T>(f: string -> Option<T>, lines: seq<string>): Option<T> {
    if lines == [] then None else if f(lines[0]).Some? then f(lines[0]) else First(f, lines[1..])
  }

  function Completion(lines: seq<string>): Option<(string, string)> { First(ParseJobCompleted, lines) }

  predicate Any(p: string -> bool, lines: seq<string>) { exists i :: 0 <= i < |lines| && p(lines[i]) }

  predicate Quit(lines: seq<string>) { Any(IsExited, lines) }

  predicate Listens(lines: seq<string>) { Any(IsListeningForJobs, lines) }

  /** A "Running job" line names another job than the one expected. */
  predicate Stray(expected: Option<string>, line: string) {
    expected.Some? && ParseRunningJob(line).Some? && ParseRunningJob(line) != expected
  }

  predicate Strays(expected: Option<string>, lines: seq<string>) {
    exists i :: 0 <= i < |lines| && Stray(expected, lines[i])
  }

  predicate Success(result: string) {
    EqIgnoreAsciiCase(result, "success") || EqIgnoreAsciiCase(result, "succeeded")
  }

  /** The round is the job's last: a completion line, a runner that quit, or a job that
      GitHub calls completed. */
  predicate Ends(o: Round) {
    Completion(o.lines).Some? || Quit(o.lines) || (o.job.Some? && o.job.value.completed)
  }

  /** It ends the job well. */
  predicate Accepts(diverged: bool, o: Round) {
    && Ends(o)
    && (diverged
        || (if Completion(o.lines).Some? then Success(Completion(o.lines).value.1)
            else !Quit(o.lines) && o.job.value.conclusion == Some("success")))
  }

  /** GitHub names another job for this runner. */
  predicate OtherJob(jobId: string, check: Option<Option<nat>>) {
    check.Some? && check.value.Some? && ParseU64(jobId).Some? && check.value != ParseU64(jobId)
  }

  /** GitHub names another runner for this job. */
  predicate OtherRunner(o: Round) {
    o.job.Some? && o.job.value.runnerName.Some? && o.runner.Some? && o.job.value.runnerName != o.runner
  }

  /** The round shows that the runner took, or was given, another job. */
  predicate ShowsDivergence(r: CiJobRecord, o: Round) {
    Strays(r.dispatchedJobName, o.lines) || OtherJob(r.jobId, o.check) || OtherRunner(o)
  }

  /** In terms of the lines and of GitHub's answers. */
  lemma ShowsIff(r: CiJobRecord, o: Round)
    ensures ShowsDivergence(r, o) <==>
            || (r.dispatchedJobName.Some? && NamesOther(o.lines, r.dispatchedJobName.value))
            || (o.check.Some? && o.check.value.Some? && ParseU64(r.jobId).Some?
                && o.check.value.value != ParseU64(r.jobId).value)
            || (o.job.Some? && o.job.value.runnerName.Some? && o.runner.Some?
                && o.job.value.runnerName.value != o.runner.value)
  {
    if r.dispatchedJobName.Some? {
      StraysIff(r.dispatchedJobName.value, o.lines);
    }
  }

  predicate NamesOther(lines: seq<string>, name: string) {
    exists i :: 0 <= i < |lines| && ParseRunningJob(lines[i]).Some? && ParseRunningJob(lines[i]).value != name
  }

  lemma StraysIff(name: string, lines: seq<string>)
    ensures Strays(Some(name), lines) <==> NamesOther(lines, name)
  {
    forall i | 0 <= i < |lines|
      ensures Stray(Some(name), lines[i]) <==>
              ParseRunningJob(lines[i]).Some? && ParseRunningJob(lines[i]).value != name
    {
      StrayIff(name, lines[i], ParseRunningJob(lines[i]));
    }
  }

  lemma StrayIff(name: string, line: string, running: Option<string>)
    requires running == ParseRunningJob(line)
    ensures Stray(Some(name), line) <==> running.Some? && running.value != name
  {
  }

  /** The flag after a job round: an answered query decides, whatever was known before;
      then the job lookup may still set it. */
  predicate DivergedAfter(r: CiJobRecord, o: Round) {
    || (if o.check.Some? then OtherJob(r.jobId, o.check) else r.diverged || Strays(r.dispatchedJobName, o.lines))
    || OtherRunner(o)
  }

  lemma DivergenceIsShown(r: CiJobRecord, o: Round)
    requires DivergedAfter(r, o)
    ensures r.diverged || ShowsDivergence(r, o)
  {
  }

  predicate SomeShow(r: CiJobRecord, rounds: seq<Round>) {
    exists k :: 0 <= k < |rounds| && ShowsDivergence(r, rounds[k])
  }

  /** What a job's identity is while it runs. */
  predicate SameJob(r: CiJobRecord, s: CiJobRecord) {
    && r.jobId == s.jobId && r.repository == s.repository && r.sandboxId == s.sandboxId
    && r.dispatchedJobName == s.dispatchedJobName && r.lastError == s.lastError
  }

  lemma SomeShowAppend(r: CiJobRecord, rounds: seq<Round>, o: Round)
    ensures SomeShow(r, rounds + [o]) <==> SomeShow(r, rounds) || ShowsDivergence(r, o)
  {
    var all := rounds + [o];
    assert forall k :: 0 <= k < |rounds| ==> all[k] == rounds[k];
    assert all[|rounds|] == o;
  }

  /** A job loop has seen these rounds since `entered`, and none of them ended the job. */
  predicate Undecided(r: CiJobRecord, record: CiJobRecord, seen: seq<Round>, entered: int) {
    && SameJob(r, record) && Live(record)
    && (record.diverged ==> r.diverged || SomeShow(r, seen))
    && (seen != [] ==> entered <= seen[0].at)
    && NoneEnds(seen)
  }

  function AllButLast(seen: seq<Round>): seq<Round> { if seen == [] then seen else seen[..|seen| - 1] }

  lemma OneMoreSeen(seen: seq<Round>, o: Round)
    ensures AllButLast(seen + [o]) == seen <= seen + [o] && (seen + [o])[|seen + [o]| - 1] == o
  {
  }

  lemma NoneEndsBefore(seen: seq<Round>)
    requires NoneEnds(seen)
    ensures NoneEnds(AllButLast(seen))
  {
  }

  predicate NoneEnds(seen: seq<Round>) { forall k :: 0 <= k < |seen| ==> !Ends(seen[k]) }

  lemma OneMoreRound(r: CiJobRecord, before: CiJobRecord, seen: seq<Round>, entered: int,
                     record: CiJobRecord, o: Round)
    requires Undecided(r, before, seen, entered) && SameJob(before, record) && Live(record) && entered <= o.at
    requires record.diverged ==> before.diverged || ShowsDivergence(before, o)
    ensures SameJob(r, record) && (record.diverged ==> r.diverged || SomeShow(r, seen + [o]))
    ensures entered <= (seen + [o])[0].at
    ensures !Ends(o) ==> Undecided(r, record, seen + [o], entered)
  {
    SomeShowAppend(r, seen, o);
    EndsAppend(seen, o);
  }

  lemma EndsAppend(seen: seq<Round>, o: Round)
    ensures NoneEnds(seen + [o]) <==> NoneEnds(seen) && !Ends(o)
  {
    var all := seen + [o];
    assert forall k :: 0 <= k < |seen| ==> all[k] == seen[k];
    assert all[|seen|] == o;
  }

  /** The waiting loop has seen these rounds since `entered`, and none of them ended it. */
  predicate Waiting(r: CiJobRecord, record: CiJobRecord, seen: seq<Round>, entered: int) {
    && SameJob(r, record) && Live(record)
    && (record.diverged ==> r.diverged || SomeShow(r, seen))
    && (seen != [] ==> entered <= seen[0].at)
    && StillWaits(seen)
  }

  predicate StillWaits(seen: seq<Round>) {
    forall k :: 0 <= k < |seen| ==> !Listens(seen[k].lines) && !Quit(seen[k].lines)
  }

  lemma OneMoreWait(r: CiJobRecord, before: CiJobRecord, seen: seq<Round>, entered: int,
                    record: CiJobRecord, o: Round)
    requires Waiting(r, before, seen, entered) && SameJob(before, record) && Live(record) && entered <= o.at
    requires record.diverged ==> before.diverged || ShowsDivergence(before, o)
    ensures SameJob(r, record) && (record.diverged ==> r.diverged || SomeShow(r, seen + [o]))
    ensures entered <= (seen + [o])[0].at
    ensures !Listens(o.lines) && !Quit(o.lines) ==> Waiting(r, record, seen + [o], entered)
  {
    SomeShowAppend(r, seen, o);
    WaitsAppend(seen, o);
  }

  lemma WaitsAppend(seen: seq<Round>, o: Round)
    ensures StillWaits(seen + [o]) <==> StillWaits(seen) && !Listens(o.lines) && !Quit(o.lines)
  {
    var all := seen + [o];
    assert forall k :: 0 <= k < |seen| ==> all[k] == seen[k];
    assert all[|seen|] == o;
  }

  lemma {:induction false} FirstAppend<T>(f: string -> Option<T>, lines: seq<string>, line: string)
    ensures First(f, lines + [line]) == if First(f, lines).Some? then First(f, lines) else f(line)
  {
    if lines == [] {
      assert lines + [line] == [line] && [line][1..] == [];
    } else {
      assert (lines + [line])[1..] == lines[1..] + [line];
      FirstAppend(f, lines[1..], line);
    }
  }

  /** The record after a job round's log was read. */
  function Scanned(r: CiJobRecord, lines: seq<string>): CiJobRecord {
    r.(runnerName := Or(Last(ParseRunnerRegistered, lines), r.runnerName),
       phase := if r.phase == WaitingRunner && Listens(lines) then Running else r.phase,
       actualJobName := Or(Last(ParseRunningJob, lines), r.actualJobName),
       diverged := r.diverged || Strays(r.dispatchedJobName, lines))
  }

  function Marked(r: CiJobRecord, registered: Option<string>, listening: bool, running: Option<string>): CiJobRecord {
    r.(runnerName := Or(registered, r.runnerName),
       phase := if r.phase == WaitingRunner && listening then Running else r.phase,
       actualJobName := Or(running, r.actualJobName),
       diverged := r.diverged || (r.dispatchedJobName.Some? && running.Some? && running != r.dispatchedJobName))
  }

  lemma AnyAppend(p: string -> bool, lines: seq<string>, line: string)
    ensures Any(p, lines + [line]) <==> Any(p, lines) || p(line)
  {
    var all := lines + [line];
    assert forall k :: 0 <= k < |lines| ==> all[k] == lines[k];
    assert all[|lines|] == line;
  }

  lemma StraysAppend(expected: Option<string>, lines: seq<string>, line: string)
    ensures Strays(expected, lines + [line]) <==> Strays(expected, lines) || Stray(expected, line)
  {
    var all := lines + [line];
    assert forall k :: 0 <= k < |lines| ==> all[k] == lines[k];
    assert all[|lines|] == line;
  }

  lemma ScanSteps(r: CiJobRecord, lines: seq<string>, line: string)
    ensures Scanned(r, lines + [line]) ==
            Marked(Scanned(r, lines), ParseRunnerRegistered(line), IsListeningForJobs(line), ParseRunningJob(line))
  {
    assert (lines + [line])[..|lines|] == lines;
    AnyAppend(IsListeningForJobs, lines, line);
    StraysAppend(r.dispatchedJobName, lines, line);
  }

  lemma EndSteps(lines: seq<string>, line: string)
    ensures Completion(lines + [line]) ==
            if Completion(lines).Some? then Completion(lines) else ParseJobCompleted(line)
    ensures Quit(lines + [line]) <==> Quit(lines) || IsExited(line)
    ensures Listens(lines + [line]) <==> Listens(lines) || IsListeningForJobs(line)
    ensures Last(ParseRunnerRegistered, lines + [line]) ==
            Or(ParseRunnerRegistered(line), Last(ParseRunnerRegistered, lines))
  {
    assert (lines + [line])[..|lines|] == lines;
    FirstAppend(ParseJobCompleted, lines, line);
    AnyAppend(IsExited, lines, line);
    AnyAppend(IsListeningForJobs, lines, line);
  }

  /** One line's markers, already parsed, on the record. */
  method Mark(r: CiJobRecord, registered: Option<string>, listening: bool, running: Option<string>)
      returns (record: CiJobRecord)
    ensures record == Marked(r, registered, listening, running)
  {
    record := r;
    if registered.Some? {
      record := record.(runnerName := registered);
    }
    if listening && record.phase == WaitingRunner {
      record := record.(phase := Running);
    }
    if running.Some? {
      record := record.(actualJobName := running);
      if record.dispatchedJobName.Some? && record.dispatchedJobName != running {
        record := record.(diverged := true);
      }
    }
  }

  /** One line of a job round, behind the lines `read`. */
  method ScanLine(ghost r: CiJobRecord, ghost read: seq<string>, record: CiJobRecord,
                  completion: Option<(string, string)>, exited: bool, line: string)
      returns (record': CiJobRecord, completion': Option<(string, string)>, exited': bool)
    requires record == Scanned(r, read) && completion == Completion(read) && exited == Quit(read)
    ensures record' == Scanned(r, read + [line])
    ensures completion' == Completion(read + [line]) && exited' == Quit(read + [line])
  {
    ScanSteps(r, read, line);
    EndSteps(read, line);
    record' := Mark(record, ParseRunnerRegistered(line), IsListeningForJobs(line), ParseRunningJob(line));
    completion' := completion;
    if completion'.None? {
      completion' := ParseJobCompleted(line);
    }
    exited' := exited || IsExited(line);
  }

  /** The line loop of a job round: last names, first completion, any exit. */
  method Scan(r: CiJobRecord, lines: seq<string>)
      returns (record: CiJobRecord, completion: Option<(string, string)>, exited: bool)
    ensures record == Scanned(r, lines)
    ensures completion == Completion(lines) && exited == Quit(lines)
    ensures record.runnerName == Or(Last(ParseRunnerRegistered, lines), r.runnerName)
    ensures record.actualJobName == Or(Last(ParseRunningJob, lines), r.actualJobName)
    ensures record.diverged <==> r.diverged || Strays(r.dispatchedJobName, lines)
    ensures record.phase == if r.phase == WaitingRunner && Listens(lines) then Running else r.phase
  {
    record, completion, exited := r, None, false;
    ghost var read: seq<string> := [];
    for i := 0 to |lines|
      invariant read == lines[..i]
      invariant record == Scanned(r, read)
      invariant completion == Completion(read) && exited == Quit(read)
    {
      record, completion, exited := ScanLine(r, read, record, completion, exited, lines[i]);
      read := read + [lines[i]];
    }
    assert lines[..|lines|] == lines;
  }

  /** The line loop while waiting for the runner. */
  method ScanWaiting(r: CiJobRecord, lines: seq<string>)
      returns (record: CiJobRecord, listening: bool, exited: bool)
    ensures record == r.(runnerName := Or(Last(ParseRunnerRegistered, lines), r.runnerName))
    ensures listening == Listens(lines) && exited == Quit(lines)
  {
    record, listening, exited := r, false, false;
    ghost var read: seq<string> := [];
    for i := 0 to |lines|
      invariant read == lines[..i]
      invariant record == r.(runnerName := Or(Last(ParseRunnerRegistered, read), r.runnerName))
      invariant listening == Listens(read) && exited == Quit(read)
    {
      var line := lines[i];
      EndSteps(read, line);
      var registered := ParseRunnerRegistered(line);
      if registered.Some? {
        record := record.(runnerName := registered);
      }
      listening := listening || IsListeningForJobs(line);
      exited := exited || IsExited(line);
      read := read + [line];
    }
    assert lines[..|lines|] == lines;
  }

  /** What `ops.destroy` answers. `Gone` is its NotFound. */
  datatype Destroyed = Ok | Gone | Other(msg: string)

  /** How `cleanup_runner` ended; its two saves can fail, `NotStarted` and `NotNoted`. */
  datatype Cleanup = Removed | DeleteFailed | Kept(error: string) | NotStarted | NotNoted

  /** What the outside world answers to one cleanup, in the order it is asked: the first
      save, the scrub (its error), the destroy, and the delete or the second save. `vmGone`
      is a destroy that took effect although it reported an error. */
  datatype Answers = Answers(
    starts: bool,
    scrub: Option<string>,
    destroy: Destroyed,
    vmGone: bool,
    deletes: bool,
    notes: bool
  )

  /** The destroy took the VM away, reported so or not. */
  predicate TakesVm(at: Answers) { !at.destroy.Other? || at.vmGone }

  /** Scrub and destroy went well; a VM that is missing counts as destroyed. */
  predicate Clean(at: Answers) { at.scrub.None? && !at.destroy.Other? }

  function CleanupError(at: Answers): string {
    (if at.scrub.Some? then at.scrub.value else "")
    + (if at.scrub.Some? && at.destroy.Other? then "; " else "")
    + (if at.destroy.Other? then at.destroy.msg else "")
  }

  /** The end that these answers lead to. */
  function EndOf(sandboxId: Option<string>, at: Answers): Cleanup {
    if sandboxId.Some? && !at.starts then NotStarted
    else if sandboxId.None? || Clean(at) then (if at.deletes then Removed else DeleteFailed)
    else if at.notes then Kept(CleanupError(at))
    else NotNoted
  }

  /** The ends in terms of the answers: what it takes for the record to be deleted, to stay
      because it could not be, and to be kept with which error. */
  lemma EndIff(sandboxId: Option<string>, at: Answers)
    ensures EndOf(sandboxId, at) == Removed <==>
            at.deletes && (sandboxId.Some? ==> at.starts && at.scrub.None? && !at.destroy.Other?)
    ensures EndOf(sandboxId, at) == DeleteFailed <==>
            !at.deletes && (sandboxId.Some? ==> at.starts && at.scrub.None? && !at.destroy.Other?)
    ensures EndOf(sandboxId, at) == NotStarted <==> sandboxId.Some? && !at.starts
    ensures EndOf(sandboxId, at) == NotNoted <==>
            sandboxId.Some? && at.starts && (at.scrub.Some? || at.destroy.Other?) && !at.notes
    ensures EndOf(sandboxId, at).Kept? <==>
            sandboxId.Some? && at.starts && (at.scrub.Some? || at.destroy.Other?) && at.notes
    ensures at.scrub.Some? && !at.destroy.Other? ==> CleanupError(at) == at.scrub.value
    ensures at.scrub.None? && at.destroy.Other? ==> CleanupError(at) == at.destroy.msg
    ensures at.scrub.Some? && at.destroy.Other? ==> CleanupError(at) == at.scrub.value + "; " + at.destroy.msg
  {
  }

  /** What GitHub was asked, and answered. */
  datatype Question =
    | OfRunner(repository: string, runner: string, answer: Option<Option<nat>>)
    | OfJob(repository: string, jobId: nat, job: Option<Job>)

  datatype Wrote = Wrote(record: CiJobRecord, ok: bool)

  /** The provisioning script's output, and a start of the runner, each with the number of
      saves tried before. */
  datatype Script = Script(output: Option<string>, saves: nat)
  datatype Start = Start(ok: bool, saves: nat)

  /** A step of the cleanup, with the VMs and the disk as it found them. */
  datatype Step = Step(does: Does, vms: set<string>, disk: map<string, CiJobRecord>)
  datatype Does = Scrubs | Destroys | Deletes

  /** Timeouts and lease of a job, in seconds. */
  datatype Config = Config(waitTimeout: nat, jobTimeout: nat, lease: nat)

  /** One run of a job, as it ended. */
  datatype Ran = Ran(job: CiJobRecord, config: Config, primary: End, end: Cleanup)

  class Runner {
    const reconciler: Reconciler
    /** The sandboxes the backend still has. */
    var vms: set<string>
    var clock: int
    /** What was done so far, each by the one method that does it: log reads, sleeps,
        questions, saves of the record, answers to lease renewals, the times at which renewals
        were done, provisioning scripts and runner starts, whole provisionings, monitors begun,
        the parts in front of the cleanup, steps of cleanups, and jobs run; `slept` is in seconds. */
    ghost var logs: seq<Option<string>>
    ghost var slept: nat
    ghost var asked: seq<Question>
    ghost var wrote: seq<Wrote>
    ghost var leases: seq<Option<Option<string>>>
    ghost var renewals: seq<int>
    ghost var scripts: seq<Script>
    ghost var starts: seq<Start>
    ghost var provisioned: seq<Option<End>>
    ghost var monitors: nat
    ghost var primaries: seq<End>
    ghost var steps: seq<Step>
    ghost var ran: seq<Ran>

    constructor (reconciler: Reconciler, vms: set<string>, clock: int)
      ensures this.reconciler == reconciler && this.vms == vms && this.clock == clock && ran == []
    {
      this.reconciler, this.vms, this.clock := reconciler, vms, clock;
      ran := [];
    }

    ghost predicate InFlight(id: string) reads this, reconciler {
      id in reconciler.disk && Live(reconciler.disk[id])
    }

    /** Only this job's record changed on disk, and if a restart would have found it before,
        it would find it now; no failed save is forgotten. */
    twostate predicate StaysListed(id: string) reads this, reconciler {
      && reconciler.disk - {id} == old(reconciler.disk) - {id}
      && (old(InFlight(id)) ==> InFlight(id))
      && (reconciler.allSaved ==> old(reconciler.allSaved))
    }

    /** Time passes in calls to the outside, not in the code between them. */
    method Elapse(seconds: nat)
      modifies this`clock
      ensures clock >= old(clock) + seconds
    {
      var t :| t >= clock + seconds;
      clock := t;
    }

    method Sleep(seconds: nat)
      modifies this`clock, this`slept
      ensures clock >= old(clock) + seconds && slept == old(slept) + seconds
    {
      Elapse(seconds);
      slept := slept + seconds;
    }

    method Save(r: CiJobRecord) returns (ok: bool)
      modifies this`clock, this`wrote, reconciler
      ensures clock >= old(clock) && wrote == old(wrote) + [Wrote(r, ok)]
      ensures reconciler.disk == if ok then old(reconciler.disk)[r.jobId := r] else old(reconciler.disk)
      ensures if ok then reconciler.allSaved == old(reconciler.allSaved) else !reconciler.allSaved
      ensures Live(r) ==> StaysListed(r.jobId)
    {
      Elapse(0);
      ok := reconciler.Save(r);
      wrote := wrote + [Wrote(r, ok)];
    }

    method SaveAs(r: CiJobRecord, ok: bool)
      modifies this`clock, this`wrote, reconciler
      ensures wrote == old(wrote) + [Wrote(r, ok)]
      ensures reconciler.disk == if ok then old(reconciler.disk)[r.jobId := r] else old(reconciler.disk)
      ensures reconciler.allSaved <==> ok && old(reconciler.allSaved)
    {
      Elapse(0);
      reconciler.SaveAs(r, ok);
      wrote := wrote + [Wrote(r, ok)];
    }

    method Delete(id: string, ok: bool)
      modifies this`clock, this`steps, reconciler
      ensures steps == old(steps) + [Step(Deletes, vms, old(reconciler.disk))]
      ensures reconciler.disk == if ok then old(reconciler.disk) - {id} else old(reconciler.disk)
      ensures reconciler.allSaved == old(reconciler.allSaved)
    {
      Elapse(0);
      steps := steps + [Step(Deletes, vms, reconciler.disk)];
      if ok {
        reconciler.disk := reconciler.disk - {id};
      }
    }

    /** `ops.destroy`: Ok and NotFound mean that the VM is absent; any other error leaves it
        either way. */
    method Destroy(id: string, at: Answers)
      modifies this`vms, this`clock, this`steps
      ensures steps == old(steps) + [Step(Destroys, old(vms), reconciler.disk)]
      ensures vms == if TakesVm(at) then old(vms) - {id} else old(vms)
    {
      Elapse(0);
      steps := steps + [Step(Destroys, vms, reconciler.disk)];
      if !at.destroy.Other? || at.vmGone {
        vms := vms - {id};
      }
    }

    /** `job_for_runner`; no answer is an error. */
    method AskRunner(r: CiJobRecord) returns (answer: Option<Option<nat>>)
      requires r.runnerName.Some?
      modifies this`clock, this`asked
      ensures clock >= old(clock) && asked == old(asked) + [OfRunner(r.repository, r.runnerName.value, answer)]
    {
      Elapse(0);
      answer := *;
      asked := asked + [OfRunner(r.repository, r.runnerName.value, answer)];
    }

    /** `github.job`. */
    method AskJob(r: CiJobRecord, jobId: nat) returns (job: Option<Job>)
      modifies this`clock, this`asked
      ensures clock >= old(clock) && asked == old(asked) + [OfJob(r.repository, jobId, job)]
    {
      Elapse(0);
      job := *;
      asked := asked + [OfJob(r.repository, jobId, job)];
    }

    /** The divergence check of a round; its errors are only logged. */
    method Check(r: CiJobRecord) returns (record: CiJobRecord, check: Option<Option<nat>>)
      requires Live(r)
      modifies this`clock, this`asked, reconciler
      ensures clock >= old(clock) && StaysListed(r.jobId)
      ensures SameJob(r, record) && Settled(record) == Settled(r)
      ensures record.diverged == if check.Some? then OtherJob(r.jobId, check) else r.diverged
      ensures asked == old(asked) + CheckAsks(r, check) && (r.runnerName.None? ==> check.None?)
    {
      record, check := r, None;
      if r.runnerName.Some? {
        check := AskRunner(r);
        var now: string := *;
        var done;
        record, done := reconciler.CheckDivergence(r, check, now);
      }
    }

    /** One turn of the job loop after a successful log read, up to its decision: one
        divergence check if a runner is known, one save, and one job lookup if the log has not
        decided. `w` is what was saved. */
    method Observe(r: CiJobRecord, lines: seq<string>)
        returns (record: CiJobRecord, o: Round, end: Option<End>, ghost w: CiJobRecord)
      requires Live(r)
      modifies this`clock, this`asked, this`wrote, reconciler
      ensures SameJob(r, record) && Live(record) && o.lines == lines
      ensures o.at == old(clock) <= clock
      ensures StaysListed(r.jobId)
      ensures record.runnerName == o.runner == Or(Last(ParseRunnerRegistered, lines), r.runnerName)
      ensures record.diverged == DivergedAfter(r, o)
      ensures record == w.(actualJobName := record.actualJobName, diverged := record.diverged)
      ensures record.actualJobName == if end != Some(SaveFailed) && Completion(lines).Some?
                                      then Some(Completion(lines).value.0) else w.actualJobName
      ensures Settled(w) == Settled(Scanned(r, lines)) && wrote == old(wrote) + [Wrote(w, end != Some(SaveFailed))]
      ensures asked == old(asked) + CheckAsks(r.(runnerName := o.runner), o.check)
                       + (if end != Some(SaveFailed) && LooksUp(r, lines)
                          then [OfJob(r.repository, ParseU64(r.jobId).value, o.job)] else [])
      ensures (o.check.Some? ==> o.runner.Some?)
              && (o.job.Some? ==> end != Some(SaveFailed) && LooksUp(r, lines))
      ensures end == Some(Finished) ==> Accepts(record.diverged, o)
      ensures end == Some(Rejected) ==> Ends(o) && !Accepts(record.diverged, o)
      ensures end.None? ==> !Ends(o)
      ensures end == Some(BadJobId) ==> ParseU64(r.jobId).None? && !Ends(o)
      ensures end == Some(SaveFailed) ==> !reconciler.allSaved
      ensures end.Some? ==>
                end.value == Finished || end.value == Rejected || end.value == SaveFailed || end.value == BadJobId
    {
      var completion, exited, ok;
      record, o, completion, exited, ok := Look(r, lines);
      w := record;
      if !ok {
        return record, o, Some(SaveFailed), w;
      }
      record, o, end := Decide(record, o, completion, exited);
    }

    /** The first half of a turn: the log's lines, the divergence check, the save. */
    method Look(r: CiJobRecord, lines: seq<string>)
        returns (record: CiJobRecord, o: Round, completion: Option<(string, string)>, exited: bool, ok: bool)
      requires Live(r)
      modifies this`clock, this`asked, this`wrote, reconciler
      ensures completion == Completion(lines) && exited == Quit(lines)
      ensures SameJob(r, record) && Live(record) && StaysListed(r.jobId)
      ensures o.lines == lines && o.job.None? && o.at == old(clock) <= clock
      ensures record.runnerName == o.runner == Or(Last(ParseRunnerRegistered, lines), r.runnerName)
      ensures record.diverged == if o.check.Some? then OtherJob(r.jobId, o.check)
                                 else r.diverged || Strays(r.dispatchedJobName, lines)
      ensures Settled(record) == Settled(Scanned(r, lines)) && wrote == old(wrote) + [Wrote(record, ok)]
      ensures asked == old(asked) + CheckAsks(r.(runnerName := o.runner), o.check)
      ensures o.check.Some? ==> o.runner.Some?
      ensures !ok ==> !reconciler.allSaved
    {
      var check;
      var at := clock;
      record, completion, exited := Scan(r, lines);
      record, check := Check(record);
      o := Round(at, lines, record.runnerName, check, None);
      ok := Save(record);
    }

    /** How a turn decides: by the log's completion line, by the runner's exit, and else by
        GitHub's answer about the job. */
    method Decide(r: CiJobRecord, read: Round, completion: Option<(string, string)>, exited: bool)
        returns (record: CiJobRecord, o: Round, end: Option<End>)
      requires completion == Completion(read.lines) && exited == Quit(read.lines)
      requires read.job.None? && read.runner == r.runnerName
      modifies this`clock, this`asked
      ensures clock >= old(clock) && o == read.(job := o.job) && (o.job.Some? ==> LooksUp(r, o.lines))
      ensures record == r.(actualJobName := record.actualJobName, diverged := r.diverged || OtherRunner(o))
      ensures record.actualJobName == if completion.Some? then Some(completion.value.0) else r.actualJobName
      ensures asked == old(asked) + (if LooksUp(r, o.lines) then [OfJob(r.repository, ParseU64(r.jobId).value, o.job)]
                                     else [])
      ensures end == Some(Finished) ==> Accepts(record.diverged, o)
      ensures end == Some(Rejected) ==> Ends(o) && !Accepts(record.diverged, o)
      ensures end.None? ==> !Ends(o)
      ensures end == Some(BadJobId) ==> ParseU64(r.jobId).None? && !Ends(o)
      ensures end.Some? ==> (end.value == Finished || end.value == Rejected || end.value == BadJobId)
    {
      record, o := r, read;
      if completion.Some? {
        record := record.(actualJobName := Some(completion.value.0));
        return record, o, Some(if record.diverged || Success(completion.value.1) then Finished else Rejected);
      }
      if exited {
        return record, o, Some(if record.diverged then Finished else Rejected);
      }
      if ParseU64(record.jobId).None? {
        return record, o, Some(BadJobId);
      }
      var job := AskJob(record, ParseU64(record.jobId).value);
      o := o.(job := job);
      if job.Some? {
        if job.value.runnerName.Some? && record.runnerName.Some? && job.value.runnerName != record.runnerName {
          record := record.(diverged := true);
        }
        if job.value.completed {
          return record, o, Some(if record.diverged || job.value.conclusion == Some("success") then Finished
                                 else Rejected);
        }
      }
      end := None;
    }

    /** `read_runner_log`. */
    method ReadLog() returns (log: Option<string>)
      modifies this`clock, this`logs
      ensures clock >= old(clock) && logs == old(logs) + [log]
    {
      Elapse(0);
      log := *;
      logs := logs + [log];
    }

    /** One turn of the waiting loop after a successful log read: one divergence check if a
        runner is known, one save, and one more in phase Running when the runner listens. */
    method ObserveWaiting(r: CiJobRecord, lines: seq<string>)
        returns (record: CiJobRecord, o: Round, listening: bool, end: Option<End>, ghost saves: seq<Wrote>)
      requires Live(r)
      modifies this`clock, this`asked, this`wrote, reconciler
      ensures o.at == old(clock) <= clock
      ensures SameJob(r, record) && Live(record) && o.lines == lines && listening == Listens(lines)
      ensures StaysListed(r.jobId)
      ensures record.diverged ==> r.diverged || ShowsDivergence(r, o)
      ensures asked == old(asked) + CheckAsks(r.(runnerName := o.runner), o.check)
      ensures o.job.None? && (o.check.Some? ==> o.runner.Some?)
      ensures o.runner == Or(Last(ParseRunnerRegistered, lines), r.runnerName) == record.runnerName
      ensures wrote == old(wrote) + saves && 1 <= |saves| <= 2
      ensures |saves| == 2 <==> saves[0].ok && listening
      ensures |saves| == 2 ==>
                saves[1] == Wrote(record, end.None?) && record.phase == Running && end in {None, Some(SaveFailed)}
      ensures saves[0].ok && !listening ==> end == if Quit(lines) then Some(ExitedEarly) else None
      ensures !saves[0].ok ==> end == Some(SaveFailed)
      ensures end == Some(SaveFailed) ==> !reconciler.allSaved && SaveFailedLast(old(wrote), wrote)
      ensures end == Some(ExitedEarly) ==> Quit(lines) && !listening
      ensures listening && end.None? ==> LastWrote(wrote, Wrote(record, true))
      ensures end.Some? ==> end.value == SaveFailed || end.value == ExitedEarly
    {
      var exited, check;
      var at := clock;
      record, listening, exited := ScanWaiting(r, lines);
      record, check := Check(record);
      o, end := Round(at, lines, record.runnerName, check, None), None;
      var ok := Save(record);
      saves := [Wrote(record, ok)];
      if !ok {
        return record, o, listening, Some(SaveFailed), saves;
      }
      if listening {
        record := record.(phase := Running);
        ok := Save(record);
        return record, o, listening, if ok then None else Some(SaveFailed), saves + [Wrote(record, ok)];
      }
      if exited {
        end := Some(ExitedEarly);
      }
    }

    /** The first loop of `monitor_runner`: wait until the runner listens, reading the log once
        before every sleep. `t` is the clock reading that let the last turn begin, or that
        found the timeout over. */
    method AwaitListening(r: CiJobRecord, timeout: nat)
        returns (record: CiJobRecord, end: Option<End>, seen: seq<Round>, t: int)
      modifies this`clock, this`logs, this`slept, this`asked, this`wrote, reconciler
      ensures SameJob(r, record) && Live(record)
      ensures StaysListed(r.jobId)
      ensures record.diverged ==> r.diverged || SomeShow(r, seen)
      ensures old(wrote) < wrote && wrote[|old(wrote)|].record == r.(phase := WaitingRunner)
      ensures Backed(r, old(logs), logs, old(asked), asked, seen) && Paced(old(logs), logs, slept - old(slept))
      ensures clock >= old(clock) && (seen != [] ==> old(clock) <= seen[0].at)
      ensures Awaited(record, end, seen, old(clock), timeout, t, clock, old(wrote), wrote)
      ensures end == Some(SaveFailed) ==> !reconciler.allSaved
    {
      var deadline := clock + timeout;
      t, seen, end := clock, [], None;
      record := r.(phase := WaitingRunner);
      var ok := Save(record);
      if !ok {
        return record, Some(SaveFailed), seen, t;
      }
      record, end, seen, t := AwaitTurns(r, record, deadline, t);
    }

    /** The loop itself, from its entry on. */
    method AwaitTurns(r: CiJobRecord, saved: CiJobRecord, deadline: int, ghost entered: int)
        returns (record: CiJobRecord, end: Option<End>, seen: seq<Round>, t: int)
      requires Waiting(r, saved, [], entered) && entered <= clock && entered <= deadline
      modifies this`clock, this`logs, this`slept, this`asked, this`wrote, reconciler
      ensures SameJob(r, record) && Live(record) && StaysListed(r.jobId) && old(wrote) <= wrote
      ensures record.diverged ==> r.diverged || SomeShow(r, seen)
      ensures Backed(r, old(logs), logs, old(asked), asked, seen) && Paced(old(logs), logs, slept - old(slept))
      ensures clock >= old(clock) && (seen != [] ==> entered <= seen[0].at)
      ensures Awaited(record, end, seen, entered, deadline - entered, t, clock, old(wrote), wrote)
      ensures end == Some(SaveFailed) ==> !reconciler.allSaved
    {
      record, seen, end := saved, [], None;
      while true
        invariant Waiting(r, record, seen, entered) && Backed(r, old(logs), logs, old(asked), asked, seen)
        invariant StaysListed(r.jobId) && clock >= old(clock) && old(wrote) <= wrote
        invariant slept - old(slept) == 3 * (|logs| - |old(logs)|)
        decreases deadline - clock
      {
        t := clock;
        if t >= deadline {
          AwaitedTooLong(record, seen, entered, deadline - entered, t, clock, old(wrote), wrote);
          return record, Some(NeverListened), seen, t;
        }
        var stop;
        ghost var before := wrote;
        record, seen, stop, end := WaitTurn(r, record, seen, entered, old(logs), old(asked));
        if stop {
          AwaitedInTime(record, end, seen, entered, deadline - entered, t, clock, old(wrote), before, wrote);
          return record, end, seen, t;
        }
        Sleep(3);
      }
    }

    /** One turn of the waiting loop but for its sleep: `stop` when the runner listens or the
        loop has failed. */
    method WaitTurn(r: CiJobRecord, before: CiJobRecord, seen0: seq<Round>, ghost entered: int,
                    ghost logs0: seq<Option<string>>, ghost asked0: seq<Question>)
        returns (record: CiJobRecord, seen: seq<Round>, stop: bool, end: Option<End>)
      requires Waiting(r, before, seen0, entered) && Backed(r, logs0, logs, asked0, asked, seen0) && entered <= clock
      modifies this`clock, this`logs, this`asked, this`wrote, reconciler
      ensures SameJob(r, record) && Live(record) && StaysListed(r.jobId)
      ensures record.diverged ==> r.diverged || SomeShow(r, seen)
      ensures Backed(r, logs0, logs, asked0, asked, seen) && |logs| == |old(logs)| + 1
      ensures clock >= old(clock) && (seen != [] ==> entered <= seen[0].at) && old(wrote) <= wrote
      ensures seen0 <= seen && |seen| <= |seen0| + 1
      ensures !stop ==> Waiting(r, record, seen, entered) && end.None?
      ensures stop ==> |seen| == |seen0| + 1 && AllButLast(seen) == seen0 && old(clock) <= seen[|seen| - 1].at <= clock
      ensures stop ==> StillWaits(AllButLast(seen))
      ensures stop && end.None? ==>
                Listens(seen[|seen| - 1].lines) && record.phase == Running && LastWrote(wrote, Wrote(record, true))
      ensures end == Some(ExitedEarly) ==> Quit(seen[|seen| - 1].lines) && !Listens(seen[|seen| - 1].lines)
      ensures end == Some(SaveFailed) ==> !reconciler.allSaved && SaveFailedLast(old(wrote), wrote)
      ensures end.Some? ==> stop && (end.value == SaveFailed || end.value == ExitedEarly)
    {
      record, seen, stop, end := before, seen0, false, None;
      var log := ReadLog();
      if log.None? {
        NotRead(r, logs0, old(logs), asked0, asked, seen0);
        return;
      }
      var o, listening;
      ghost var saves;
      record, o, listening, end, saves := ObserveWaiting(before, Lines(log.value));
      OneMoreWait(r, before, seen0, entered, record, o);
      AnsweredWhenAsked(before, old(asked), asked, o, false);
      OneMoreBacked(r, before, logs0, old(logs), asked0, old(asked), asked, seen0, log.value, o);
      seen := seen0 + [o];
      stop := listening || end.Some?;
      OneMoreSeen(seen0, o);
    }

    /** Renew the sandbox's lease if it is due, and note when. */
    method Renew(r: CiJobRecord, due: int, lease: nat) returns (record: CiJobRecord, end: Option<End>, next: int)
      requires Live(r)
      modifies this`clock, this`wrote, this`leases, this`renewals, reconciler
      ensures SameJob(r, record) && record == r.(leaseExpiresAt := record.leaseExpiresAt)
      ensures leases == old(leases) + if due > old(clock) then []
                                      else [if end == Some(RenewFailed) then None else Some(record.leaseExpiresAt)]
      ensures StaysListed(r.jobId) && clock >= old(clock) && old(wrote) <= wrote
      ensures due > old(clock) ==>
                end.None? && next == due && renewals == old(renewals) && wrote == old(wrote) && record == r
      ensures due <= old(clock) && end.None? ==>
                && renewals == old(renewals) + [clock] && next == clock + Pause(lease)
                && wrote == old(wrote) + [Wrote(record, true)]
      ensures end.Some? ==>
                renewals == old(renewals) && (end.value == SaveFailed || end.value == RenewFailed) && due <= old(clock)
      ensures end == Some(SaveFailed) ==> SaveFailedLast(old(wrote), wrote)
      ensures end == Some(RenewFailed) ==> RefusedLast(old(leases), leases)
      ensures old(leases) <= leases && old(renewals) <= renewals
    {
      record, end, next := r, None, due;
      if clock >= due {
        var renewed := AskLease();
        if !renewed.Some? {
          return record, Some(RenewFailed), next;
        }
        record := record.(leaseExpiresAt := renewed.value);
        var ok := Save(record);
        if !ok {
          return record, Some(SaveFailed), next;
        }
        next := clock + (if lease / 3 > 30 then lease / 3 else 30);
        renewals := renewals + [clock];
      }
    }

    /** `ops.renew`: the new lease, or no answer. */
    method AskLease() returns (renewed: Option<Option<string>>)
      modifies this`clock, this`leases
      ensures clock >= old(clock) && leases == old(leases) + [renewed]
    {
      Elapse(0);
      renewed := *;
      leases := leases + [renewed];
    }

    /** A whole turn: decide, and if the job goes on, see to the lease. */
    method Turn(r: CiJobRecord, lines: seq<string>, due: int, lease: nat)
        returns (record: CiJobRecord, o: Round, end: Option<End>, next: int)
      requires Live(r)
      modifies this`clock, this`asked, this`wrote, this`leases, this`renewals, reconciler
      ensures SameJob(r, record) && Live(record)
      ensures StaysListed(r.jobId) && o.at == old(clock) <= clock && o.lines == lines
      ensures record.diverged ==> r.diverged || ShowsDivergence(r, o)
      ensures Inquires(r, old(asked), asked, o, end) && Answered(r, old(asked), asked, o)
      ensures end == Some(Finished) ==> Accepts(record.diverged, o)
      ensures end == Some(Rejected) ==> Ends(o) && !Accepts(record.diverged, o)
      ensures end.None? ==> !Ends(o)
      ensures end.None? ==> if renewals == old(renewals) then next == due > o.at
                            else renewals == old(renewals) + [clock] && next == clock + Pause(lease)
      ensures old(renewals) <= renewals && old(wrote) <= wrote && old(leases) <= leases
      ensures end.Some? ==> TurnEnds(r, end.value, old(wrote), wrote, old(leases), leases)
    {
      ghost var w;
      record, o, end, w := Observe(r, lines);
      AnsweredWhenAsked(r, old(asked), asked, o, end != Some(SaveFailed) && LooksUp(r, lines));
      InquiresWhenAsked(r, old(asked), asked, o, end, end != Some(SaveFailed) && LooksUp(r, lines));
      if record.diverged {
        DivergenceIsShown(r, o);
      }
      next := due;
      if end.None? {
        record, end, next := Renew(record, due, lease);
      }
    }

    /** The second loop: watch the job until it ends or the timeout is over, reading the log
        once before every sleep and renewing the lease in time; `t` is the clock reading that
        decided. */
    method WatchJob(r: CiJobRecord, timeout: nat, lease: nat)
        returns (record: CiJobRecord, end: End, seen: seq<Round>, t: int)
      requires Live(r)
      modifies this`clock, this`logs, this`slept, this`asked, this`wrote, this`leases, this`renewals, reconciler
      ensures SameJob(r, record) && Live(record)
      ensures StaysListed(r.jobId)
      ensures record.diverged ==> r.diverged || SomeShow(r, seen)
      ensures seen != [] ==> old(clock) <= seen[0].at
      ensures Backed(r, old(logs), logs, old(asked), asked, seen) && Paced(old(logs), logs, slept - old(slept))
      ensures old(renewals) <= renewals && KeptAlive(renewals, |old(renewals)|, seen, |seen| - 1, Pause(lease))
      ensures NoneEnds(AllButLast(seen))
      ensures Watched(r, record, end, seen, old(clock), timeout, t, clock, old(wrote), wrote, old(leases), leases)
    {
      var deadline := clock + timeout;
      record, seen := r, [];
      var nextRenew := clock;
      t := clock;
      while t < deadline
        invariant Undecided(r, record, seen, old(clock)) && Backed(r, old(logs), logs, old(asked), asked, seen)
        invariant StaysListed(r.jobId) && old(clock) <= t <= clock && old(wrote) <= wrote && old(leases) <= leases
        invariant slept - old(slept) == 3 * (|logs| - |old(logs)|)
        invariant LeaseKept(old(renewals), renewals, seen, old(clock), nextRenew, Pause(lease))
        decreases deadline - t
      {
        var stop;
        ghost var wrote1, leases1 := wrote, leases;
        record, seen, nextRenew, stop :=
          JobTurn(r, record, seen, nextRenew, lease, old(clock), old(logs), old(asked), old(renewals));
        if stop == Some(Finished) {
          t := clock;
          return record, if t >= deadline then TimedOut else Finished, seen, t;
        }
        if stop.Some? {
          TurnEndsSince(r, stop.value, old(wrote), wrote1, wrote, old(leases), leases1, leases);
          return record, stop.value, seen, t;
        }
        Sleep(3);
        t := clock;
      }
      NoneEndsBefore(seen);
      end := TimedOut;
    }

    /** One turn of the job loop but for its sleep. */
    method JobTurn(r: CiJobRecord, before: CiJobRecord, seen0: seq<Round>, due: int, lease: nat,
                   ghost entered: int, ghost logs0: seq<Option<string>>, ghost asked0: seq<Question>,
                   ghost renewals0: seq<int>)
        returns (record: CiJobRecord, seen: seq<Round>, next: int, stop: Option<End>)
      requires Undecided(r, before, seen0, entered) && Backed(r, logs0, logs, asked0, asked, seen0) && entered <= clock
      requires LeaseKept(renewals0, renewals, seen0, entered, due, Pause(lease))
      modifies this`clock, this`logs, this`asked, this`wrote, this`leases, this`renewals, reconciler
      ensures SameJob(r, record) && Live(record) && StaysListed(r.jobId)
      ensures record.diverged ==> r.diverged || SomeShow(r, seen)
      ensures Backed(r, logs0, logs, asked0, asked, seen) && |logs| == |old(logs)| + 1
      ensures clock >= old(clock) && (seen != [] ==> entered <= seen[0].at)
      ensures seen0 <= seen && |seen| <= |seen0| + 1 && old(wrote) <= wrote && old(leases) <= leases
      ensures stop.None? ==>
                Undecided(r, record, seen, entered)
                && LeaseKept(renewals0, renewals, seen, entered, next, Pause(lease))
      ensures stop.Some? ==>
                && |seen| == |seen0| + 1 && AllButLast(seen) == seen0 && seen[|seen| - 1].at <= clock
                && renewals0 <= renewals && KeptAlive(renewals, |renewals0|, seen, |seen0|, Pause(lease))
                && TurnEnds(r, stop.value, old(wrote), wrote, old(leases), leases)
                && (stop == Some(Finished) ==> Accepts(record.diverged, seen[|seen| - 1]))
                && (stop == Some(Rejected) ==> Ends(seen[|seen| - 1]) && !Accepts(record.diverged, seen[|seen| - 1]))
    {
      record, seen, next, stop := before, seen0, due, None;
      var log := ReadLog();
      if log.None? {
        NotRead(r, logs0, old(logs), asked0, asked, seen0);
        return;
      }
      var o;
      record, o, stop, next := Turn(before, Lines(log.value), due, lease);
      OneMoreRound(r, before, seen0, entered, record, o);
      OneMoreBacked(r, before, logs0, old(logs), asked0, old(asked), asked, seen0, log.value, o);
      if stop.None? {
        LeaseKeptOn(renewals0, old(renewals), renewals, seen0, entered, due, o, next, clock, Pause(lease));
      } else {
        StillAlive(old(renewals), renewals, |renewals0|, seen0, o, Pause(lease));
      }
      seen := seen0 + [o];
      OneMoreSeen(seen0, o);
    }

    /** `monitor_runner`. */
    method Monitor(r: CiJobRecord, waitTimeout: nat, jobTimeout: nat, lease: nat)
        returns (record: CiJobRecord, end: End, seen: seq<Round>, w: Times)
      modifies this`clock, this`logs, this`slept, this`asked, this`wrote, this`leases, this`renewals,
               this`monitors, reconciler
      ensures SameJob(r, record) && monitors == old(monitors) + 1
      ensures StaysListed(r.jobId) && w.entered == old(clock)
      ensures Backed(r, old(logs), logs, old(asked), asked, seen)
      ensures Grounds(r, end, seen, w, waitTimeout, jobTimeout, clock, SaveFailedLast(old(wrote), wrote),
                      RefusedLast(old(leases), leases), false)
      ensures end == Finished ==> r.sandboxId.Some? && LeaseHeld(old(renewals), renewals, seen, w, lease)
    {
      monitors := monitors + 1;
      seen, w := [], Times(clock, clock, 0, clock, clock);
      if r.sandboxId.None? {
        return r, NoSandbox, seen, w;
      }
      var waited, early, listened;
      record, waited, early, listened := AwaitListening(r, waitTimeout);
      if waited.Some? {
        GroundsWhenAwaited(r, record, waited.value, early, w, waitTimeout, jobTimeout, listened, clock,
                           old(wrote), wrote, RefusedLast(old(leases), leases));
        return record, waited.value, early, w;
      }
      ghost var joined, logs1, asked1, wrote1 := record, logs, asked, wrote;
      w := w.(listened := listened, waits := |early|, start := clock);
      var decided;
      record, end, seen, decided := WatchJob(record, jobTimeout, lease);
      w := w.(decided := decided);
      BackedJoin(r, joined, old(logs), logs1, logs, old(asked), asked1, asked, early, seen);
      GroundsWhenWatched(r, early, joined, seen, record, end, w, waitTimeout, jobTimeout, clock,
                         old(wrote), wrote1, wrote, old(leases), leases);
      LeaseHeldWhen(old(renewals), renewals, early, seen, w, lease);
      seen := early + seen;
    }

    /** The monitor of a job that began as `first`. */
    method MonitorFor(ghost first: CiJobRecord, r: CiJobRecord, waitTimeout: nat, jobTimeout: nat, lease: nat)
        returns (record: CiJobRecord, end: End, seen: seq<Round>, w: Times)
      requires SameJob(first, r) && first.diverged == r.diverged
      modifies this`clock, this`logs, this`slept, this`asked, this`wrote, this`leases, this`renewals,
               this`monitors, reconciler
      ensures SameJob(first, record) && monitors == old(monitors) + 1
      ensures StaysListed(first.jobId) && w.entered == old(clock)
      ensures Backed(first, old(logs), logs, old(asked), asked, seen)
      ensures Grounds(first, end, seen, w, waitTimeout, jobTimeout, clock, SaveFailedLast(old(wrote), wrote),
                      RefusedLast(old(leases), leases), false)
      ensures end == Finished ==> first.sandboxId.Some? && LeaseHeld(old(renewals), renewals, seen, w, lease)
    {
      record, end, seen, w := Monitor(r, waitTimeout, jobTimeout, lease);
      GroundsAlike(first, r, end, seen, w, waitTimeout, jobTimeout, clock, SaveFailedLast(old(wrote), wrote),
                   RefusedLast(old(leases), leases), false);
      BackedAlike(first, r, old(logs), logs, old(asked), asked, seen);
    }

    /** `provision_runner`: save, script, save the name that the script's output reports, start
        the runner; the first failure ends it. */
    method Provision(r: CiJobRecord) returns (record: CiJobRecord, end: Option<End>, output: Option<string>)
      modifies this`clock, this`wrote, this`scripts, this`starts, this`provisioned, reconciler
      ensures clock >= old(clock) && provisioned == old(provisioned) + [end]
      ensures SameJob(r, record) && record.diverged == r.diverged
      ensures StaysListed(r.jobId)
      ensures r.sandboxId.Some? ==> old(wrote) < wrote && wrote[|old(wrote)|].record == r.(phase := Provisioning)
      ensures end.None? ==>
                && r.sandboxId.Some? && output.Some?
                && scripts == old(scripts) + [Script(output, |old(wrote)| + 1)]
                && starts == old(starts) + [Start(true, |old(wrote)| + 2)]
                && FirstRegistered(Lines(output.value), record.runnerName)
                && record == r.(phase := Provisioning, runnerName := record.runnerName)
                && wrote == old(wrote) + [Wrote(r.(phase := Provisioning), true), Wrote(record, true)]
                && r.jobId in reconciler.disk && reconciler.disk[r.jobId] == record
      ensures end == Some(NoSandbox) <==> r.sandboxId.None?
      ensures end == Some(SaveFailed) ==> !reconciler.allSaved && SaveFailedLast(old(wrote), wrote)
      ensures end == Some(NotProvisioned) ==> NotBegun(old(scripts), scripts, old(starts), starts)
      ensures end.Some? ==> (end.value == NoSandbox || end.value == SaveFailed || end.value == NotProvisioned)
      ensures old(wrote) <= wrote
    {
      record, end, output := ProvisionSteps(r);
      provisioned := provisioned + [end];
    }

    method ProvisionSteps(r: CiJobRecord) returns (record: CiJobRecord, end: Option<End>, output: Option<string>)
      modifies this`clock, this`wrote, this`scripts, this`starts, reconciler
      ensures clock >= old(clock)
      ensures SameJob(r, record) && record.diverged == r.diverged
      ensures StaysListed(r.jobId)
      ensures r.sandboxId.Some? ==> old(wrote) < wrote && wrote[|old(wrote)|].record == r.(phase := Provisioning)
      ensures end.None? ==>
                && r.sandboxId.Some? && output.Some?
                && scripts == old(scripts) + [Script(output, |old(wrote)| + 1)]
                && starts == old(starts) + [Start(true, |old(wrote)| + 2)]
                && FirstRegistered(Lines(output.value), record.runnerName)
                && record == r.(phase := Provisioning, runnerName := record.runnerName)
                && wrote == old(wrote) + [Wrote(r.(phase := Provisioning), true), Wrote(record, true)]
                && r.jobId in reconciler.disk && reconciler.disk[r.jobId] == record
      ensures end == Some(NoSandbox) <==> r.sandboxId.None?
      ensures end == Some(SaveFailed) ==> !reconciler.allSaved && SaveFailedLast(old(wrote), wrote)
      ensures end == Some(NotProvisioned) ==> NotBegun(old(scripts), scripts, old(starts), starts)
      ensures end.Some? ==> (end.value == NoSandbox || end.value == SaveFailed || end.value == NotProvisioned)
      ensures old(wrote) <= wrote
    {
      record, output := r, None;
      if r.sandboxId.None? {
        return record, Some(NoSandbox), output;
      }
      record := record.(phase := Provisioning);
      var ok := Save(record);
      if !ok {
        return record, Some(SaveFailed), output;
      }
      output := RunScript();
      record, end := NameAndStart(record, output);
    }

    /** The script's output names the runner; the name is saved and the runner started. */
    method NameAndStart(r: CiJobRecord, output: Option<string>) returns (record: CiJobRecord, end: Option<End>)
      requires Live(r)
      modifies this`clock, this`wrote, this`starts, reconciler
      ensures clock >= old(clock) && StaysListed(r.jobId) && old(wrote) <= wrote
      ensures record == r.(runnerName := record.runnerName)
      ensures end.None? ==>
                && output.Some? && FirstRegistered(Lines(output.value), record.runnerName)
                && starts == old(starts) + [Start(true, |old(wrote)| + 1)]
                && wrote == old(wrote) + [Wrote(record, true)]
                && r.jobId in reconciler.disk && reconciler.disk[r.jobId] == record
      ensures end == Some(SaveFailed) ==> !reconciler.allSaved && SaveFailedLast(old(wrote), wrote)
      ensures end == Some(NotProvisioned) ==>
                || output.None? || NothingRegistered(Lines(output.value))
                || StartFailed(old(starts), starts)
      ensures end.Some? ==> (end.value == SaveFailed || end.value == NotProvisioned)
    {
      record := r;
      var name := NameIn(output);
      if name.None? {
        return record, Some(NotProvisioned);
      }
      record := record.(runnerName := name);
      var ok := Save(record);
      if !ok {
        return record, Some(SaveFailed);
      }
      var started := StartRunner();
      end := if started then None else Some(NotProvisioned);
    }

    method NameIn(output: Option<string>) returns (name: Option<string>)
      ensures name.None? <==> output.None? || NothingRegistered(Lines(output.value))
      ensures name.Some? ==> FirstRegistered(Lines(output.value), name)
    {
      name := None;
      if output.Some? {
        FirstMeans(Lines(output.value));
        name := First(ParseRunnerRegistered, Lines(output.value));
      }
    }

    method RunScript() returns (output: Option<string>)
      modifies this`clock, this`scripts
      ensures clock >= old(clock) && scripts == old(scripts) + [Script(output, |wrote|)]
    {
      Elapse(0);
      output := *;
      scripts := scripts + [Script(output, |wrote|)];
    }

    method StartRunner() returns (ok: bool)
      modifies this`clock, this`starts
      ensures clock >= old(clock) && starts == old(starts) + [Start(ok, |wrote|)]
    {
      Elapse(0);
      ok := *;
      starts := starts + [Start(ok, |wrote|)];
    }

    /** `cleanup_runner`. */
    method CleanUp(r: CiJobRecord, at: Answers) returns (record: CiJobRecord, end: Cleanup)
      modifies this`vms, this`clock, this`wrote, this`steps, reconciler
      ensures end == EndOf(r.sandboxId, at)
      ensures steps == old(steps) + StepsOf(r, at, old(vms), vms, old(reconciler.disk))
      ensures reconciler.allSaved <==> old(reconciler.allSaved) && end != NotStarted && end != NotNoted
      ensures record.jobId == r.jobId && record.sandboxId == r.sandboxId
      ensures r.sandboxId.None? ==> record == r && vms == old(vms)
      ensures r.sandboxId.Some? ==>
                vms == if at.starts && TakesVm(at) then old(vms) - {r.sandboxId.value} else old(vms)
      ensures end == Removed ==> reconciler.disk == old(reconciler.disk) - {r.jobId}
      ensures end == NotStarted || (end == DeleteFailed && r.sandboxId.None?) ==>
                reconciler.disk == old(reconciler.disk)
      ensures end.Kept? || (end == DeleteFailed && r.sandboxId.Some?) ==>
                reconciler.disk == old(reconciler.disk)[r.jobId := record] && record.phase == Cleaning
      ensures record.lastError == if end.Kept? || end == NotNoted then Some(CleanupError(at)) else r.lastError
      ensures end == NotNoted ==>
                && record.phase == Cleaning
                && reconciler.disk == old(reconciler.disk)[r.jobId := record.(lastError := r.lastError)]
    {
      record := r;
      if r.sandboxId.None? {
        Delete(r.jobId, at.deletes);
        return record, if at.deletes then Removed else DeleteFailed;
      }
      record := record.(phase := Cleaning);
      SaveAs(record, at.starts);
      if !at.starts {
        return record, NotStarted;
      }
      Scrub();
      Destroy(r.sandboxId.value, at);
      if at.scrub.None? && !at.destroy.Other? {
        Delete(r.jobId, at.deletes);
        return record, if at.deletes then Removed else DeleteFailed;
      }
      var error := CleanupError(at);
      record := record.(lastError := Some(error));
      SaveAs(record, at.notes);
      end := if at.notes then Kept(error) else NotNoted;
    }

    method Scrub()
      modifies this`clock, this`steps
      ensures steps == old(steps) + [Step(Scrubs, vms, reconciler.disk)]
    {
      Elapse(0);
      steps := steps + [Step(Scrubs, vms, reconciler.disk)];
    }

    /** Look whether a runner has registered already. */
    method NeedsRunner(r: CiJobRecord) returns (needed: bool)
      modifies this`clock, this`logs
      ensures clock >= old(clock)
      ensures Looked(r, old(logs), logs) && needed == Unregistered(r, old(logs), logs)
    {
      needed := true;
      if r.sandboxId.Some? {
        var log := ReadLog();
        if log.Some? {
          FirstMeans(Lines(log.value));
          needed := First(ParseRunnerRegistered, Lines(log.value)).None?;
        }
      }
    }

    /** Provision a runner if the log does not show one. */
    method Prepare(r: CiJobRecord) returns (record: CiJobRecord, end: Option<End>)
      modifies this`clock, this`logs, this`wrote, this`scripts, this`starts, this`provisioned, reconciler
      ensures SameJob(r, record) && record.diverged == r.diverged
      ensures StaysListed(r.jobId) && clock >= old(clock) && old(wrote) <= wrote
      ensures Looked(r, old(logs), logs)
      ensures if Unregistered(r, old(logs), logs) then provisioned == old(provisioned) + [end]
              else provisioned == old(provisioned) && end.None?
      ensures end.Some? ==> end.value == NoSandbox || end.value == SaveFailed || end.value == NotProvisioned
      ensures end == Some(NoSandbox) <==> r.sandboxId.None?
      ensures end == Some(SaveFailed) ==> SaveFailedLast(old(wrote), wrote)
      ensures end == Some(NotProvisioned) ==> NotBegun(old(scripts), scripts, old(starts), starts)
    {
      record, end := r, None;
      var needed := NeedsRunner(r);
      if needed {
        var output;
        record, end, output := Provision(record);
      }
    }

    /** Everything in front of the cleanup. The runner is provisioned exactly if the log could
        not be read or shows no registration, and the job is monitored exactly if it is not
        provisioned or provisioning went well. */
    method RunPrimary(r: CiJobRecord, waitTimeout: nat, jobTimeout: nat, lease: nat)
        returns (record: CiJobRecord, primary: End, seen: seq<Round>, w: Times)
      modifies this`clock, this`logs, this`slept, this`asked, this`wrote, this`leases, this`renewals,
               this`scripts, this`starts, this`provisioned, this`monitors, this`primaries, reconciler
      ensures SameJob(r, record) && StaysListed(r.jobId) && primaries == old(primaries) + [primary]
      ensures Began(r, old(logs), logs, old(provisioned), provisioned, old(monitors), monitors, primary)
      ensures old(clock) <= w.entered
      ensures primary == Finished ==> r.sandboxId.Some? && LeaseHeld(old(renewals), renewals, seen, w, lease)
      ensures Backed(r, if r.sandboxId.Some? then logs[..|old(logs)| + 1] else old(logs), logs, old(asked), asked, seen)
      ensures Grounds(r, primary, seen, w, waitTimeout, jobTimeout, clock, SaveFailedLast(old(wrote), wrote),
                      RefusedLast(old(leases), leases), NotBegun(old(scripts), scripts, old(starts), starts))
    {
      var prepared;
      ghost var looked;
      record, primary, seen, w, prepared, looked := PrimarySteps(r, waitTimeout, jobTimeout, lease);
      BeganWhen(r, old(logs), looked, logs, old(provisioned), provisioned, old(monitors), monitors, prepared, primary);
      primaries := primaries + [primary];
    }

    /** Its two steps; `looked` are the log reads after the first look. */
    method PrimarySteps(r: CiJobRecord, waitTimeout: nat, jobTimeout: nat, lease: nat)
        returns (record: CiJobRecord, primary: End, seen: seq<Round>, w: Times,
                 prepared: Option<End>, ghost looked: seq<Option<string>>)
      modifies this`clock, this`logs, this`slept, this`asked, this`wrote, this`leases, this`renewals,
               this`scripts, this`starts, this`provisioned, this`monitors, reconciler
      ensures SameJob(r, record) && StaysListed(r.jobId)
      ensures Looked(r, old(logs), looked) && looked <= logs
      ensures if Unregistered(r, old(logs), looked) then provisioned == old(provisioned) + [prepared]
              else provisioned == old(provisioned) && prepared.None?
      ensures if prepared.None? then monitors == old(monitors) + 1
              else monitors == old(monitors) && primary == prepared.value
      ensures old(clock) <= w.entered
      ensures primary == Finished ==> r.sandboxId.Some? && LeaseHeld(old(renewals), renewals, seen, w, lease)
      ensures Backed(r, looked, logs, old(asked), asked, seen)
      ensures Grounds(r, primary, seen, w, waitTimeout, jobTimeout, clock, SaveFailedLast(old(wrote), wrote),
                      RefusedLast(old(leases), leases), NotBegun(old(scripts), scripts, old(starts), starts))
    {
      seen, w := [], Times(clock, clock, 0, clock, clock);
      record, prepared := Prepare(r);
      looked := logs;
      if prepared.Some? {
        primary := prepared.value;
        NotPrepared(r, primary, w, waitTimeout, jobTimeout, clock, SaveFailedLast(old(wrote), wrote),
                    RefusedLast(old(leases), leases), NotBegun(old(scripts), scripts, old(starts), starts),
                    logs, asked);
        return;
      }
      ghost var wrote1 := wrote;
      record, primary, seen, w := MonitorFor(r, record, waitTimeout, jobTimeout, lease);
      GroundsStill(r, primary, seen, w, waitTimeout, jobTimeout, clock, old(wrote), wrote1, wrote,
                   RefusedLast(old(leases), leases), NotBegun(old(scripts), scripts, old(starts), starts));
    }

    /** The primary part, and the best-effort note of how it ended. */
    method RunAndNote(r: CiJobRecord, waitTimeout: nat, jobTimeout: nat, lease: nat)
        returns (record: CiJobRecord, primary: End, seen: seq<Round>, w: Times)
      modifies this`clock, this`logs, this`slept, this`asked, this`wrote, this`leases, this`renewals,
               this`scripts, this`starts, this`provisioned, this`monitors, this`primaries, reconciler
      ensures record.jobId == r.jobId && record.sandboxId == r.sandboxId
      ensures reconciler.disk - {r.jobId} == old(reconciler.disk) - {r.jobId}
      ensures reconciler.allSaved ==> old(reconciler.allSaved)
      ensures primaries == old(primaries) + [primary]
      ensures Began(r, old(logs), logs, old(provisioned), provisioned, old(monitors), monitors, primary)
      ensures wrote != [] && wrote[|wrote| - 1].record == record
      ensures if primary == Finished then record.phase == Completed && record.lastError == r.lastError
              else record.lastError.Some?
      ensures primary == Finished ==>
                && r.sandboxId.Some? && old(clock) <= w.entered
                && Earned(r, seen) && InTime(seen, w, waitTimeout, jobTimeout)
                && LeaseHeld(old(renewals), renewals, seen, w, lease)
    {
      record, primary, seen, w := RunPrimary(r, waitTimeout, jobTimeout, lease);
      record := if primary == Finished then record.(phase := Completed)
                else record.(lastError := Some("primary failure"));
      var _ := Save(record);
    }

    /** `run_runner_job`. If the cleanup's saves succeed, the job ends in one of three ways:
        record deleted and VM absent; record kept in phase Cleaning with the error of the
        scrub or the destroy; or, when only the final delete failed, record kept in phase
        Cleaning and VM absent, without an error exactly when there was none before and the
        job ended well. Only a failed first save leaves the record in another phase. The
        job is `ok` exactly with the first end of one that ended well, on evidence in time. */
    method RunJob(r: CiJobRecord, waitTimeout: nat, jobTimeout: nat, lease: nat, at: Answers)
        returns (record: CiJobRecord, primary: End, end: Cleanup, ok: bool, seen: seq<Round>, w: Times)
      modifies this, reconciler
      ensures ran == old(ran) + [Ran(r, Config(waitTimeout, jobTimeout, lease), primary, end)]
      ensures primaries == old(primaries) + [primary]
      ensures Cleaned(r, at, old(steps), steps, old(vms), vms)
      ensures Began(r, old(logs), logs, old(provisioned), provisioned, old(monitors), monitors, primary)
      ensures end == EndOf(r.sandboxId, at)
      ensures reconciler.allSaved ==> old(reconciler.allSaved) && end != NotStarted && end != NotNoted
      ensures record.jobId == r.jobId && record.sandboxId == r.sandboxId
      ensures reconciler.disk - {r.jobId} == old(reconciler.disk) - {r.jobId}
      ensures end == Removed ==> r.jobId !in reconciler.disk
      ensures r.sandboxId.None? ==> primary != Finished && vms == old(vms)
      ensures r.sandboxId.Some? ==>
                && (vms == if at.starts && TakesVm(at) then old(vms) - {r.sandboxId.value} else old(vms))
                && (end == Removed || end == DeleteFailed ==> r.sandboxId.value !in vms)
      ensures r.sandboxId.Some? && end != Removed && at.starts ==>
                && InFlight(r.jobId) && reconciler.disk[r.jobId].phase == Cleaning
                && reconciler.disk[r.jobId].sandboxId == r.sandboxId
                && (end != NotNoted ==> reconciler.disk[r.jobId] == record)
      ensures end.Kept? ==> record.lastError == Some(end.error)
      ensures end == DeleteFailed ==> (record.lastError.None? <==> primary == Finished && r.lastError.None?)
      ensures ok <==> primary == Finished && end == Removed
      ensures primary == Finished ==>
                && Earned(r, seen) && InTime(seen, w, waitTimeout, jobTimeout) && old(clock) <= w.entered
                && LeaseHeld(old(renewals), renewals, seen, w, lease)
    {
      record, primary, seen, w := RunAndNote(r, waitTimeout, jobTimeout, lease);
      record, end := CleanUp(record, at);
      ok := primary == Finished && end == Removed;
      ran := ran + [Ran(r, Config(waitTimeout, jobTimeout, lease), primary, end)];
    }
  }

  /** The steps of a cleanup that began with these VMs and this disk: the scrub, while the VM
      is there and the record is on disk in phase Cleaning; the destroy; and, when both went
      well, the deletion of the record. */
  function StepsOf(r: CiJobRecord, at: Answers, vms0: set<string>, vms: set<string>,
                   disk: map<string, CiJobRecord>): seq<Step>
  {
    if r.sandboxId.None? then [Step(Deletes, vms0, disk)]
    else if !at.starts then []
    else
      var cleaning := disk[r.jobId := r.(phase := Cleaning)];
      [Step(Scrubs, vms0, cleaning), Step(Destroys, vms0, cleaning)]
      + if Clean(at) then [Step(Deletes, vms, cleaning)] else []
  }

  /** The cleanup's steps since `steps0`, whatever the disk held besides this job. */
  ghost predicate Cleaned(r: CiJobRecord, at: Answers, steps0: seq<Step>, steps: seq<Step>,
                          vms0: set<string>, vms: set<string>)
  {
    exists s: CiJobRecord, disk ::
      s.jobId == r.jobId && s.sandboxId == r.sandboxId && steps == steps0 + StepsOf(s, at, vms0, vms, disk)
  }

  /** How the part in front of the cleanup begins: with a look at the log of a job that has a
      sandbox; then one provisioning, exactly if that look failed or no line of the log
      registers a runner; then one monitor, exactly if there was no provisioning or it went
      well. */
  ghost predicate Began(r: CiJobRecord, logs0: seq<Option<string>>, logs: seq<Option<string>>,
                        provisioned0: seq<Option<End>>, provisioned: seq<Option<End>>,
                        monitors0: nat, monitors: nat, primary: End)
  {
    && logs0 <= logs && (r.sandboxId.Some? ==> logs0 < logs)
    && if Unregistered(r, logs0, logs) then
         && provisioned0 < provisioned && |provisioned| == |provisioned0| + 1
         && var end := provisioned[|provisioned0|];
            if end.None? then monitors == monitors0 + 1 else monitors == monitors0 && primary == end.value
       else provisioned == provisioned0 && monitors == monitors0 + 1
  }

  /** What this means in terms of the first log read: when there is one provisioning more, and
      when there is one monitor more. */
  lemma BeganIff(r: CiJobRecord, logs0: seq<Option<string>>, logs: seq<Option<string>>,
                 provisioned0: seq<Option<End>>, provisioned: seq<Option<End>>, monitors0: nat, monitors: nat,
                 primary: End)
    requires Began(r, logs0, logs, provisioned0, provisioned, monitors0, monitors, primary)
    ensures r.sandboxId.Some? ==> |logs0| < |logs|
    ensures |provisioned| > |provisioned0| <==>
            r.sandboxId.None? || logs[|logs0|].None?
            || forall line :: line in Lines(logs[|logs0|].value) ==> ParseRunnerRegistered(line).None?
    ensures monitors > monitors0 <==> provisioned == provisioned0 || provisioned == provisioned0 + [None]
    ensures |provisioned| <= |provisioned0| + 1 && monitors <= monitors0 + 1
    ensures monitors == monitors0 ==> provisioned == provisioned0 + [Some(primary)]
  {
    if r.sandboxId.Some? && logs[|logs0|].Some? {
      var lines := Lines(logs[|logs0|].value);
      assert NothingRegistered(lines) <==> forall line :: line in lines ==> ParseRunnerRegistered(line).None?;
    }
    if |provisioned| > |provisioned0| {
      assert provisioned == provisioned0 + [provisioned[|provisioned0|]];
    }
  }

  lemma BeganWhen(r: CiJobRecord, logs0: seq<Option<string>>, looked: seq<Option<string>>, logs: seq<Option<string>>,
                  provisioned0: seq<Option<End>>, provisioned: seq<Option<End>>, monitors0: nat, monitors: nat,
                  end: Option<End>, primary: End)
    requires Looked(r, logs0, looked) && looked <= logs
    requires if Unregistered(r, logs0, looked) then provisioned == provisioned0 + [end]
             else provisioned == provisioned0 && end.None?
    requires if end.None? then monitors == monitors0 + 1 else monitors == monitors0 && primary == end.value
    ensures Began(r, logs0, logs, provisioned0, provisioned, monitors0, monitors, primary)
    ensures (if r.sandboxId.Some? then logs[..|logs0| + 1] else logs0) == looked
  {
  }

  /** The log of a job with a sandbox was read once. */
  predicate Looked(r: CiJobRecord, logs0: seq<Option<string>>, logs: seq<Option<string>>) {
    && logs0 <= logs
    && |logs| == |logs0| + if r.sandboxId.Some? then 1 else 0
  }

  /** The first look at the log shows no registration, or nothing at all. */
  predicate Unregistered(r: CiJobRecord, logs0: seq<Option<string>>, logs: seq<Option<string>>)
    requires r.sandboxId.Some? ==> |logs0| < |logs|
  {
    r.sandboxId.None? || logs[|logs0|].None? || NothingRegistered(Lines(logs[|logs0|].value))
  }

  /** What the ends of the waiting loop rest on; `t` began the last turn, or found the timeout
      over. */
  ghost predicate Awaited(record: CiJobRecord, end: Option<End>, seen: seq<Round>, entered: int, timeout: int,
                          t: int, clock: int, wrote0: seq<Wrote>, wrote: seq<Wrote>)
  {
    && StillWaits(AllButLast(seen))
    && match end
       case None =>
         seen != [] && Listens(seen[|seen| - 1].lines) && record.phase == Running
         && LastWrote(wrote, Wrote(record, true))
         && entered <= t < entered + timeout && t <= seen[|seen| - 1].at <= clock
       case Some(NeverListened) =>
         entered + timeout <= t <= clock
         && StillWaits(seen)
       case Some(ExitedEarly) =>
         seen != [] && Quit(seen[|seen| - 1].lines) && !Listens(seen[|seen| - 1].lines)
       case Some(SaveFailed) => SaveFailedLast(wrote0, wrote)
       case _ => false
  }

  lemma AwaitedTooLong(record: CiJobRecord, seen: seq<Round>, entered: int, timeout: int,
                       t: int, clock: int, wrote0: seq<Wrote>, wrote: seq<Wrote>)
    requires StillWaits(seen) && entered + timeout <= t <= clock
    ensures Awaited(record, Some(NeverListened), seen, entered, timeout, t, clock, wrote0, wrote)
  {
  }

  lemma AwaitedInTime(record: CiJobRecord, end: Option<End>, seen: seq<Round>, entered: int, timeout: int,
                      t: int, clock: int, wrote0: seq<Wrote>, before: seq<Wrote>, wrote: seq<Wrote>)
    requires seen != [] && StillWaits(AllButLast(seen)) && wrote0 <= before
    requires entered <= t < entered + timeout && t <= seen[|seen| - 1].at <= clock
    requires end.Some? ==> end.value == SaveFailed || end.value == ExitedEarly
    requires end.None? ==> Listens(seen[|seen| - 1].lines) && record.phase == Running
                           && LastWrote(wrote, Wrote(record, true))
    requires end == Some(ExitedEarly) ==> Quit(seen[|seen| - 1].lines) && !Listens(seen[|seen| - 1].lines)
    requires end == Some(SaveFailed) ==> SaveFailedLast(before, wrote)
    ensures Awaited(record, end, seen, entered, timeout, t, clock, wrote0, wrote)
  {
  }

  /** What a turn's errors rest on. */
  predicate TurnEnds(r: CiJobRecord, end: End, wrote0: seq<Wrote>, wrote: seq<Wrote>,
                     leases0: seq<Option<Option<string>>>, leases: seq<Option<Option<string>>>)
  {
    && (end == Finished || end == Rejected || end == SaveFailed || end == BadJobId || end == RenewFailed)
    && (end == SaveFailed ==> SaveFailedLast(wrote0, wrote))
    && (end == BadJobId ==> ParseU64(r.jobId).None?)
    && (end == RenewFailed ==> RefusedLast(leases0, leases))
  }

  lemma TurnEndsSince(r: CiJobRecord, end: End, wrote0: seq<Wrote>, wrote1: seq<Wrote>, wrote: seq<Wrote>,
                      leases0: seq<Option<Option<string>>>, leases1: seq<Option<Option<string>>>,
                      leases: seq<Option<Option<string>>>)
    requires TurnEnds(r, end, wrote1, wrote, leases1, leases) && wrote0 <= wrote1 && leases0 <= leases1
    ensures TurnEnds(r, end, wrote0, wrote, leases0, leases)
  {
  }

  /** What the ends of the job loop rest on; `t` is the clock reading that decided. */
  ghost predicate Watched(r: CiJobRecord, record: CiJobRecord, end: End, seen: seq<Round>, entered: int, timeout: int,
                          t: int, clock: int, wrote0: seq<Wrote>, wrote: seq<Wrote>,
                          leases0: seq<Option<Option<string>>>, leases: seq<Option<Option<string>>>)
  {
    if end == TimedOut then entered + timeout <= t <= clock
    else
      && TurnEnds(r, end, wrote0, wrote, leases0, leases)
      && (end == Finished ==> seen != [] && Accepts(record.diverged, seen[|seen| - 1])
                              && seen[|seen| - 1].at <= t < entered + timeout)
      && (end == Rejected ==> seen != [] && Ends(seen[|seen| - 1]) && !Accepts(record.diverged, seen[|seen| - 1]))
  }

  predicate LastWrote(wrote: seq<Wrote>, w: Wrote) { wrote != [] && wrote[|wrote| - 1] == w }

  predicate NothingRegistered(lines: seq<string>) {
    forall i :: 0 <= i < |lines| ==> ParseRunnerRegistered(lines[i]).None?
  }

  /** The name is what the first registering line says. */
  ghost predicate FirstRegistered(lines: seq<string>, name: Option<string>) {
    exists i :: 0 <= i < |lines| && name.Some? && ParseRunnerRegistered(lines[i]) == name
                && NothingRegistered(lines[..i])
  }

  lemma NothingRegisteredCons(lines: seq<string>)
    requires lines != []
    ensures NothingRegistered(lines) <==> ParseRunnerRegistered(lines[0]).None? && NothingRegistered(lines[1..])
  {
    assert forall i :: 0 <= i < |lines| - 1 ==> lines[1..][i] == lines[i + 1];
  }

  lemma {:induction false} FirstMeans(lines: seq<string>)
    ensures First(ParseRunnerRegistered, lines).None? <==> NothingRegistered(lines)
    ensures First(ParseRunnerRegistered, lines).Some? ==> FirstRegistered(lines, First(ParseRunnerRegistered, lines))
  {
    if lines != [] {
      var rest := lines[1..];
      FirstMeans(rest);
      NothingRegisteredCons(lines);
      if ParseRunnerRegistered(lines[0]).Some? {
        assert NothingRegistered(lines[..0]);
      } else if First(ParseRunnerRegistered, rest).Some? {
        var name := First(ParseRunnerRegistered, rest);
        var i :| 0 <= i < |rest| && ParseRunnerRegistered(rest[i]) == name && NothingRegistered(rest[..i]);
        assert lines[..i + 1][1..] == rest[..i];
        NothingRegisteredCons(lines[..i + 1]);
        assert ParseRunnerRegistered(lines[i + 1]) == name && NothingRegistered(lines[..i + 1]);
      }
    }
  }

  /** The texts that were read. */
  function Texts(logs: seq<Option<string>>): seq<string> {
    if logs == [] then []
    else
      var last := logs[|logs| - 1];
      Texts(logs[..|logs| - 1]) + if last.Some? then [last.value] else []
  }

  /** Every successful read since `logs0` became one of these rounds. */
  ghost predicate Turns(logs0: seq<Option<string>>, logs: seq<Option<string>>, seen: seq<Round>) {
    && logs0 <= logs
    && var texts := Texts(logs[|logs0|..]);
       |texts| == |seen| && forall k :: 0 <= k < |seen| ==> seen[k].lines == Lines(texts[k])
  }

  lemma OneMoreTurn(logs0: seq<Option<string>>, logs: seq<Option<string>>, seen: seq<Round>, text: string, o: Round)
    requires Turns(logs0, logs, seen) && o.lines == Lines(text)
    ensures Turns(logs0, logs + [Some(text)], seen + [o])
  {
    var more := (logs + [Some(text)])[|logs0|..];
    assert more == logs[|logs0|..] + [Some(text)] && more[..|more| - 1] == logs[|logs0|..];
  }

  /** The answers a round holds are answers to questions of this turn. */
  ghost predicate Answered(r: CiJobRecord, asked0: seq<Question>, asked: seq<Question>, o: Round) {
    && asked0 <= asked
    && (o.check.Some? ==>
          o.runner.Some? && OfRunner(r.repository, o.runner.value, o.check) in asked[|asked0|..])
    && (o.job.Some? ==>
          ParseU64(r.jobId).Some? && OfJob(r.repository, ParseU64(r.jobId).value, o.job) in asked[|asked0|..])
  }

  lemma AnsweredWhenAsked(r: CiJobRecord, asked0: seq<Question>, asked: seq<Question>, o: Round, looked: bool)
    requires ParseU64(r.jobId).None? ==> !looked
    requires asked == asked0 + CheckAsks(r.(runnerName := o.runner), o.check)
                      + if looked then [OfJob(r.repository, ParseU64(r.jobId).value, o.job)] else []
    requires (o.check.Some? ==> o.runner.Some?) && (o.job.Some? ==> looked)
    ensures Answered(r, asked0, asked, o)
  {
    var more := CheckAsks(r.(runnerName := o.runner), o.check)
                + if looked then [OfJob(r.repository, ParseU64(r.jobId).value, o.job)] else [];
    assert asked == asked0 + more && asked[|asked0|..] == more;
    assert o.job.Some? ==> more[|more| - 1] == OfJob(r.repository, ParseU64(r.jobId).value, o.job);
    assert o.check.Some? ==> more[0] == OfRunner(r.repository, o.runner.value, o.check);
  }

  /** Every read since `logs0` that went well became one of these rounds, and what they say
      that GitHub answered is what it answered since `asked0`. */
  ghost predicate Backed(r: CiJobRecord, logs0: seq<Option<string>>, logs: seq<Option<string>>,
                         asked0: seq<Question>, asked: seq<Question>, seen: seq<Round>)
  {
    && Turns(logs0, logs, seen) && asked0 <= asked
    && forall k :: 0 <= k < |seen| ==> Answered(r, asked0, asked, seen[k])
  }

  lemma AnsweredSince(r: CiJobRecord, s: CiJobRecord, asked0: seq<Question>, before: seq<Question>,
                      after: seq<Question>, asked: seq<Question>, o: Round)
    requires SameJob(r, s) && asked0 <= before && Answered(s, before, after, o) && after <= asked
    ensures Answered(r, asked0, asked, o)
  {
    forall q | q in after[|before|..] ensures q in asked[|asked0|..] {
      var k :| |before| <= k < |after| && after[k] == q;
      assert asked[|asked0|..][k - |asked0|] == q;
    }
  }

  lemma OneMoreBacked(r: CiJobRecord, s: CiJobRecord, logs0: seq<Option<string>>, logs: seq<Option<string>>,
                      asked0: seq<Question>, before: seq<Question>, asked: seq<Question>,
                      seen: seq<Round>, text: string, o: Round)
    requires SameJob(r, s) && Backed(r, logs0, logs, asked0, before, seen)
    requires Answered(s, before, asked, o) && o.lines == Lines(text)
    ensures Backed(r, logs0, logs + [Some(text)], asked0, asked, seen + [o])
  {
    OneMoreTurn(logs0, logs, seen, text, o);
    forall k | 0 <= k < |seen| ensures Answered(r, asked0, asked, seen[k]) {
      AnsweredSince(r, r, asked0, asked0, before, asked, seen[k]);
    }
    AnsweredSince(r, s, asked0, before, asked, asked, o);
  }

  lemma NotRead(r: CiJobRecord, logs0: seq<Option<string>>, logs: seq<Option<string>>,
                asked0: seq<Question>, asked: seq<Question>, seen: seq<Round>)
    requires Backed(r, logs0, logs, asked0, asked, seen)
    ensures Backed(r, logs0, logs + [None], asked0, asked, seen)
  {
    var more := (logs + [None])[|logs0|..];
    assert more == logs[|logs0|..] + [None] && more[..|more| - 1] == logs[|logs0|..];
  }

  lemma {:induction false} TextsConcat(a: seq<Option<string>>, b: seq<Option<string>>)
    ensures Texts(a + b) == Texts(a) + Texts(b)
  {
    if b == [] {
      assert a + b == a;
    } else {
      assert (a + b)[..|a + b| - 1] == a + b[..|b| - 1];
      TextsConcat(a, b[..|b| - 1]);
    }
  }

  /** The rounds of two loops in a row. */
  lemma BackedJoin(r: CiJobRecord, s: CiJobRecord, logs0: seq<Option<string>>, logs1: seq<Option<string>>,
                   logs: seq<Option<string>>, asked0: seq<Question>, asked1: seq<Question>, asked: seq<Question>,
                   early: seq<Round>, late: seq<Round>)
    requires SameJob(r, s)
    requires Backed(r, logs0, logs1, asked0, asked1, early) && Backed(s, logs1, logs, asked1, asked, late)
    ensures Backed(r, logs0, logs, asked0, asked, early + late)
  {
    assert logs[|logs0|..] == logs1[|logs0|..] + logs[|logs1|..];
    TextsConcat(logs1[|logs0|..], logs[|logs1|..]);
    forall k | 0 <= k < |early| ensures Answered(r, asked0, asked, early[k]) {
      AnsweredSince(r, r, asked0, asked0, asked1, asked, early[k]);
    }
    forall k | 0 <= k < |late| ensures Answered(r, asked0, asked, late[k]) {
      AnsweredSince(r, s, asked0, asked1, asked, asked, late[k]);
    }
  }

  /** Three seconds of sleep after each read, but for the last one. */
  predicate Paced(logs0: seq<Option<string>>, logs: seq<Option<string>>, slept: int) {
    3 * (|logs| - |logs0| - 1) <= slept <= 3 * (|logs| - |logs0|)
  }

  /** The last save since then failed. */
  predicate SaveFailedLast(wrote0: seq<Wrote>, wrote: seq<Wrote>) {
    |wrote0| < |wrote| && !wrote[|wrote| - 1].ok
  }

  /** The last renewal since then was refused. */
  predicate RefusedLast(leases0: seq<Option<Option<string>>>, leases: seq<Option<Option<string>>>) {
    |leases0| < |leases| && leases[|leases| - 1].None?
  }

  predicate StartFailed(starts0: seq<Start>, starts: seq<Start>) {
    |starts0| < |starts| && !starts[|starts| - 1].ok
  }

  /** The script failed, or its output names no runner, or the runner did not start. */
  predicate NotBegun(scripts0: seq<Script>, scripts: seq<Script>, starts0: seq<Start>, starts: seq<Start>) {
    && |scripts0| < |scripts|
    && var output := scripts[|scripts| - 1].output;
       output.None? || NothingRegistered(Lines(output.value)) || StartFailed(starts0, starts)
  }

  /** What each end of the part in front of the cleanup rests on. */
  ghost predicate Grounds(r: CiJobRecord, end: End, seen: seq<Round>, w: Times, waitTimeout: nat, jobTimeout: nat,
                          clock: int, saveFailed: bool, refused: bool, notBegun: bool)
  {
    match end
    case Finished => Earned(r, seen) && InTime(seen, w, waitTimeout, jobTimeout)
    case Rejected => seen != [] && Ends(seen[|seen| - 1]) && !Accepts(false, seen[|seen| - 1])
    case TimedOut =>
      0 < w.waits <= |seen| && Listens(seen[w.waits - 1].lines) && w.entered <= w.start
      && w.start + jobTimeout <= clock
    case NeverListened =>
      w.entered + waitTimeout <= clock
      && StillWaits(seen)
    case ExitedEarly => seen != [] && Quit(seen[|seen| - 1].lines) && !Listens(seen[|seen| - 1].lines)
    case BadJobId => ParseU64(r.jobId).None?
    case NoSandbox => r.sandboxId.None?
    case SaveFailed => saveFailed
    case RenewFailed => refused
    case NotProvisioned => notBegun
  }

  /** The pause between two renewals: a third of the lease, but at least thirty seconds. */
  function Pause(lease: nat): nat { if lease / 3 > 30 then lease / 3 else 30 }

  /** When each of the first `n` rounds was read, the lease had been renewed less than a pause
      ago, or it was renewed right after. */
  ghost predicate KeptAlive(renewals: seq<int>, from: nat, seen: seq<Round>, n: int, pause: nat) {
    forall k :: 0 <= k < n && k < |seen| ==> RenewedFor(renewals, from, seen[k].at, pause)
  }

  /** The same for the rounds of the job loop, which begin behind the waiting. */
  ghost predicate LeaseHeld(renewals0: seq<int>, renewals: seq<int>, seen: seq<Round>, w: Times, lease: nat) {
    && |renewals0| <= |renewals| && w.waits <= |seen|
    && KeptAlive(renewals, |renewals0|, seen[w.waits..], |seen| - w.waits - 1, Pause(lease))
  }

  lemma LeaseHeldWhen(renewals0: seq<int>, renewals: seq<int>, early: seq<Round>, late: seq<Round>, w: Times,
                      lease: nat)
    requires renewals0 <= renewals && w.waits == |early|
    requires KeptAlive(renewals, |renewals0|, late, |late| - 1, Pause(lease))
    ensures LeaseHeld(renewals0, renewals, early + late, w, lease)
  {
    assert (early + late)[|early|..] == late;
  }

  ghost predicate RenewedFor(renewals: seq<int>, from: nat, at: int, pause: nat) {
    exists m :: from <= m < |renewals| && renewals[m] + pause > at
  }

  /** The lease was kept alive for all these rounds, and the next renewal is due at entry, or a
      pause after the last one. */
  ghost predicate LeaseKept(renewals0: seq<int>, renewals: seq<int>, seen: seq<Round>, entered: int, due: int,
                            pause: nat)
  {
    && renewals0 <= renewals && KeptAlive(renewals, |renewals0|, seen, |seen|, pause)
    && due == (if renewals == renewals0 then entered else renewals[|renewals| - 1] + pause)
  }

  /** Renewed at this pace a lease of thirty seconds or more never runs out between two rounds,
      and a shorter one may; one of ninety seconds or more is renewed three times in its time. */
  lemma LeaseNeverRunsOut(renewals: seq<int>, from: nat, seen: seq<Round>, n: int, lease: nat)
    requires KeptAlive(renewals, from, seen, n, Pause(lease))
    ensures lease >= 30 ==> KeptAlive(renewals, from, seen, n, lease)
    ensures Pause(lease) <= lease <==> lease >= 30
    ensures lease >= 90 ==> 3 * Pause(lease) <= lease < 3 * (Pause(lease) + 1)
  {
    if lease >= 30 {
      forall k | 0 <= k < n && k < |seen| ensures RenewedFor(renewals, from, seen[k].at, lease) {
        assert RenewedFor(renewals, from, seen[k].at, Pause(lease));
        var m :| from <= m < |renewals| && renewals[m] + Pause(lease) > seen[k].at;
        assert renewals[m] + lease > seen[k].at;
      }
    }
  }

  lemma LeaseKeptOn(renewals0: seq<int>, before: seq<int>, renewals: seq<int>, seen: seq<Round>, entered: int,
                    due: int, o: Round, next: int, clock: int, pause: nat)
    requires LeaseKept(renewals0, before, seen, entered, due, pause) && entered <= o.at <= clock && pause > 0
    requires if renewals == before then next == due > o.at else renewals == before + [clock] && next == clock + pause
    ensures LeaseKept(renewals0, renewals, seen + [o], entered, next, pause)
  {
    var m := |renewals| - 1;
    assert |renewals0| <= m && renewals[m] + pause > o.at;
    assert RenewedFor(renewals, |renewals0|, o.at, pause);
    StillAlive(before, renewals, |renewals0|, seen, o, pause);
  }

  lemma StillAlive(before: seq<int>, renewals: seq<int>, from: nat, seen: seq<Round>, o: Round, pause: nat)
    requires KeptAlive(before, from, seen, |seen|, pause) && before <= renewals
    ensures KeptAlive(renewals, from, seen + [o], |seen|, pause)
    ensures RenewedFor(renewals, from, o.at, pause) ==> KeptAlive(renewals, from, seen + [o], |seen| + 1, pause)
  {
    forall k | 0 <= k < |seen| ensures RenewedFor(renewals, from, seen[k].at, pause) {
      assert RenewedFor(before, from, seen[k].at, pause);
      var m :| from <= m < |before| && before[m] + pause > seen[k].at;
      assert renewals[m] == before[m];
    }
  }

  /** What a divergence check asks: about the runner, if one is known. */
  function CheckAsks(r: CiJobRecord, check: Option<Option<nat>>): seq<Question> {
    if r.runnerName.Some? then [OfRunner(r.repository, r.runnerName.value, check)] else []
  }

  /** The log leaves the job undecided, and its id is a number. */
  predicate LooksUp(r: CiJobRecord, lines: seq<string>) {
    Completion(lines).None? && !Quit(lines) && ParseU64(r.jobId).Some?
  }

  /** A turn asks about the runner, and about the job if that is still needed. */
  predicate Inquires(r: CiJobRecord, before: seq<Question>, asked: seq<Question>, o: Round, end: Option<End>) {
    && before + CheckAsks(r.(runnerName := o.runner), o.check) <= asked
    && (LooksUp(r, o.lines) && (end.None? || end == Some(Finished) || end == Some(Rejected)) ==>
          asked == before + CheckAsks(r.(runnerName := o.runner), o.check)
                   + [OfJob(r.repository, ParseU64(r.jobId).value, o.job)])
  }

  lemma InquiresWhenAsked(r: CiJobRecord, before: seq<Question>, asked: seq<Question>, o: Round, end: Option<End>,
                          looked: bool)
    requires looked <==> end != Some(SaveFailed) && LooksUp(r, o.lines)
    requires asked == before + CheckAsks(r.(runnerName := o.runner), o.check)
                      + if looked then [OfJob(r.repository, ParseU64(r.jobId).value, o.job)] else []
    ensures Inquires(r, before, asked, o, end)
    ensures Inquires(r, before, asked, o, Some(SaveFailed)) && Inquires(r, before, asked, o, Some(RenewFailed))
  {
  }

  /** When a round ends the job well without divergence, in terms of its lines and answers. */
  lemma AcceptsIff(o: Round)
    ensures Accepts(false, o) <==>
            || (exists i :: 0 <= i < |o.lines| && FirstCompletes(o.lines, i)
                            && (EqIgnoreAsciiCase(ParseJobCompleted(o.lines[i]).value.1, "success")
                                || EqIgnoreAsciiCase(ParseJobCompleted(o.lines[i]).value.1, "succeeded")))
            || (NothingCompleted(o.lines) && !Quit(o.lines)
                && o.job.Some? && o.job.value.completed && o.job.value.conclusion == Some("success"))
    ensures Accepts(true, o) <==>
            !NothingCompleted(o.lines) || Quit(o.lines) || (o.job.Some? && o.job.value.completed)
  {
    CompletionMeans(o.lines);
  }

  predicate NothingCompleted(lines: seq<string>) {
    forall i :: 0 <= i < |lines| ==> ParseJobCompleted(lines[i]).None?
  }

  predicate FirstCompletes(lines: seq<string>, i: nat) {
    i < |lines| && ParseJobCompleted(lines[i]).Some? && NothingCompleted(lines[..i])
  }

  lemma NothingCompletedCons(lines: seq<string>)
    requires lines != []
    ensures NothingCompleted(lines) <==> ParseJobCompleted(lines[0]).None? && NothingCompleted(lines[1..])
  {
    assert forall i :: 0 <= i < |lines| - 1 ==> lines[1..][i] == lines[i + 1];
  }

  lemma FirstCompletesCons(lines: seq<string>, i: nat)
    requires lines != [] && ParseJobCompleted(lines[0]).None?
    ensures FirstCompletes(lines, i) <==> i > 0 && FirstCompletes(lines[1..], i - 1)
  {
    if 0 < i < |lines| {
      NothingCompletedCons(lines[..i]);
      assert lines[..i][1..] == lines[1..][..i - 1];
    }
  }

  lemma {:induction false} CompletionMeans(lines: seq<string>)
    ensures Completion(lines).None? <==> NothingCompleted(lines)
    ensures forall i: nat :: FirstCompletes(lines, i) ==> Completion(lines) == ParseJobCompleted(lines[i])
    ensures Completion(lines).Some? ==> exists i: nat :: FirstCompletes(lines, i)
  {
    if lines != [] {
      var rest := lines[1..];
      CompletionMeans(rest);
      NothingCompletedCons(lines);
      if ParseJobCompleted(lines[0]).Some? {
        assert FirstCompletes(lines, 0);
        forall i: nat | FirstCompletes(lines, i) ensures i == 0 {
          if i > 0 { NothingCompletedCons(lines[..i]); }
        }
      } else {
        forall i: nat | FirstCompletes(lines, i) ensures Completion(lines) == ParseJobCompleted(lines[i]) {
          FirstCompletesCons(lines, i);
          assert FirstCompletes(rest, i - 1);
        }
        if Completion(rest).Some? {
          var i: nat :| FirstCompletes(rest, i);
          FirstCompletesCons(lines, i + 1);
          assert FirstCompletes(lines, i + 1);
        }
      }
    }
  }

  /** The job ended well in the last round seen, or it ended and its runner had diverged:
      at the start already, or by what some round shows. */
  predicate Earned(r: CiJobRecord, seen: seq<Round>) {
    && seen != []
    && var last := seen[|seen| - 1];
       Accepts(false, last) || (Ends(last) && (r.diverged || SomeShow(r, seen)))
  }

  /** The clock readings of a monitor: on entry, when the turn that saw the runner listen
      began, how many rounds that took, on entry of the job loop, and at the decision. */
  datatype Times = Times(entered: int, listened: int, waits: nat, start: int, decided: int)

  /** The runner listened within the one timeout and the job ended within the other, each
      counted from where its loop began, which was before that loop read its first log. */
  predicate InTime(seen: seq<Round>, w: Times, waitTimeout: nat, jobTimeout: nat) {
    && 0 < w.waits < |seen|
    && w.entered <= seen[0].at
    && Listens(seen[w.waits - 1].lines)
    && w.entered <= w.listened < w.entered + waitTimeout
    && w.listened <= seen[w.waits - 1].at <= w.start <= seen[w.waits].at
    && seen[|seen| - 1].at <= w.decided < w.start + jobTimeout
  }

  lemma GroundsWhenAwaited(r: CiJobRecord, record: CiJobRecord, end: End, seen: seq<Round>, w: Times,
                           waitTimeout: nat, jobTimeout: nat, t: int, clock: int,
                           wrote0: seq<Wrote>, wrote: seq<Wrote>, refused: bool)
    requires Awaited(record, Some(end), seen, w.entered, waitTimeout, t, clock, wrote0, wrote)
    ensures Grounds(r, end, seen, w, waitTimeout, jobTimeout, clock, SaveFailedLast(wrote0, wrote), refused, false)
    ensures end != Finished
  {
  }

  lemma GroundsWhenWatched(r: CiJobRecord, early: seq<Round>, joined: CiJobRecord, late: seq<Round>,
                           record: CiJobRecord, end: End, w: Times, waitTimeout: nat, jobTimeout: nat, clock: int,
                           wrote0: seq<Wrote>, wrote1: seq<Wrote>, wrote: seq<Wrote>,
                           leases0: seq<Option<Option<string>>>, leases: seq<Option<Option<string>>>)
    requires SameJob(r, joined) && w.waits == |early| && wrote0 <= wrote1
    requires joined.diverged ==> r.diverged || SomeShow(r, early)
    requires record.diverged ==> joined.diverged || SomeShow(joined, late)
    requires Awaited(joined, None, early, w.entered, waitTimeout, w.listened, w.start, wrote0, wrote1)
    requires w.entered <= early[0].at && early[|early| - 1].at <= w.start
    requires late != [] ==> w.start <= late[0].at
    requires Watched(joined, record, end, late, w.start, jobTimeout, w.decided, clock, wrote1, wrote, leases0, leases)
    ensures Grounds(r, end, early + late, w, waitTimeout, jobTimeout, clock, SaveFailedLast(wrote0, wrote),
                    RefusedLast(leases0, leases), false)
  {
    if end == Finished {
      EarnedWhenAccepted(r, early, joined, late, record.diverged);
      InTimeWhenJoined(early, late, w, waitTimeout, jobTimeout);
    }
  }

  lemma InTimeWhenJoined(early: seq<Round>, late: seq<Round>, w: Times, waitTimeout: nat, jobTimeout: nat)
    requires early != [] && late != [] && w.waits == |early| && Listens(early[|early| - 1].lines)
    requires w.entered <= early[0].at && w.entered <= w.listened < w.entered + waitTimeout
    requires w.listened <= early[|early| - 1].at <= w.start <= late[0].at
    requires late[|late| - 1].at <= w.decided < w.start + jobTimeout
    ensures InTime(early + late, w, waitTimeout, jobTimeout)
  {
  }

  lemma EarnedWhenAccepted(r: CiJobRecord, early: seq<Round>, joined: CiJobRecord, late: seq<Round>, diverged: bool)
    requires SameJob(r, joined) && late != []
    requires joined.diverged ==> r.diverged || SomeShow(r, early)
    requires diverged ==> joined.diverged || SomeShow(joined, late)
    requires Accepts(diverged, late[|late| - 1])
    ensures Earned(r, early + late)
  {
    var seen := early + late;
    assert seen[|seen| - 1] == late[|late| - 1];
    if SomeShow(r, early) {
      var k :| 0 <= k < |early| && ShowsDivergence(r, early[k]);
      assert ShowsDivergence(r, seen[k]);
    }
    if SomeShow(joined, late) {
      var k :| 0 <= k < |late| && ShowsDivergence(joined, late[k]);
      assert ShowsDivergence(r, seen[|early| + k]);
    }
  }

  lemma GroundsAlike(r: CiJobRecord, s: CiJobRecord, end: End, seen: seq<Round>, w: Times, waitTimeout: nat,
                     jobTimeout: nat, clock: int, saveFailed: bool, refused: bool, notBegun: bool)
    requires SameJob(r, s) && r.diverged == s.diverged
    requires Grounds(s, end, seen, w, waitTimeout, jobTimeout, clock, saveFailed, refused, notBegun)
    ensures Grounds(r, end, seen, w, waitTimeout, jobTimeout, clock, saveFailed, refused, notBegun)
  {
    if end == Finished {
      EarnedAlike(s, r, seen);
    }
  }

  lemma NotPrepared(r: CiJobRecord, end: End, w: Times, waitTimeout: nat, jobTimeout: nat, clock: int,
                    saveFailed: bool, refused: bool, notBegun: bool, logs: seq<Option<string>>, asked: seq<Question>)
    requires end == NoSandbox || end == SaveFailed || end == NotProvisioned
    requires end == NoSandbox ==> r.sandboxId.None?
    requires end == SaveFailed ==> saveFailed
    requires end == NotProvisioned ==> notBegun
    ensures Grounds(r, end, [], w, waitTimeout, jobTimeout, clock, saveFailed, refused, notBegun)
    ensures Backed(r, logs, logs, asked, asked, [])
  {
  }

  lemma GroundsStill(r: CiJobRecord, end: End, seen: seq<Round>, w: Times, waitTimeout: nat,
                     jobTimeout: nat, clock: int, wrote0: seq<Wrote>, wrote1: seq<Wrote>, wrote: seq<Wrote>,
                     refused: bool, notBegun: bool)
    requires Grounds(r, end, seen, w, waitTimeout, jobTimeout, clock, SaveFailedLast(wrote1, wrote), refused, false)
    requires |wrote0| <= |wrote1|
    ensures Grounds(r, end, seen, w, waitTimeout, jobTimeout, clock, SaveFailedLast(wrote0, wrote), refused, notBegun)
  {
  }

  lemma BackedAlike(r: CiJobRecord, s: CiJobRecord, logs0: seq<Option<string>>, logs: seq<Option<string>>,
                    asked0: seq<Question>, asked: seq<Question>, seen: seq<Round>)
    requires SameJob(r, s) && Backed(s, logs0, logs, asked0, asked, seen)
    ensures Backed(r, logs0, logs, asked0, asked, seen)
  {
    forall k | 0 <= k < |seen| ensures Answered(r, asked0, asked, seen[k]) {
      assert Answered(s, asked0, asked, seen[k]);
    }
  }

  lemma EarnedAlike(r: CiJobRecord, s: CiJobRecord, seen: seq<Round>)
    requires SameJob(r, s) && r.diverged == s.diverged && Earned(r, seen)
    ensures Earned(s, seen)
  {
    if SomeShow(r, seen) {
      var k :| 0 <= k < |seen| && ShowsDivergence(r, seen[k]);
      assert ShowsDivergence(s, seen[k]);
    }
  }
}
