/** One CI job's record, advanced by re-reading its growing runner log
    (`Reconciler::tail_and_update`). */
module Tail {
  import opened Text
  import opened Markers

  /** The phase strings the broker writes; `Other` stands for any other string on disk. */
  datatype Phase =
    | Dispatched | Registered | Listening | Running | Provisioning | WaitingRunner
    | Cleaning | Completed | Failed | Other(name: string)

  datatype CiJobRecord = CiJobRecord(
    jobId: string,
    queueLabel: string,
    runnerGroup: Option<string>,
    hostPrefix: Option<string>,
    phase: Phase,
    sandboxId: Option<string>,
    runnerName: Option<string>,
    dispatchedJobName: Option<string>,
    actualJobId: Option<string>,
    actualJobName: Option<string>,
    diverged: bool,
    repository: string,
    createdAt: string,
    updatedAt: string,
    leaseExpiresAt: Option<string>,
    lastError: Option<string>
  )

  predicate Terminal(phase: Phase) { phase == Completed || phase == Failed }

  // ---- what the log says, field by field: each reads the log without the record ----

  function Lower(c: char): char {
    if 'A' <= c <= 'Z' then (c as int + 32) as char else c
  }

  predicate EqIgnoreAsciiCase(s: string, t: string) {
    |s| == |t| && forall i :: 0 <= i < |s| ==> Lower(s[i]) == Lower(t[i])
  }

  function Verdict(line: string): Option<Phase> {
    match ParseJobCompleted(line)
    case None => None
    case Some((_, result)) => Some(if EqIgnoreAsciiCase(result, "succeeded") then Completed else Failed)
  }

  function Failure(line: string): Option<string> {
    match ParseJobCompleted(line)
    case None => None
    case Some((name, result)) =>
      if EqIgnoreAsciiCase(result, "succeeded") then None
      else Some("job " + name + " completed with result: " + result)
  }

  function JobNamed(line: string): Option<string> {
    match ParseJobCompleted(line)
    case Some((name, _)) => Some(name)
    case None => ParseRunningJob(line)
  }

  predicate RunningMarked(line: string) { IsRunningJob(line) || ParseRunningJob(line).Some? }

  /** The value of the last line that has one. */
  function Last<T>(f: string -> Option<T>, lines: seq<string>): Option<T> {
    if lines == [] then None
    else
      var v := f(lines[|lines| - 1]);
      if v.Some? then v else Last(f, lines[..|lines| - 1])
  }

  function FirstFailure(lines: seq<string>): Option<string> {
    if lines == [] then None
    else
      var v := FirstFailure(lines[..|lines| - 1]);
      if v.Some? then v else Failure(lines[|lines| - 1])
  }

  /** The phase markers of one line on a record that is not terminal. */
  function LiveStep(phase: Phase, line: string): Phase {
    if RunningMarked(line) then Running
    else if IsListeningForJobs(line) then Listening
    else if ParseRunnerRegistered(line).Some? && phase != Running then Registered
    else phase
  }

  function LivePhase(phase: Phase, lines: seq<string>): Phase {
    if lines == [] then phase
    else LiveStep(LivePhase(phase, lines[..|lines| - 1]), lines[|lines| - 1])
  }

  function PhaseAfter(phase: Phase, lines: seq<string>): Phase {
    match Last(Verdict, lines)
    case Some(v) => v
    case None => if Terminal(phase) then phase else LivePhase(phase, lines)
  }

  function Or<T>(a: Option<T>, b: Option<T>): Option<T> { if a.Some? then a else b }

  /** The record after one pass: the last matching marker of the whole log decides
      phase and names, the first failure fills an empty `last_error`. */
  function Pass(r: CiJobRecord, lines: seq<string>): CiJobRecord {
    r.(phase := PhaseAfter(r.phase, lines),
       runnerName := Or(Last(ParseRunnerRegistered, lines), r.runnerName),
       actualJobName := Or(Last(JobNamed, lines), r.actualJobName),
       lastError := Or(r.lastError, FirstFailure(lines)))
  }

  /** One line's effect on the record. */
  function LineStep(r: CiJobRecord, line: string): CiJobRecord {
    r.(phase := if Verdict(line).Some? then Verdict(line).value
                else if Terminal(r.phase) then r.phase else LiveStep(r.phase, line),
       runnerName := Or(ParseRunnerRegistered(line), r.runnerName),
       actualJobName := Or(JobNamed(line), r.actualJobName),
       lastError := Or(r.lastError, Failure(line)))
  }

  lemma PassSteps(r: CiJobRecord, lines: seq<string>)
    requires lines != []
    ensures Pass(r, lines) == LineStep(Pass(r, lines[..|lines| - 1]), lines[|lines| - 1])
  {
    var init := lines[..|lines| - 1];
    VerdictTerminal(init);
    if !Terminal(r.phase) { LiveNotTerminal(r.phase, init); }
  }

  lemma LiveNotTerminal(phase: Phase, lines: seq<string>)
    requires !Terminal(phase)
    ensures !Terminal(LivePhase(phase, lines))
  {
  }

  lemma VerdictTerminal(lines: seq<string>)
    ensures Last(Verdict, lines).Some? ==> Terminal(Last(Verdict, lines).value)
  {
  }

  /** The registration, listening and running markers of one line. */
  method ApplyLiveMarkers(r: CiJobRecord, line: string) returns (record: CiJobRecord, changed: bool)
    ensures record == r.(phase := if Terminal(r.phase) then r.phase else LiveStep(r.phase, line),
                         runnerName := Or(ParseRunnerRegistered(line), r.runnerName),
                         actualJobName := Or(ParseRunningJob(line), r.actualJobName))
    ensures !changed ==> record == r
  {
    record, changed := r, false;
    var registered := ParseRunnerRegistered(line);
    if registered.Some? {
      if record.runnerName != registered {
        record, changed := record.(runnerName := registered), true;
      }
      if record.phase != Running && record.phase != Completed && record.phase != Failed {
        record, changed := record.(phase := Registered), true;
      }
    }
    if IsListeningForJobs(line) && record.phase != Completed && record.phase != Failed
       && record.phase != Listening
    {
      record, changed := record.(phase := Listening), true;
    }
    if IsRunningJob(line) && record.phase != Completed && record.phase != Failed
       && record.phase != Running
    {
      record, changed := record.(phase := Running), true;
    }
    var running := ParseRunningJob(line);
    if running.Some? {
      if record.actualJobName != running {
        record, changed := record.(actualJobName := running), true;
      }
      if record.phase != Completed && record.phase != Failed && record.phase != Running {
        record, changed := record.(phase := Running), true;
      }
    }
  }

  /** The completion marker of one line, which overrides even a terminal phase. */
  method ApplyCompletion(r: CiJobRecord, line: string) returns (record: CiJobRecord, changed: bool)
    ensures record == r.(phase := Or(Verdict(line), Some(r.phase)).value,
                         actualJobName := if ParseJobCompleted(line).Some? then JobNamed(line) else r.actualJobName,
                         lastError := Or(r.lastError, Failure(line)))
    ensures !changed ==> record == r
  {
    record, changed := r, false;
    var completed := ParseJobCompleted(line);
    if completed.Some? {
      var (jobName, result) := completed.value;
      if record.actualJobName != Some(jobName) {
        record, changed := record.(actualJobName := Some(jobName)), true;
      }
      var terminalPhase := if EqIgnoreAsciiCase(result, "succeeded") then Completed else Failed;
      if record.phase != terminalPhase {
        record, changed := record.(phase := terminalPhase), true;
      }
      if record.lastError.None? && terminalPhase == Failed {
        record := record.(lastError := Some("job " + jobName + " completed with result: " + result));
        changed := true;
      }
    }
  }

  /** The line loop of `tail_and_update`; a record with `changed` false needs no save. */
  method ApplyLog(r: CiJobRecord, lines: seq<string>) returns (record: CiJobRecord, changed: bool)
    ensures record == Pass(r, lines)
    ensures !changed ==> record == r
  {
    record, changed := r, false;
    for i := 0 to |lines|
      invariant record == Pass(r, lines[..i])
      invariant !changed ==> record == r
    {
      assert lines[..i + 1][..i] == lines[..i];
      PassSteps(r, lines[..i + 1]);
      var live, done;
      record, live := ApplyLiveMarkers(record, lines[i]);
      record, done := ApplyCompletion(record, lines[i]);
      changed := changed || live || done;
    }
    assert lines[..|lines|] == lines;
  }

  // ---- snapshots of a growing log ----

  /** `s` was read while `log` was being written: whole lines, the last one perhaps cut. */
  predicate Snapshot(s: seq<string>, log: seq<string>) {
    && |s| <= |log|
    && (forall i :: 0 <= i < |s| - 1 ==> s[i] == log[i])
    && (s != [] ==> s[|s| - 1] <= log[|s| - 1])
  }

  lemma {:induction false} LastSomeIff<T>(f: string -> Option<T>, lines: seq<string>)
    ensures Last(f, lines).Some? <==> exists i :: 0 <= i < |lines| && f(lines[i]).Some?
  {
    if lines != [] {
      var n := |lines| - 1;
      var init := lines[..n];
      LastSomeIff(f, init);
      if Last(f, init).Some? {
        var i :| 0 <= i < |init| && f(init[i]).Some?;
        assert f(lines[i]).Some?;
      } else {
        assert forall i :: 0 <= i < n ==> lines[i] == init[i];
      }
    }
  }

  predicate Wakes(line: string) { RunningMarked(line) || IsListeningForJobs(line) }

  /** A cut line shows no marker that the whole line lacks. */
  lemma RegisteredExtends(s: string, t: string)
    requires s <= t && ParseRunnerRegistered(s).Some?
    ensures ParseRunnerRegistered(t).Some?
  {
    MatchExtends(s, t, REGISTERED, NonSpace);
  }

  lemma RunningJobExtends(s: string, t: string)
    requires s <= t && ParseRunningJob(s).Some?
    ensures ParseRunningJob(t).Some?
  {
    MatchExtends(s, t, RUNNING, NonNewline);
  }

  lemma VerdictExtends(s: string, t: string)
    requires s <= t && Verdict(s).Some?
    ensures Verdict(t).Some?
  {
    CompletionExtends(s, t);
  }

  lemma JobNamedExtends(s: string, t: string)
    requires s <= t && JobNamed(s).Some?
    ensures JobNamed(t).Some?
  {
    if ParseJobCompleted(s).Some? {
      CompletionExtends(s, t);
    } else {
      RunningJobExtends(s, t);
    }
  }

  lemma WakesExtends(s: string, t: string)
    requires s <= t && Wakes(s)
    ensures Wakes(t)
  {
    if IsListeningForJobs(s) {
      MatchExtends(s, t, LISTENING, Anything);
    } else if IsRunningJob(s) {
      MatchExtends(s, t, RUNNING, Anything);
    } else {
      RunningJobExtends(s, t);
    }
  }

  lemma LastExtends<T>(f: string -> Option<T>, s: seq<string>, log: seq<string>)
    requires Snapshot(s, log)
    requires forall x, y :: x <= y && f(x).Some? ==> f(y).Some?
    ensures Last(f, s).Some? ==> Last(f, log).Some?
  {
    LastSomeIff(f, s);
    LastSomeIff(f, log);
    if Last(f, s).Some? {
      var i :| 0 <= i < |s| && f(s[i]).Some?;
      assert s[i] <= log[i];
    }
  }

  predicate SomeWakes(lines: seq<string>) { exists i :: 0 <= i < |lines| && Wakes(lines[i]) }

  lemma SomeWakesInit(lines: seq<string>)
    requires lines != []
    ensures SomeWakes(lines) <==> SomeWakes(lines[..|lines| - 1]) || Wakes(lines[|lines| - 1])
  {
    var init := lines[..|lines| - 1];
    assert forall i :: 0 <= i < |init| ==> init[i] == lines[i];
  }

  /** With a running or listening marker the phase does not depend on where it started. */
  lemma {:induction false} LiveWoken(phase: Phase, other: Phase, lines: seq<string>)
    requires SomeWakes(lines)
    ensures LivePhase(phase, lines) == LivePhase(other, lines)
  {
    SomeWakesInit(lines);
    if SomeWakes(lines[..|lines| - 1]) {
      LiveWoken(phase, other, lines[..|lines| - 1]);
    }
  }

  /** Without one it is decided by the registration markers alone. */
  lemma {:induction false} LiveAsleep(phase: Phase, lines: seq<string>)
    requires !SomeWakes(lines)
    ensures LivePhase(phase, lines) ==
            if phase == Running || Last(ParseRunnerRegistered, lines).None? then phase else Registered
  {
    if lines != [] {
      SomeWakesInit(lines);
      LiveAsleep(phase, lines[..|lines| - 1]);
    }
  }

  /** A marker that the snapshot shows shows up in the log. */
  lemma VerdictInLog(s: seq<string>, log: seq<string>)
    requires Snapshot(s, log)
    ensures Last(Verdict, s).Some? ==> Last(Verdict, log).Some?
  {
    forall x: string, y: string | x <= y && Verdict(x).Some? ensures Verdict(y).Some? { VerdictExtends(x, y); }
    LastExtends(Verdict, s, log);
  }

  lemma RegisteredInLog(s: seq<string>, log: seq<string>)
    requires Snapshot(s, log)
    ensures Last(ParseRunnerRegistered, s).Some? ==> Last(ParseRunnerRegistered, log).Some?
  {
    forall x: string, y: string | x <= y && ParseRunnerRegistered(x).Some? ensures ParseRunnerRegistered(y).Some? {
      RegisteredExtends(x, y);
    }
    LastExtends(ParseRunnerRegistered, s, log);
  }

  lemma JobNamedInLog(s: seq<string>, log: seq<string>)
    requires Snapshot(s, log)
    ensures Last(JobNamed, s).Some? ==> Last(JobNamed, log).Some?
  {
    forall x: string, y: string | x <= y && JobNamed(x).Some? ensures JobNamed(y).Some? { JobNamedExtends(x, y); }
    LastExtends(JobNamed, s, log);
  }

  lemma WakesInLog(s: seq<string>, log: seq<string>)
    requires Snapshot(s, log) && SomeWakes(s)
    ensures SomeWakes(log)
  {
    var i :| 0 <= i < |s| && Wakes(s[i]);
    WakesExtends(s[i], log[i]);
  }

  lemma LiveReplay(phase: Phase, s: seq<string>, log: seq<string>)
    requires Snapshot(s, log)
    ensures LivePhase(LivePhase(phase, s), log) == LivePhase(phase, log)
  {
    if SomeWakes(log) {
      LiveWoken(LivePhase(phase, s), phase, log);
    } else {
      if SomeWakes(s) { WakesInLog(s, log); }
      RegisteredInLog(s, log);
      LiveAsleep(phase, s);
      LiveAsleep(phase, log);
      LiveAsleep(LivePhase(phase, s), log);
    }
  }

  lemma PhaseReplay(phase: Phase, s: seq<string>, log: seq<string>)
    requires Snapshot(s, log)
    ensures PhaseAfter(PhaseAfter(phase, s), log) == PhaseAfter(phase, log)
  {
    VerdictInLog(s, log);
    if Last(Verdict, log).None? && !Terminal(phase) {
      LiveNotTerminal(phase, s);
      LiveReplay(phase, s, log);
    }
  }

  /** Phase, runner and job name: everything but the sticky error. */
  function View(r: CiJobRecord): (Phase, Option<string>, Option<string>) {
    (r.phase, r.runnerName, r.actualJobName)
  }

  /** Re-applying the log from a record that an earlier snapshot, cut anywhere, had
      already advanced gives the same phase and names as one pass. */
  lemma ReplayView(r: CiJobRecord, s: seq<string>, log: seq<string>)
    requires Snapshot(s, log)
    ensures View(Pass(Pass(r, s), log)) == View(Pass(r, log))
  {
    PhaseReplay(r.phase, s, log);
    RegisteredInLog(s, log);
    JobNamedInLog(s, log);
  }

  lemma FirstFailurePrefix(s: seq<string>, log: seq<string>)
    requires s <= log
    ensures FirstFailure(s).Some? ==> FirstFailure(log) == FirstFailure(s)
  {
    if s == log {
    } else {
      assert s <= log[..|log| - 1];
      FirstFailurePrefix(s, log[..|log| - 1]);
    }
  }

  /** Whole-line snapshots: the complete record is the same, error included. */
  lemma Replay(r: CiJobRecord, s: seq<string>, log: seq<string>)
    requires s <= log
    ensures Pass(Pass(r, s), log) == Pass(r, log)
  {
    assert Snapshot(s, log);
    ReplayView(r, s, log);
    FirstFailurePrefix(s, log);
  }

  predicate NoNewlines(lines: seq<string>) { forall i :: 0 <= i < |lines| ==> '\n' !in lines[i] }

  /** No failure is new in the last line. */
  predicate ErrorIsSafe(r: CiJobRecord, s: seq<string>) {
    r.lastError.Some? || s == [] || FirstFailure(s[..|s| - 1]).Some? || Failure(s[|s| - 1]).None?
  }

  /** Whatever log the snapshot turns out to be part of, its error is the log's own. */
  ghost predicate ErrorIsFinal(r: CiJobRecord, s: seq<string>) {
    forall log | Snapshot(s, log) && NoNewlines(log) :: Pass(Pass(r, s), log).lastError == Pass(r, log).lastError
  }

  /** The error that a pass over a snapshot leaves is right for every log that the snapshot
      may have been read from, if and only if one was recorded already, or a line in front of
      the last shows a failure, or the last line shows none: a failure in the last line alone
      may still be cut short of a success. */
  lemma StickyLines(r: CiJobRecord, s: seq<string>)
    requires NoNewlines(s)
    ensures ErrorIsFinal(r, s) <==> ErrorIsSafe(r, s)
  {
    if s != [] {
      var n := |s| - 1;
      if FirstFailure(s[..n]).None? && Failure(s[n]).Some? {
        var log := s[..n] + [s[n] + DONE + SUCCEEDED];
        Healing(s, log);
        assert log[..n] == s[..n];
      } else {
        forall log | Snapshot(s, log) && NoNewlines(log)
          ensures Pass(Pass(r, s), log).lastError == Pass(r, log).lastError
        {
          EarlierFailureStays(s, log);
        }
      }
    }
  }

  const SUCCEEDED := "succeeded"

  /** A failed line that goes on with another separator and a success. */
  lemma HealedLine(line: string)
    requires '\n' !in line && Failure(line).Some?
    ensures var healed := line + DONE + SUCCEEDED;
            line <= healed && '\n' !in healed && Failure(healed).None?
  {
    SolidSuccess();
    NoNewlineIn(line, DONE, SUCCEEDED);
    ResultOverwritten(line, SUCCEEDED);
    SuccessIsNoFailure(line + DONE + SUCCEEDED);
    assert line + DONE + SUCCEEDED == line + (DONE + SUCCEEDED);
  }

  lemma SuccessIsNoFailure(line: string)
    requires ParseJobCompleted(line).Some? && ParseJobCompleted(line).value.1 == SUCCEEDED
    ensures Failure(line).None?
  {
  }

  lemma Healing(s: seq<string>, log: seq<string>)
    requires s != [] && NoNewlines(s) && Failure(s[|s| - 1]).Some?
    requires log == s[..|s| - 1] + [s[|s| - 1] + DONE + SUCCEEDED]
    ensures Snapshot(s, log) && NoNewlines(log) && Failure(log[|log| - 1]).None?
  {
    HealedLine(s[|s| - 1]);
  }

  lemma SolidSuccess()
    ensures SUCCEEDED != "" && NoSpaces(SUCCEEDED) && '\n' !in SUCCEEDED && '\n' !in DONE
  {
  }

  lemma NoNewlineIn(a: string, b: string, c: string)
    requires '\n' !in a && '\n' !in b && '\n' !in c
    ensures '\n' !in a + b + c
  {
  }

  lemma EarlierFailureStays(s: seq<string>, log: seq<string>)
    requires Snapshot(s, log) && s != []
    ensures FirstFailure(s[..|s| - 1]).Some? ==> FirstFailure(log) == FirstFailure(s)
  {
    FirstFailurePrefix(s[..|s| - 1], log);
  }

  // ---- whole runs: any series of tails, failed saves and restarts ----

  /** What can happen to a job's record. `saved` is false when the save failed or was not
      needed; `Restart` reloads the record from disk. */
  datatype Event =
    | Tailed(snapshot: seq<string>, now: string, saved: bool)
    | StartupNote(note: string, now: string, saved: bool)
    | Diverged(diverged: bool, actualJobId: Option<string>, now: string, saved: bool)
    | Restart

  datatype Copies = Copies(mem: CiJobRecord, disk: CiJobRecord)

  function Happen(c: Copies, e: Event): Copies {
    match e
    case Restart => Copies(c.disk, c.disk)
    case _ =>
      var mem := match e
        case Tailed(s, now, _) => Pass(c.mem, s).(updatedAt := now)
        case StartupNote(note, now, _) => c.mem.(lastError := Some(note), updatedAt := now)
        case Diverged(d, id, now, _) => c.mem.(diverged := d, actualJobId := id, updatedAt := now);
      Copies(mem, if e.saved then mem else c.disk)
  }

  function Run(c: Copies, events: seq<Event>): Copies {
    if events == [] then c
    else Happen(Run(c, events[..|events| - 1]), events[|events| - 1])
  }

  /** Both copies are half-advanced: the log still takes them where it takes `r`. */
  predicate Converges(c: Copies, r: CiJobRecord, log: seq<string>) {
    && View(Pass(c.mem, log)) == View(Pass(r, log))
    && View(Pass(c.disk, log)) == View(Pass(r, log))
  }

  /** In every run of tails over snapshots of one log (cut anywhere, in any order), failed
      saves, startup notes, divergence updates and restarts, one more pass over the whole
      log gives the phase and names of a single pass from the starting record. */
  lemma {:induction false} RunConverges(r: CiJobRecord, events: seq<Event>, log: seq<string>)
    requires forall e :: e in events && e.Tailed? ==> Snapshot(e.snapshot, log)
    ensures Converges(Run(Copies(r, r), events), r, log)
  {
    if events != [] {
      var init, e := events[..|events| - 1], events[|events| - 1];
      RunConverges(r, init, log);
      var c := Run(Copies(r, r), init);
      if e.Tailed? {
        assert e in events;
        ReplayView(c.mem, e.snapshot, log);
      }
    }
  }

  /** The error too, when snapshots are whole lines and no startup note was written. */
  lemma {:induction false} RunConvergesWithError(r: CiJobRecord, events: seq<Event>, log: seq<string>)
    requires forall e :: e in events ==> !e.StartupNote? && (e.Tailed? ==> e.snapshot <= log)
    ensures var c := Run(Copies(r, r), events);
            && Pass(c.mem, log).lastError == Pass(r, log).lastError
            && Pass(c.disk, log).lastError == Pass(r, log).lastError
  {
    if events != [] {
      var init, e := events[..|events| - 1], events[|events| - 1];
      RunConvergesWithError(r, init, log);
      assert e in events;
      if e.Tailed? {
        FirstFailurePrefix(e.snapshot, log);
      }
    }
  }

  /** A terminal phase stays terminal under every further snapshot. */
  lemma TerminalStays(r: CiJobRecord, lines: seq<string>)
    requires Terminal(r.phase)
    ensures Terminal(Pass(r, lines).phase)
  {
    VerdictTerminal(lines);
  }

  function CompletionLine(name: string, result: string): string { JOB + name + DONE + result }

  lemma CompletionLineParses(name: string, result: string)
    requires name != "" && '\n' !in name && result != "" && NoSpaces(result)
    ensures ParseJobCompleted(CompletionLine(name, result)) == Some((name, result))
  {
    var prefix: string := [];
    CompletionRoundTrip(prefix, name, result);
    assert prefix + JOB == JOB;
  }

  lemma CutCompletion(name: string, a: string, b: string)
    ensures CompletionLine(name, a) <= CompletionLine(name, a + b)
  {
    assert CompletionLine(name, a + b) == CompletionLine(name, a) + b;
  }

  lemma CutLeavesError(r: CiJobRecord, cut: string, line: string)
    requires cut <= line && Failure(cut).Some? && Verdict(line) == Some(Completed)
    ensures Snapshot([cut], [line])
    ensures r.lastError.None? ==>
              && Pass(Pass(r, [cut]), [line]).phase == Completed
              && Pass(Pass(r, [cut]), [line]).lastError == Failure(cut)
              && Pass(r, [line]).lastError.None?
  {
    assert [cut][..0] == [] && [line][..0] == [];
    assert FirstFailure([]) == None;
    assert FirstFailure([cut]) == Failure(cut);
    assert FirstFailure([line]) == Failure(line) == None;
    assert Last(Verdict, [line]) == Some(Completed);
  }

  /** A snapshot cut anywhere inside the word "Succeeded" leaves an error on a job that
      succeeded. */
  lemma CutInsideResultLeavesError(r: CiJobRecord, name: string, a: string, b: string)
    requires name != "" && '\n' !in name && a != "" && b != ""
    requires NoSpaces(a + b) && EqIgnoreAsciiCase(a + b, "succeeded")
    requires r.lastError.None?
    ensures var cut, log := [CompletionLine(name, a)], [CompletionLine(name, a + b)];
            && Snapshot(cut, log)
            && Pass(Pass(r, cut), log).phase == Completed
            && Pass(Pass(r, cut), log).lastError.Some?
            && Pass(r, log).lastError.None?
  {
    assert forall i :: 0 <= i < |a| ==> (a + b)[i] == a[i];
    CompletionLineParses(name, a);
    CompletionLineParses(name, a + b);
    CutCompletion(name, a, b);
    CutLeavesError(r, CompletionLine(name, a), CompletionLine(name, a + b));
  }
}
