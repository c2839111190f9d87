/** What a pass over a log leaves in the record, said by the lines of the log alone. */
module LogMeaning {
  import opened Text
  import opened Markers
  import opened Tail

  /** The literal parts of the markers. */
  lemma MarkerTexts()
    ensures REGISTERED == "Runner registered: " && LISTENING == "Listening for Jobs" && RUNNING == "Running job: "
    ensures JOB == "Job " && DONE == " completed with result: "
  {
  }

  /** `P` holds of line `i` and of no later one. */
  ghost predicate LastOne(p: string -> bool, lines: seq<string>, i: nat) {
    i < |lines| && p(lines[i]) && forall k :: i < k < |lines| ==> !p(lines[k])
  }

  predicate Nowhere(p: string -> bool, lines: seq<string>) { forall k :: 0 <= k < |lines| ==> !p(lines[k]) }

  predicate Registers(line: string) { ParseRunnerRegistered(line).Some? }

  predicate Completes(line: string) { ParseJobCompleted(line).Some? }

  predicate RunsOrListens(line: string) { IsRunningJob(line) || IsListeningForJobs(line) }

  predicate NamesJob(line: string) { ParseJobCompleted(line).Some? || ParseRunningJob(line).Some? }

  predicate Succeeds(line: string) {
    Completes(line) && EqIgnoreAsciiCase(ParseJobCompleted(line).value.1, "succeeded")
  }

  predicate Fails(line: string) { Completes(line) && !Succeeds(line) }

  lemma {:induction false} LastIs<T>(f: string -> Option<T>, lines: seq<string>, i: nat)
    requires i < |lines| && f(lines[i]).Some? && forall k :: i < k < |lines| ==> f(lines[k]).None?
    ensures Last(f, lines) == f(lines[i])
  {
    if i < |lines| - 1 {
      LastIs(f, lines[..|lines| - 1], i);
    }
  }

  lemma LastNone<T>(f: string -> Option<T>, lines: seq<string>)
    requires forall k :: 0 <= k < |lines| ==> f(lines[k]).None?
    ensures Last(f, lines).None?
  {
    LastSomeIff(f, lines);
  }

  /** The result word is compared without regard to the case of ASCII letters. */
  lemma IgnoresCaseIff(s: string, t: string)
    ensures EqIgnoreAsciiCase(s, t) <==> |s| == |t| && forall i :: 0 <= i < |s| ==> SameLetter(s[i], t[i])
  {
  }

  predicate SameLetter(c: char, d: char) {
    c == d || ('A' <= c <= 'Z' && d as int == c as int + 32) || ('A' <= d <= 'Z' && c as int == d as int + 32)
  }

  // ---- phase ----

  /** The last completion decides, whatever the phase was and whatever else the log says. */
  lemma CompletionDecides(r: CiJobRecord, lines: seq<string>, i: nat)
    requires LastOne(Completes, lines, i)
    ensures Pass(r, lines).phase == if Succeeds(lines[i]) then Completed else Failed
  {
    LastIs(Verdict, lines, i);
  }

  lemma NoVerdict(lines: seq<string>)
    requires Nowhere(Completes, lines)
    ensures Last(Verdict, lines).None?
  {
    LastNone(Verdict, lines);
  }

  lemma LiveStepIs(phase: Phase, line: string)
    ensures IsRunningJob(line) ==> LiveStep(phase, line) == Running
    ensures !IsRunningJob(line) && IsListeningForJobs(line) ==> LiveStep(phase, line) == Listening
    ensures !RunsOrListens(line) ==>
              LiveStep(phase, line) == if Registers(line) && phase != Running then Registered else phase
  {
    RunningJobIsRunning(line);
  }

  /** Some runner registers behind line `i`. */
  predicate RegistersAfter(lines: seq<string>, i: nat) { exists k :: i < k < |lines| && Registers(lines[k]) }

  lemma RegistersAfterInit(lines: seq<string>, i: nat)
    requires i < |lines| - 1
    ensures RegistersAfter(lines, i) <==> RegistersAfter(lines[..|lines| - 1], i) || Registers(lines[|lines| - 1])
  {
    var init := lines[..|lines| - 1];
    assert forall k :: 0 <= k < |init| ==> init[k] == lines[k];
  }

  /** The phase that the last running or listening line leads to. */
  predicate Decides(phase: Phase, running: bool, registersAfter: bool) {
    phase == if running then Running else if registersAfter then Registered else Listening
  }

  lemma DecidesStep(phase: Phase, running: bool, registersAfter: bool, line: string)
    requires Decides(phase, running, registersAfter) && !RunsOrListens(line)
    ensures Decides(LiveStep(phase, line), running, registersAfter || Registers(line))
  {
    LiveStepIs(phase, line);
  }

  lemma DecidesHere(phase: Phase, line: string)
    requires RunsOrListens(line)
    ensures Decides(LiveStep(phase, line), IsRunningJob(line), false)
  {
    LiveStepIs(phase, line);
  }

  lemma {:induction false} LiveAfter(phase: Phase, lines: seq<string>, i: nat)
    requires LastOne(RunsOrListens, lines, i)
    ensures Decides(LivePhase(phase, lines), IsRunningJob(lines[i]), RegistersAfter(lines, i))
  {
    var n := |lines| - 1;
    var init, line := lines[..n], lines[n];
    if i < n {
      LiveAfter(phase, init, i);
      RegistersAfterInit(lines, i);
      DecidesStep(LivePhase(phase, init), IsRunningJob(lines[i]), RegistersAfter(init, i), line);
    } else {
      DecidesHere(LivePhase(phase, init), line);
    }
  }

  lemma {:induction false} LiveBefore(phase: Phase, lines: seq<string>)
    requires Nowhere(RunsOrListens, lines)
    ensures LivePhase(phase, lines) == if phase == Running || Nowhere(Registers, lines) then phase else Registered
  {
    if lines != [] {
      var n := |lines| - 1;
      LiveBefore(phase, lines[..n]);
      LiveStepIs(LivePhase(phase, lines[..n]), lines[n]);
      assert Nowhere(Registers, lines) <==> Nowhere(Registers, lines[..n]) && !Registers(lines[n]);
    }
  }

  /** Without a completion a terminal phase stays, and otherwise the last running or listening
      line decides: running, or listening until a runner registers again. */
  lemma MarkerDecides(r: CiJobRecord, lines: seq<string>, i: nat)
    requires !Terminal(r.phase) && Nowhere(Completes, lines) && LastOne(RunsOrListens, lines, i)
    ensures Pass(r, lines).phase ==
            if IsRunningJob(lines[i]) then Running
            else if RegistersAfter(lines, i) then Registered
            else Listening
  {
    NoVerdict(lines);
    LiveAfter(r.phase, lines, i);
  }

  /** Without such a line either, a registration is all there is. */
  lemma RegistrationDecides(r: CiJobRecord, lines: seq<string>)
    requires Nowhere(Completes, lines) && (Terminal(r.phase) || Nowhere(RunsOrListens, lines))
    ensures Pass(r, lines).phase ==
            if Terminal(r.phase) || r.phase == Running || Nowhere(Registers, lines) then r.phase else Registered
  {
    NoVerdict(lines);
    if !Terminal(r.phase) {
      LiveBefore(r.phase, lines);
    }
  }

  // ---- names and error ----

  /** The last registration names the runner, and the last completion or running line the
      job. */
  lemma LastNames(r: CiJobRecord, lines: seq<string>, i: nat)
    ensures LastOne(Registers, lines, i) ==> Pass(r, lines).runnerName == ParseRunnerRegistered(lines[i])
    ensures Nowhere(Registers, lines) ==> Pass(r, lines).runnerName == r.runnerName
    ensures LastOne(NamesJob, lines, i) ==>
              Pass(r, lines).actualJobName ==
              if Completes(lines[i]) then Some(ParseJobCompleted(lines[i]).value.0) else ParseRunningJob(lines[i])
    ensures Nowhere(NamesJob, lines) ==> Pass(r, lines).actualJobName == r.actualJobName
  {
    if LastOne(Registers, lines, i) { LastIs(ParseRunnerRegistered, lines, i); }
    if Nowhere(Registers, lines) { LastNone(ParseRunnerRegistered, lines); }
    if LastOne(NamesJob, lines, i) { LastIs(JobNamed, lines, i); }
    if Nowhere(NamesJob, lines) { LastNone(JobNamed, lines); }
  }

  /** An error that was recorded stays; otherwise the first failed completion is reported. */
  lemma FirstFailureReported(r: CiJobRecord, lines: seq<string>, i: nat)
    ensures r.lastError.Some? || Nowhere(Fails, lines) ==> Pass(r, lines).lastError == r.lastError
    ensures r.lastError.None? && i < |lines| && Fails(lines[i]) && Nowhere(Fails, lines[..i]) ==>
              var (name, result) := ParseJobCompleted(lines[i]).value;
              Pass(r, lines).lastError == Some("job " + name + " completed with result: " + result)
  {
    if Nowhere(Fails, lines) { NoFailure(lines); }
    if i < |lines| && Fails(lines[i]) && Nowhere(Fails, lines[..i]) {
      NoFailure(lines[..i]);
      assert lines[..i + 1][..i] == lines[..i];
      FirstFailurePrefix(lines[..i + 1], lines);
    }
  }

  lemma {:induction false} NoFailure(lines: seq<string>)
    requires Nowhere(Fails, lines)
    ensures FirstFailure(lines).None?
  {
    if lines != [] {
      NoFailure(lines[..|lines| - 1]);
    }
  }
}
