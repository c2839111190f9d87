/** The log as the text that `tail_and_update` reads: what an earlier read of a prefix of it
    changes. */
module LogText {
  import opened Text
  import opened Markers
  import opened Tail

  /** The cut falls between a carriage return and its newline. */
  predicate SplitsCrLf(cut: string, text: string)
    requires cut <= text
  {
    cut != "" && |cut| < |text| && cut[|cut| - 1] == '\r' && text[|cut|] == '\n'
  }

  /** The cut is empty or whole lines. */
  predicate EndsLine(cut: string) { cut != "" ==> cut[|cut| - 1] == '\n' }

  /** Cutting the text anywhere but between a carriage return and its newline gives a
      `Snapshot`; cutting it at a line end gives whole lines. */
  lemma {:induction false} CutIsSnapshot(cut: string, text: string)
    requires cut <= text && !SplitsCrLf(cut, text)
    ensures Snapshot(Lines(cut), Lines(text))
    ensures EndsLine(cut) ==> Lines(cut) <= Lines(text)
    decreases |text|
  {
    if cut != "" {
      if |cut| <= LineEnd(text) {
        CutInFirstLine(cut, text);
      } else {
        var head, tail, rest := CutBehind(cut, text);
        CutIsSnapshot(rest, tail);
        SnapshotCons(StripCr(head), Lines(rest), Lines(tail));
      }
    }
  }

  lemma CutInFirstLine(cut: string, text: string)
    requires cut != "" && cut <= text && |cut| <= LineEnd(text) && !SplitsCrLf(cut, text)
    ensures Lines(cut) == [cut] && Lines(text) != [] && cut <= Lines(text)[0]
    ensures cut[|cut| - 1] != '\n'
  {
    assert cut == text[..LineEnd(text)][..|cut|];
    assert forall i :: 0 <= i < |cut| ==> cut[i] == text[..LineEnd(text)][i];
    LineEndUnique(cut, |cut|);
  }

  lemma CutBehind(cut: string, text: string) returns (head: string, tail: string, rest: string)
    requires cut <= text && LineEnd(text) < |cut| && !SplitsCrLf(cut, text)
    ensures |tail| < |text| && rest <= tail && !SplitsCrLf(rest, tail)
    ensures EndsLine(rest) <==> EndsLine(cut)
    ensures Lines(text) == [StripCr(head)] + Lines(tail)
    ensures Lines(cut) == [StripCr(head)] + Lines(rest)
  {
    var k := LineEnd(text);
    head, tail, rest := text[..k], text[k + 1..], cut[k + 1..];
    assert text == head + "\n" + tail;
    assert cut == head + "\n" + rest;
    LinesCons(head, tail);
    LinesCons(head, rest);
  }

  lemma LinesCons(head: string, tail: string)
    requires '\n' !in head
    ensures Lines(head + "\n" + tail) == [StripCr(head)] + Lines(tail)
  {
    var s := head + "\n" + tail;
    assert s[..|head|] == head;
    LineEndUnique(s, |head|);
    assert s[|head| + 1..] == tail;
  }

  lemma SnapshotCons(line: string, s: seq<string>, log: seq<string>)
    requires Snapshot(s, log)
    ensures Snapshot([line] + s, [line] + log)
    ensures s <= log ==> [line] + s <= [line] + log
  {
  }

  // ---- a text whose last line is not finished ----

  /** The lines with something more behind the last. */
  function Extended(lines: seq<string>, tail: string): seq<string>
    requires lines != []
  {
    lines[..|lines| - 1] + [lines[|lines| - 1] + tail]
  }

  /** The lines with the last one finished. */
  function Finished(lines: seq<string>): seq<string>
    requires lines != []
  {
    lines[..|lines| - 1] + [StripCr(lines[|lines| - 1])]
  }

  lemma OneLine(s: string)
    requires s != "" && '\n' !in s
    ensures Lines(s) == [s] && Lines(s + "\n") == [StripCr(s)]
  {
    LineEndUnique(s, |s|);
    LinesCons(s, "");
    assert s + "\n" + "" == s + "\n";
  }

  /** Text without a newline goes into the last line, and a newline finishes it. */
  lemma {:induction false} LinesGrow(cut: string, tail: string)
    requires !EndsLine(cut) && '\n' !in tail
    ensures Lines(cut) != [] && Lines(cut + tail) == Extended(Lines(cut), tail)
    ensures Lines(cut + "\n") == Finished(Lines(cut))
    decreases |cut|
  {
    var k := LineEnd(cut);
    if k == |cut| {
      assert cut[..k] == cut;
      OneLine(cut);
      OneLine(cut + tail);
    } else {
      var head, rest := cut[..k], cut[k + 1..];
      assert cut == head + "\n" + rest;
      assert cut + tail == head + "\n" + (rest + tail);
      assert cut + "\n" == head + "\n" + (rest + "\n");
      LinesGrow(rest, tail);
      LinesCons(head, rest);
      LinesCons(head, rest + tail);
      LinesCons(head, rest + "\n");
      ConsGrows(StripCr(head), Lines(rest), tail);
    }
  }

  lemma ConsGrows(line: string, lines: seq<string>, tail: string)
    requires lines != []
    ensures Extended([line] + lines, tail) == [line] + Extended(lines, tail)
    ensures Finished([line] + lines) == [line] + Finished(lines)
  {
  }

  lemma {:induction false} LinesHaveNoNewlines(text: string)
    ensures NoNewlines(Lines(text))
    decreases |text|
  {
    if text != "" {
      var k := LineEnd(text);
      if k == |text| {
        assert text[..k] == text;
      } else {
        LinesHaveNoNewlines(text[k + 1..]);
      }
    }
  }

  // ---- cuts between a carriage return and its newline ----

  /** A name that only the carriage return makes: the line ends in the marker itself. */
  predicate NamedByCr(line: string) { JobNamed(line).None? && JobNamed(line + CR).Some? }

  lemma JobNamedCr(line: string)
    requires '\n' !in line
    ensures !NamedByCr(line) ==> JobNamed(line + CR) == JobNamed(line)
    ensures NamedByCr(line) ==>
              JobNamed(line + CR).value == "" && |RUNNING| <= |line| && At(line, |line| - |RUNNING|, RUNNING)
  {
    CompletedCr(line);
    RunningJobCr(line);
  }

  lemma RunningMarkedCr(line: string)
    ensures RunningMarked(line + CR) == RunningMarked(line)
  {
    ListeningCr(line);
    RunningJobIsRunning(line);
    RunningJobIsRunning(line + CR);
  }

  lemma VerdictCr(line: string)
    ensures Verdict(line + CR) == Verdict(line) && Failure(line + CR) == Failure(line)
  {
    CompletedCr(line);
  }

  /** Nothing but that name depends on a carriage return behind the line. */
  lemma LineCr(r: CiJobRecord, line: string)
    requires '\n' !in line
    ensures var with, without := LineStep(r, line + CR), LineStep(r, line);
            with == without.(actualJobName := if NamedByCr(line) then JobNamed(line + CR) else without.actualJobName)
  {
    VerdictCr(line);
    RegisteredCr(line);
    ListeningCr(line);
    RunningMarkedCr(line);
    JobNamedCr(line);
  }

  /** A pass over a last line with its carriage return still on. */
  lemma PassCr(r: CiJobRecord, init: seq<string>, line: string)
    requires '\n' !in line
    ensures var with, without := Pass(r, init + [line + CR]), Pass(r, init + [line]);
            with == without.(actualJobName := if NamedByCr(line) then JobNamed(line + CR) else without.actualJobName)
  {
    PassSteps(r, init + [line + CR]);
    PassSteps(r, init + [line]);
    assert (init + [line + CR])[..|init|] == init && (init + [line])[..|init|] == init;
    LineCr(Pass(r, init), line);
  }

  /** The line that the cut leaves open. */
  function LastLine(cut: string): string
    requires cut != ""
  {
    var lines := Lines(cut);
    lines[|lines| - 1]
  }

  predicate EndsIn(s: string, c: char) { s != "" && s[|s| - 1] == c }

  lemma {:induction false} LastChar(cut: string, c: char)
    requires EndsIn(cut, c) && c != '\n'
    ensures EndsIn(LastLine(cut), c)
    decreases |cut|
  {
    var k := LineEnd(cut);
    if k == |cut| {
      assert cut[..k] == cut;
      OneLine(cut);
    } else {
      var head, rest := BreakLine(cut, c);
      LastChar(rest, c);
      LastLineCons(head, rest);
    }
  }

  lemma BreakLine(cut: string, c: char) returns (head: string, rest: string)
    requires EndsIn(cut, c) && c != '\n' && LineEnd(cut) < |cut|
    ensures cut == head + "\n" + rest && '\n' !in head && EndsIn(rest, c) && |rest| < |cut|
  {
    head, rest := cut[..LineEnd(cut)], cut[LineEnd(cut) + 1..];
  }

  lemma LastLineCons(head: string, rest: string)
    requires '\n' !in head && rest != ""
    ensures LastLine(head + "\n" + rest) == LastLine(rest)
  {
    LinesCons(head, rest);
  }

  /** A cut in front of a newline has that line whole, but for its carriage return. */
  lemma OpenLineCr(cut: string, text: string)
    requires cut <= text && SplitsCrLf(cut, text)
    ensures var lines, line := Lines(cut), StripCr(LastLine(cut));
            && '\n' !in line && line + CR == LastLine(cut)
            && lines[..|lines| - 1] + [line] <= Lines(text)
  {
    FinishedLines(cut, text);
    LastChar(cut, '\r');
    LinesHaveNoNewlines(cut);
    StripBack(LastLine(cut));
  }

  lemma FinishedLines(cut: string, text: string)
    requires cut <= text && SplitsCrLf(cut, text)
    ensures Finished(Lines(cut)) <= Lines(text)
  {
    var whole := cut + "\n";
    CutIsSnapshot(whole, text);
    LinesGrow(cut, "");
  }

  lemma StripBack(line: string)
    requires EndsIn(line, '\r')
    ensures StripCr(line) + CR == line && ('\n' !in line ==> '\n' !in StripCr(line))
  {
  }

  // ---- the theorems ----

  /** The name that an earlier read leaves is wrong: the cut came between the carriage return
      and the newline of a line that ends in the marker itself, and the whole log names no
      job. */
  predicate LeavesName(r: CiJobRecord, cut: string, text: string)
    requires cut <= text
  {
    && SplitsCrLf(cut, text) && NamedByCr(StripCr(LastLine(cut)))
    && Last(JobNamed, Lines(text)).None? && r.actualJobName != Some("")
  }

  /** Reading any prefix of the text first changes neither phase nor runner of the full pass;
      the job name only in the one case above; and nothing at all at a line end. */
  lemma ReplayText(r: CiJobRecord, cut: string, text: string)
    requires cut <= text
    ensures var twice, once := Pass(Pass(r, Lines(cut)), Lines(text)), Pass(r, Lines(text));
            && twice.phase == once.phase && twice.runnerName == once.runnerName
            && (twice.actualJobName == once.actualJobName <==> !LeavesName(r, cut, text))
            && (SplitsCrLf(cut, text) ==> twice.lastError == once.lastError)
            && (EndsLine(cut) ==> twice == once)
  {
    if SplitsCrLf(cut, text) {
      OpenLineCr(cut, text);
      var lines, line := Lines(cut), StripCr(LastLine(cut));
      assert lines == lines[..|lines| - 1] + [line + CR];
      ReplayCr(r, lines[..|lines| - 1], line, Lines(text));
    } else {
      CutIsSnapshot(cut, text);
      ReplayView(r, Lines(cut), Lines(text));
      if EndsLine(cut) {
        Replay(r, Lines(cut), Lines(text));
      }
    }
  }

  lemma ReplayCr(r: CiJobRecord, init: seq<string>, line: string, log: seq<string>)
    requires '\n' !in line && init + [line] <= log
    ensures var twice, once := Pass(Pass(r, init + [line + CR]), log), Pass(r, log);
            && twice == once.(actualJobName := twice.actualJobName)
            && (twice.actualJobName == once.actualJobName <==>
                !(NamedByCr(line) && Last(JobNamed, log).None? && r.actualJobName != Some("")))
  {
    PassCr(r, init, line);
    Replay(r, init + [line], log);
    if NamedByCr(line) {
      JobNamedCr(line);
      NoneBefore(init + [line], log);
    }
  }

  lemma NoneBefore(s: seq<string>, log: seq<string>)
    requires s <= log
    ensures Last(JobNamed, log).None? ==> Last(JobNamed, s).None?
  {
    assert Snapshot(s, log);
    JobNamedInLog(s, log);
  }

  /** Whatever the text turns out to be, the error that an earlier read left is its own. */
  ghost predicate TextErrorIsFinal(r: CiJobRecord, cut: string) {
    forall text | cut <= text :: Pass(Pass(r, Lines(cut)), Lines(text)).lastError == Pass(r, Lines(text)).lastError
  }

  /** The error that a read of a growing log leaves is right for every text the log may
      become, if and only if an error was recorded already, or the read ended at a line end,
      or a line in front of the open one shows a failure, or the open one shows none: only a
      failure in an open line may still become a success. */
  lemma StickyError(r: CiJobRecord, cut: string)
    ensures TextErrorIsFinal(r, cut) <==> EndsLine(cut) || ErrorIsSafe(r, Lines(cut))
  {
    LinesHaveNoNewlines(cut);
    if !EndsLine(cut) && !ErrorIsSafe(r, Lines(cut)) {
      HealingText(r, cut);
    } else {
      forall text | cut <= text
        ensures Pass(Pass(r, Lines(cut)), Lines(text)).lastError == Pass(r, Lines(text)).lastError
      {
        ReplayText(r, cut, text);
        if !EndsLine(cut) && !SplitsCrLf(cut, text) {
          CutIsSnapshot(cut, text);
          LinesHaveNoNewlines(text);
          StickyLines(r, Lines(cut));
        }
      }
    }
  }

  lemma HealingText(r: CiJobRecord, cut: string)
    requires !EndsLine(cut) && !ErrorIsSafe(r, Lines(cut))
    ensures var text := cut + (DONE + SUCCEEDED);
            cut <= text && Pass(Pass(r, Lines(cut)), Lines(text)).lastError != Pass(r, Lines(text)).lastError
  {
    var s := Lines(cut);
    var n := |s| - 1;
    LinesHaveNoNewlines(cut);
    SolidSuccess();
    LinesGrow(cut, DONE + SUCCEEDED);
    var log := s[..n] + [s[n] + DONE + SUCCEEDED];
    assert s[n] + DONE + SUCCEEDED == s[n] + (DONE + SUCCEEDED);
    assert log == Extended(s, DONE + SUCCEEDED);
    Healing(s, log);
    assert log[..n] == s[..n];
  }
}
