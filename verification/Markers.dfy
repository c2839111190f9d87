/** The runner-log marker parsers (`LifecycleMarkers`): leftmost-greedy regular
    expressions over one log line. */
module Markers {
  import opened Text

  const REGISTERED := "Runner registered: "
  const LISTENING := "Listening for Jobs"
  const RUNNING := "Running job: "
  const JOB := "Job "
  const DONE := " completed with result: "

  /** What must follow a literal: nothing, one `\S`, or one `.`. */
  datatype Follow = Anything | NonSpace | NonNewline

  predicate MatchesAt(s: string, i: nat, lit: string, f: Follow) {
    && At(s, i, lit)
    && (f.Anything? ||
        (i + |lit| < |s| && if f.NonSpace? then !IsSpace(s[i + |lit|]) else s[i + |lit|] != '\n'))
  }

  /** Leftmost match at or after `i`. */
  function Leftmost(s: string, i: nat, lit: string, f: Follow): (r: Option<nat>)
    requires i <= |s|
    ensures r.Some? ==> i <= r.value <= |s| && MatchesAt(s, r.value, lit, f)
    ensures r.Some? ==> forall k: nat :: i <= k < r.value ==> !MatchesAt(s, k, lit, f)
    ensures r.None? ==> forall k: nat :: i <= k ==> !MatchesAt(s, k, lit, f)
    decreases |s| - i
  {
    if MatchesAt(s, i, lit, f) then Some(i)
    else if i == |s| then None
    else Leftmost(s, i + 1, lit, f)
  }

  /** Length of the longest run of `\S` from the start. */
  function SolidRun(s: string): (k: nat)
    ensures k <= |s| && NoSpaces(s[..k]) && (k < |s| ==> IsSpace(s[k]))
  {
    if s == "" || IsSpace(s[0]) then 0 else
      var k := SolidRun(s[1..]);
      assert forall i :: 1 <= i < k + 1 ==> s[i] == s[1..][..k][i - 1];
      k + 1
  }

  lemma SolidRunAll(s: string)
    requires NoSpaces(s)
    ensures s[..SolidRun(s)] == s
  {
  }

  predicate IsListeningForJobs(line: string) { Leftmost(line, 0, LISTENING, Anything).Some? }

  predicate IsRunningJob(line: string) { Leftmost(line, 0, RUNNING, Anything).Some? }

  /** What `capture` takes behind the leftmost match. */
  function After(line: string, lit: string, f: Follow, capture: (string, nat) -> string): Option<string> {
    match Leftmost(line, 0, lit, f)
    case None => None
    case Some(i) => Some(capture(line, i + |lit|))
  }

  /** `(\S+)`, from `i` on. */
  function SolidFrom(line: string, i: nat): string {
    if i > |line| then "" else
      var rest := line[i..];
      rest[..SolidRun(rest)]
  }

  function ParseRunnerRegistered(line: string): Option<string> { After(line, REGISTERED, NonSpace, SolidFrom) }

  /** `(.+)`, trimmed. */
  function TrimmedFrom(line: string, i: nat): string {
    if i > |line| then "" else
      var rest := line[i..];
      Trim(rest[..LineEnd(rest)])
  }

  function ParseRunningJob(line: string): Option<string> { After(line, RUNNING, NonNewline, TrimmedFrom) }

  predicate IsExited(line: string) {
    || Leftmost(line, 0, "Exiting runner...", Anything).Some?
    || Leftmost(line, 0, "Runner listener exit with", Anything).Some?
    || Leftmost(line, 0, "Runner listener exit", Anything).Some?
  }

  // ---- Job (.+) completed with result: (\S+) ----

  /** The expression matches with "Job " at `i` and the capture `(.+)` ending at `j`. */
  predicate CompletionAt(s: string, i: nat, j: nat) {
    && At(s, i, JOB)
    && i + |JOB| < j
    && MatchesAt(s, j, DONE, NonSpace)
    && '\n' !in s[i + |JOB|..j]
  }

  /** Greedy `(.+)` : the rightmost admissible end at or before `j`. */
  function Rightmost(s: string, i: nat, j: nat): (r: Option<nat>)
    ensures r.Some? ==> r.value <= j && CompletionAt(s, i, r.value)
    ensures r.Some? ==> forall k :: r.value < k <= j ==> !CompletionAt(s, i, k)
    ensures r.None? ==> forall k :: 0 <= k <= j ==> !CompletionAt(s, i, k)
  {
    if CompletionAt(s, i, j) then Some(j) else if j == 0 then None else Rightmost(s, i, j - 1)
  }

  /** Leftmost start that admits a match, with its greedy end. */
  function FindCompletion(s: string, i: nat): (r: Option<(nat, nat)>)
    requires i <= |s|
    ensures r.Some? ==> i <= r.value.0 && CompletionAt(s, r.value.0, r.value.1)
    ensures r.Some? ==> forall k :: r.value.1 < k ==> !CompletionAt(s, r.value.0, k)
    ensures r.Some? ==> forall a, b :: i <= a < r.value.0 ==> !CompletionAt(s, a, b)
    ensures r.None? ==> forall a, b :: i <= a ==> !CompletionAt(s, a, b)
    decreases |s| - i
  {
    match Rightmost(s, i, |s|)
    case Some(j) => Some((i, j))
    case None => if i == |s| then None else FindCompletion(s, i + 1)
  }

  function ParseJobCompleted(line: string): Option<(string, string)> {
    match FindCompletion(line, 0)
    case None => None
    case Some((i, j)) => Some((line[i + |JOB|..j], SolidFrom(line, j + |DONE|)))
  }

  /** A completion line parses back to the job name and result it was made from,
      even when the name itself contains the separator. */
  lemma CompletionRoundTrip(prefix: string, name: string, result: string)
    requires '\n' !in prefix && forall i :: !At(prefix, i, JOB)
    requires name != "" && '\n' !in name
    requires result != "" && NoSpaces(result)
    ensures ParseJobCompleted(prefix + JOB + name + DONE + result) == Some((name, result))
  {
    var i, j := |prefix|, |prefix| + |JOB| + |name|;
    CompletionPresent(prefix, name, result);
    NoEarlierCompletion(prefix, name, result);
    NoLaterCompletion(prefix + JOB + name, result, i);
    ParsesAt(prefix + JOB + name + DONE + result, i, j, name, result);
  }

  lemma ParsesAt(line: string, i: nat, j: nat, name: string, result: string)
    requires i <= |line| && CompletionAt(line, i, j)
    requires forall a, b :: 0 <= a < i ==> !CompletionAt(line, a, b)
    requires forall k :: j < k ==> !CompletionAt(line, i, k)
    requires line[i + |JOB|..j] == name && line[j + |DONE|..] == result && NoSpaces(result)
    ensures ParseJobCompleted(line) == Some((name, result))
  {
    FindCompletionIs(line, i, j);
    SolidRunAll(result);
  }

  lemma NoEarlierCompletion(prefix: string, name: string, result: string)
    requires forall i :: !At(prefix, i, JOB)
    ensures forall a, b :: 0 <= a < |prefix| ==> !CompletionAt(prefix + JOB + name + DONE + result, a, b)
  {
    var rest := name + DONE + result;
    assert prefix + JOB + name + DONE + result == prefix + JOB + rest;
    forall a, b | 0 <= a < |prefix| ensures !CompletionAt(prefix + JOB + rest, a, b) {
      NoEarlierJob(prefix, rest, a);
    }
  }

  lemma NoLaterCompletion(head: string, result: string, i: nat)
    requires NoSpaces(result)
    ensures forall k :: |head| < k ==> !CompletionAt(head + DONE + result, i, k)
  {
    forall k | |head| < k ensures !CompletionAt(head + DONE + result, i, k) {
      NoLaterDone(head, result, k);
    }
  }

  lemma FindCompletionIs(s: string, i: nat, j: nat)
    requires i <= |s| && CompletionAt(s, i, j)
    requires forall a, b :: 0 <= a < i ==> !CompletionAt(s, a, b)
    requires forall k :: j < k ==> !CompletionAt(s, i, k)
    ensures FindCompletion(s, 0) == Some((i, j))
  {
    var r := FindCompletion(s, 0);
    assert r.Some?;
    var (a, b) := r.value;
    assert CompletionAt(s, a, b);
    assert a == i;
    assert b == j;
  }

  /** Where the pieces of a line lie, whatever the two literals are. */
  lemma PiecesPresent(prefix: string, job: string, name: string, done: string, result: string)
    requires result != ""
    ensures var line, i, j := prefix + job + name + done + result, |prefix|, |prefix| + |job| + |name|;
            && At(line, i, job) && At(line, j, done)
            && line[i + |job|..j] == name
            && j + |done| < |line| && line[j + |done|] == result[0]
            && line[j + |done|..] == result
  {
    AtMiddle(prefix, job, name + done + result);
    assert prefix + job + name + done + result == prefix + job + (name + done + result);
    AtMiddle(prefix + job + name, done, result);
  }

  lemma CompletionPresent(prefix: string, name: string, result: string)
    requires name != "" && '\n' !in name
    requires result != "" && NoSpaces(result)
    ensures var line := prefix + JOB + name + DONE + result;
            && CompletionAt(line, |prefix|, |prefix| + |JOB| + |name|)
            && line[|prefix| + |JOB|..|prefix| + |JOB| + |name|] == name
            && line[|prefix| + |JOB| + |name| + |DONE|..] == result
  {
    PiecesPresent(prefix, JOB, name, DONE, result);
  }

  lemma NoEarlierJob(prefix: string, rest: string, a: nat)
    requires forall i :: !At(prefix, i, JOB)
    requires a < |prefix|
    ensures !At(prefix + JOB + rest, a, JOB)
  {
    var line := prefix + JOB + rest;
    assert line[|prefix|] == JOB[0];
    if At(line, a, JOB) {
      if a + |JOB| <= |prefix| {
        AtShrinks(prefix, line, a, JOB);
      } else {
        AtChar(line, a, JOB, |prefix| - a);
      }
    }
  }

  lemma NoLaterDone(head: string, result: string, k: nat)
    requires NoSpaces(result) && |head| < k
    ensures !At(head + DONE + result, k, DONE)
  {
    var line := head + DONE + result;
    assert line[|head| + |DONE|..] == result;
    if At(line, k, DONE) {
      AtChar(line, k, DONE, |DONE| - 1);
    }
  }

  // ---- the other markers ----

  lemma AfterIs(prefix: string, lit: string, rest: string, f: Follow, capture: (string, nat) -> string)
    requires lit != "" && MatchesAt(prefix + lit + rest, |prefix|, lit, f)
    requires forall i :: 0 <= i < |prefix| ==> !At(prefix + lit, i, lit)
    ensures After(prefix + lit + rest, lit, f, capture) == Some(capture(prefix + lit + rest, |prefix| + |lit|))
  {
    var line := prefix + lit + rest;
    forall i: nat | i < |prefix| ensures !MatchesAt(line, i, lit, f) {
      if At(line, i, lit) {
        AtShrinks(prefix + lit, line, i, lit);
      }
    }
    var r := Leftmost(line, 0, lit, f);
    assert r.Some? && r.value == |prefix|;
  }

  lemma MatchesBehind(prefix: string, lit: string, rest: string, f: Follow)
    requires rest != "" && (f.NonSpace? ==> !IsSpace(rest[0])) && (f.NonNewline? ==> rest[0] != '\n')
    ensures MatchesAt(prefix + lit + rest, |prefix|, lit, f)
    ensures (prefix + lit + rest)[|prefix| + |lit|..] == rest
  {
    AtMiddle(prefix, lit, rest);
  }

  lemma {:induction false} SolidRunIs(name: string, tail: string)
    requires NoSpaces(name) && (tail != "" ==> IsSpace(tail[0]))
    ensures (name + tail)[..SolidRun(name + tail)] == name
  {
    if name != "" {
      SolidRunIs(name[1..], tail);
      assert (name + tail)[1..] == name[1..] + tail;
    } else {
      assert name + tail == tail;
    }
  }

  /** A registration line gives the runner's name, up to the next white space. */
  lemma RegisteredRoundTrip(prefix: string, name: string, tail: string)
    requires forall i :: 0 <= i < |prefix| ==> !At(prefix + REGISTERED, i, REGISTERED)
    requires name != "" && NoSpaces(name) && (tail != "" ==> IsSpace(tail[0]))
    ensures ParseRunnerRegistered(prefix + REGISTERED + (name + tail)) == Some(name)
  {
    MatchesBehind(prefix, REGISTERED, name + tail, NonSpace);
    AfterIs(prefix, REGISTERED, name + tail, NonSpace, SolidFrom);
    SolidRunIs(name, tail);
  }

  /** A running line gives the job's name, up to the end of the line, trimmed. */
  lemma RunningJobRoundTrip(prefix: string, name: string)
    requires forall i :: 0 <= i < |prefix| ==> !At(prefix + RUNNING, i, RUNNING)
    requires name != "" && '\n' !in name
    ensures ParseRunningJob(prefix + RUNNING + name) == Some(Trim(name))
    ensures IsRunningJob(prefix + RUNNING + name)
  {
    MatchesBehind(prefix, RUNNING, name, NonNewline);
    AfterIs(prefix, RUNNING, name, NonNewline, TrimmedFrom);
    TrimmedIs(prefix + RUNNING + name, |prefix| + |RUNNING|, name);
    RunningJobIsRunning(prefix + RUNNING + name);
  }

  lemma RunningJobIsRunning(line: string)
    ensures ParseRunningJob(line).Some? ==> IsRunningJob(line)
  {
    var r := Leftmost(line, 0, RUNNING, NonNewline);
    if r.Some? {
      assert MatchesAt(line, r.value, RUNNING, Anything);
    }
  }

  // ---- a cut line never shows a marker that the whole line lacks ----

  lemma MatchExtends(s: string, t: string, lit: string, f: Follow)
    requires s <= t && Leftmost(s, 0, lit, f).Some?
    ensures Leftmost(t, 0, lit, f).Some?
  {
    var i := Leftmost(s, 0, lit, f).value;
    AtExtends(s, t, i, lit);
    assert MatchesAt(t, i, lit, f);
  }

  lemma CompletionExtends(s: string, t: string)
    requires s <= t && ParseJobCompleted(s).Some?
    ensures ParseJobCompleted(t).Some?
  {
    var (i, j) := FindCompletion(s, 0).value;
    AtExtends(s, t, i, JOB);
    AtExtends(s, t, j, DONE);
    assert t[i + |JOB|..j] == s[i + |JOB|..j];
    assert CompletionAt(t, i, j);
  }

  /** Greedy matching: a completion line that goes on with a second separator and a word
      has that word as its result. */
  lemma ResultOverwritten(line: string, word: string)
    requires '\n' !in line && ParseJobCompleted(line).Some?
    requires word != "" && NoSpaces(word)
    ensures ParseJobCompleted(line + DONE + word).Some?
    ensures ParseJobCompleted(line + DONE + word).value.1 == word
  {
    var longer := line + DONE + word;
    var i := FindCompletion(line, 0).value.0;
    AtEndOf(line, DONE, word);
    CompletionAtEnd(line, word, i);
    var (a, b) := FindCompletion(longer, 0).value;
    assert a <= i;
    CompletionAtEnd(line, word, a);
    NoLaterCompletion(line, word, a);
    assert b == |line|;
    SolidRunAll(word);
  }

  lemma AtEndOf(line: string, lit: string, word: string)
    ensures At(line + lit + word, |line|, lit) && (line + lit + word)[|line| + |lit|..] == word
  {
  }

  lemma CompletionAtEnd(line: string, word: string, i: nat)
    requires '\n' !in line && word != "" && NoSpaces(word)
    requires i + |JOB| < |line| && At(line + DONE + word, i, JOB)
    ensures CompletionAt(line + DONE + word, i, |line|)
  {
    var longer := line + DONE + word;
    AtEndOf(line, DONE, word);
    assert longer[|line| + |DONE|] == word[0];
    assert longer[i + |JOB|..|line|] == line[i + |JOB|..];
  }

  // ---- a carriage return behind a line ----

  const CR := "\r"

  lemma AtCr(s: string, i: nat, lit: string)
    requires lit != "" && lit[|lit| - 1] != '\r'
    ensures At(s + CR, i, lit) <==> At(s, i, lit)
  {
    if At(s + CR, i, lit) {
      AtChar(s + CR, i, lit, |lit| - 1);
      AtShrinks(s, s + CR, i, lit);
    }
    if At(s, i, lit) {
      AtExtends(s, s + CR, i, lit);
    }
  }

  /** It is no part of a match, unless any character may follow the literal. */
  lemma MatchesAtCr(s: string, i: nat, lit: string, f: Follow)
    requires lit != "" && lit[|lit| - 1] != '\r'
    ensures MatchesAt(s, i, lit, f) ==> MatchesAt(s + CR, i, lit, f)
    ensures MatchesAt(s + CR, i, lit, f) ==> MatchesAt(s, i, lit, f) || (f.NonNewline? && i + |lit| == |s|)
  {
    AtCr(s, i, lit);
    assert i + |lit| < |s| ==> (s + CR)[i + |lit|] == s[i + |lit|];
    assert (s + CR)[|s|] == '\r';
  }

  lemma LeftmostCr(s: string, lit: string, f: Follow)
    requires lit != "" && lit[|lit| - 1] != '\r'
    ensures Leftmost(s, 0, lit, f).Some? || !f.NonNewline? ==> Leftmost(s + CR, 0, lit, f) == Leftmost(s, 0, lit, f)
    ensures Leftmost(s + CR, 0, lit, f).Some? && Leftmost(s, 0, lit, f).None? ==>
              Leftmost(s + CR, 0, lit, f).value + |lit| == |s|
  {
    var a, b := Leftmost(s, 0, lit, f), Leftmost(s + CR, 0, lit, f);
    if a.Some? { MatchesAtCr(s, a.value, lit, f); }
    if b.Some? { MatchesAtCr(s, b.value, lit, f); }
    if a.Some? && b.Some? {
      assert a.value + |lit| <= |s|;
      assert b.value <= a.value;
    }
  }

  lemma {:induction false} SolidRunCr(s: string)
    ensures SolidRun(s + CR) == SolidRun(s)
  {
    if s != "" && !IsSpace(s[0]) {
      SolidRunCr(s[1..]);
      assert (s + CR)[1..] == s[1..] + CR;
    }
  }

  lemma SolidFromCr(s: string, i: nat)
    requires i <= |s|
    ensures SolidFrom(s + CR, i) == SolidFrom(s, i)
  {
    assert (s + CR)[i..] == s[i..] + CR;
    SolidRunCr(s[i..]);
  }

  lemma RegisteredCr(s: string)
    ensures ParseRunnerRegistered(s + CR) == ParseRunnerRegistered(s)
  {
    forall i: nat | i <= |s| ensures SolidFrom(s + CR, i) == SolidFrom(s, i) { SolidFromCr(s, i); }
    AfterCr(s, REGISTERED, NonSpace, SolidFrom);
  }

  lemma ListeningCr(s: string)
    ensures IsListeningForJobs(s + CR) == IsListeningForJobs(s) && IsRunningJob(s + CR) == IsRunningJob(s)
  {
    LeftmostCr(s, LISTENING, Anything);
    LeftmostCr(s, RUNNING, Anything);
  }

  lemma TrimCr(s: string)
    ensures Trim(s + CR) == Trim(s)
  {
    assert (s + CR)[..|s|] == s;
    assert TrimEnd(s + CR) == TrimEnd(s);
  }

  lemma WholeLine(s: string)
    requires '\n' !in s
    ensures s[..LineEnd(s)] == s
  {
    LineEndUnique(s, |s|);
  }

  lemma SuffixCr(s: string, i: nat)
    requires i <= |s|
    ensures (s + CR)[i..] == s[i..] + CR && ('\n' !in s ==> '\n' !in s[i..] && '\n' !in s[i..] + CR)
  {
  }

  lemma TrimmedIs(s: string, i: nat, rest: string)
    requires i <= |s| && s[i..] == rest && '\n' !in rest
    ensures TrimmedFrom(s, i) == Trim(rest)
  {
    WholeLine(rest);
  }

  lemma TrimmedCr(s: string, i: nat)
    requires '\n' !in s && i <= |s|
    ensures TrimmedFrom(s + CR, i) == TrimmedFrom(s, i)
  {
    SuffixCr(s, i);
    TrimmedIs(s, i, s[i..]);
    TrimmedIs(s + CR, i, s[i..] + CR);
    TrimCr(s[i..]);
  }

  lemma TrimmedEnd(s: string)
    requires '\n' !in s
    ensures TrimmedFrom(s + CR, |s|) == ""
  {
    SuffixCr(s, |s|);
    assert s[|s|..] == "";
    TrimmedIs(s + CR, |s|, "" + CR);
    TrimCr("");
  }

  /** A line that ends in the literal itself captures something only with the carriage
      return. */
  lemma AfterCr(s: string, lit: string, f: Follow, capture: (string, nat) -> string)
    requires lit != "" && lit[|lit| - 1] != '\r'
    requires forall i: nat :: i <= |s| ==> capture(s + CR, i) == capture(s, i)
    ensures After(s, lit, f, capture).Some? || !f.NonNewline? ==>
              After(s + CR, lit, f, capture) == After(s, lit, f, capture)
    ensures After(s, lit, f, capture).None? && After(s + CR, lit, f, capture).Some? ==>
              After(s + CR, lit, f, capture).value == capture(s, |s|)
              && |s| >= |lit| && At(s, |s| - |lit|, lit)
  {
    LeftmostCr(s, lit, f);
    var b := Leftmost(s + CR, 0, lit, f);
    if b.Some? {
      AtCr(s, b.value, lit);
    }
  }

  lemma RunningJobCr(s: string)
    requires '\n' !in s
    ensures ParseRunningJob(s).Some? ==> ParseRunningJob(s + CR) == ParseRunningJob(s)
    ensures ParseRunningJob(s).None? && ParseRunningJob(s + CR).Some? ==>
              ParseRunningJob(s + CR).value == "" && |s| >= |RUNNING| && At(s, |s| - |RUNNING|, RUNNING)
  {
    forall i: nat | i <= |s| ensures TrimmedFrom(s + CR, i) == TrimmedFrom(s, i) { TrimmedCr(s, i); }
    TrimmedEnd(s);
    AfterCr(s, RUNNING, NonNewline, TrimmedFrom);
  }

  lemma CompletionAtCr(s: string, i: nat, j: nat)
    ensures CompletionAt(s + CR, i, j) <==> CompletionAt(s, i, j)
  {
    AtCr(s, i, JOB);
    MatchesAtCr(s, j, DONE, NonSpace);
    if j <= |s| && i + |JOB| <= j {
      assert (s + CR)[i + |JOB|..j] == s[i + |JOB|..j];
    }
  }

  lemma FindCompletionSame(s: string, t: string)
    requires forall i: nat, j: nat :: CompletionAt(s, i, j) <==> CompletionAt(t, i, j)
    ensures FindCompletion(s, 0) == FindCompletion(t, 0)
  {
    var r := FindCompletion(s, 0);
    if r.Some? {
      FindCompletionIs(t, r.value.0, r.value.1);
    }
  }

  lemma CompletedCr(s: string)
    ensures ParseJobCompleted(s + CR) == ParseJobCompleted(s)
  {
    forall i: nat, j: nat ensures CompletionAt(s, i, j) <==> CompletionAt(s + CR, i, j) { CompletionAtCr(s, i, j); }
    FindCompletionSame(s, s + CR);
    var r := FindCompletion(s, 0);
    if r.Some? {
      SliceCr(s, r.value.0 + |JOB|, r.value.1);
      SolidFromCr(s, r.value.1 + |DONE|);
    }
  }

  lemma SliceCr(s: string, a: nat, b: nat)
    requires a <= b <= |s|
    ensures (s + CR)[a..b] == s[a..b]
  {
  }
}
