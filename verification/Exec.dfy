/** Guest execution over HTTPS from end to end: the wrapped line, what the VM echoes behind the
    guest's output, and what is reported. */
module Exec {
  import opened Text
  import opened Shell
  import opened Sentinel
  import TwoLayer

  /** The text behind the operator that ends the first simple command. */
  function Behind(l: Lexer, s: string): string
    decreases |s|
  {
    if s == "" then "" else if Step(l, s[0]).mode.Done? then s[1..] else Behind(Step(l, s[0]), s[1..])
  }

  /** `$?` expanded to the status of the last command. */
  function Expand(s: string, status: string): string
    decreases |s|
  {
    if s == "" then ""
    else if At(s, 0, "$?") then status + Expand(s[2..], status)
    else [s[0]] + Expand(s[1..], status)
  }

  /** What the line's second command prints, if it is an `echo` of one word. */
  function Echoed(line: string, status: string): Option<string> {
    match Lex(Expand(Behind(START, line), status))
    case None => None
    case Some(words) => if |words| == 2 && words[0] == "echo" then Some(words[1] + "\n") else None
  }

  lemma {:induction false} BehindConcat(l: Lexer, s: string, t: string)
    requires !Run(l, s).mode.Done?
    ensures Behind(l, s + t) == Behind(Run(l, s), t)
    decreases |s|
  {
    if s == "" {
      assert s + t == t;
    } else {
      assert (s + t)[1..] == s[1..] + t;
      if Step(l, s[0]).mode.Done? {
        TwoLayer.StopsStay(Step(l, s[0]), s[1..]);
      }
      BehindConcat(Step(l, s[0]), s[1..], t);
    }
  }

  /** The closing quote and the semicolon leave the echo. */
  lemma BehindTail(l: Lexer, echo: string)
    requires l.mode.Double?
    ensures Behind(l, TwoLayer.Tail(echo)) == echo + ['$', '?']
  {
    var tail := TwoLayer.Tail(echo);
    assert tail[1..] == [';'] + (echo + ['$', '?']);
    assert tail[1..][1..] == echo + ['$', '?'];
  }

  lemma BehindWrapped(verb: string, vm: string, q: string, echo: string)
    requires Safe(verb) && Safe(vm) && TwoLayer.Intact(q, false) && !TwoLayer.Pending(q, false)
    ensures Behind(START, TwoLayer.Opening(verb, vm) + q + TwoLayer.Tail(echo)) == echo + ['$', '?']
  {
    var head := TwoLayer.Opening(verb, vm) + q;
    TwoLayer.OpeningReads(verb, vm);
    RunConcat(START, TwoLayer.Opening(verb, vm), q);
    TwoLayer.IntactReads(Run(START, TwoLayer.Opening(verb, vm)), q);
    BehindConcat(START, head, TwoLayer.Tail(echo));
    BehindTail(Run(START, head), echo);
  }

  lemma {:induction false} ExpandBehind(s: string, status: string)
    requires '$' !in s
    ensures Expand(s + ['$', '?'], status) == s + status
    decreases |s|
  {
    if s == "" {
      assert s + ['$', '?'] == ['$', '?'] && ['$', '?'][2..] == "";
      assert At(['$', '?'], 0, "$?");
    } else {
      assert (s + ['$', '?'])[1..] == s[1..] + ['$', '?'];
      assert (s + ['$', '?'])[0] == s[0] && s[0] in s;
      ExpandBehind(s[1..], status);
    }
  }

  lemma EchoLexes(marker: string, code: string)
    requires Safe(marker) && Digits(code)
    ensures Lex(" echo " + marker + code) == Some(["echo", marker + code])
  {
    var word := marker + code;
    var argv := ["echo", word];
    JoinRoundTrip(false, argv);
    assert argv[1..] == [word];
    assert Join(false, argv) == "echo" + (" " + word);
    var s := Join(false, argv);
    assert " echo " + marker + code == [' '] + s;
    RunConcat(START, [' '], s);
    RunOne(START, ' ');
  }

  lemma SentinelIsSafe()
    ensures Safe(EXIT_SENTINEL) && '$' !in " echo " + EXIT_SENTINEL
  {
  }

  /** Behind the guest's command the VM prints the marker and the exit code. */
  lemma EchoesExitCode(vm: string, argv: seq<string>, n: nat)
    requires Safe(vm) && forall a :: a in argv ==> TwoLayer.Clean(a)
    ensures Echoed(TwoLayer.WrapGuestCommand(vm, Join(true, argv)), Decimal(n)) ==
            Some(EXIT_SENTINEL + Decimal(n) + "\n")
  {
    SentinelIsSafe();
    TwoLayer.EchoIsPlain();
    TwoLayer.JoinIntact(argv);
    BehindWrapped(TwoLayer.SSH, vm, Join(true, argv), TwoLayer.ECHO);
    ExpandBehind(TwoLayer.ECHO, Decimal(n));
    EchoLexes(EXIT_SENTINEL, Decimal(n));
  }

  /** A clean argv reaches the guest as it was sent. What the guest then prints and the echo
      behind it are reported as that output, but for its last line break, and that exit code,
      if and only if the output is empty or ends a line. */
  lemma ExecRoundTrip(vm: string, argv: seq<string>, out: string, n: nat)
    requires Safe(vm) && n < I32_LIMIT && forall a :: a in argv ==> TwoLayer.Clean(a)
    ensures TwoLayer.Received(vm, argv) == Some(argv)
    ensures var echo := Echoed(TwoLayer.WrapGuestCommand(vm, Join(true, argv)), Decimal(n));
            echo.Some? && out + echo.value == Sent(EXIT_SENTINEL, out, Decimal(n))
    ensures Reported(EXIT_SENTINEL, Sent(EXIT_SENTINEL, out, Decimal(n))) == (Printed(out), n as int) <==> EndsLine(out)
  {
    TwoLayer.ArrivesIffClean(vm, argv);
    EchoesExitCode(vm, argv, n);
    SentIs(EXIT_SENTINEL, out, Decimal(n));
    SentinelFrames();
    DecimalParses(n);
    SurvivesIffLineEnds(EXIT_SENTINEL, out, Decimal(n), n);
  }

  lemma SentIs(m: string, out: string, code: string)
    ensures out + (m + code + "\n") == Sent(m, out, code)
  {
  }
}
