/** Guest commands over HTTPS (`wrap_guest_command`): the quoted argv sits inside double
    quotes, so it is lexed twice, once by the lobby and once by the VM. */
module TwoLayer {
  import opened Text
  import opened Shell
  import Sentinel

  const SSH := "ssh"
  const ECHO := " echo " + Sentinel.EXIT_SENTINEL

  /** The closing double quote and what follows it. */
  function Tail(echo: string): string { ['"', ';'] + echo + ['$', '?'] }

  /** `ssh {vm} "{quoted}"; echo __LSBX_EXIT:$?` */
  function WrapGuestCommand(vm: string, quoted: string): string {
    Opening(SSH, vm) + quoted + Tail(ECHO)
  }

  function Opening(verb: string, vm: string): string { verb + [' '] + vm + [' ', '"'] }

  /** What the VM runs: the lobby's third word, lexed again. */
  function Received(vm: string, argv: seq<string>): Option<seq<string>> {
    match Lex(WrapGuestCommand(vm, Join(true, argv)))
    case None => None
    case Some(words) => if |words| < 3 then None else Lex(words[2])
  }

  /** An argument the first layer leaves alone: no double quote, dollar or backtick, and no
      backslash in front of a backslash or a newline. */
  predicate Clean(arg: string) {
    && '"' !in arg && '$' !in arg && '`' !in arg
    && forall i :: 0 < i < |arg| && arg[i - 1] == '\\' ==> arg[i] != '\\' && arg[i] != '\n'
  }

  // ---- the first layer, inside the double quotes ----

  /** Reading `s` inside double quotes, after a backslash if `esc`, drops nothing. */
  predicate Intact(s: string, esc: bool)
    decreases |s|
  {
    s == "" ||
    (&& s[0] != '"' && s[0] != '$' && s[0] != '`'
     && (esc ==> s[0] != '\\' && s[0] != '\n')
     && Intact(s[1..], s[0] == '\\'))
  }

  lemma {:induction false} IntactIffClean(s: string, esc: bool)
    ensures Intact(s, esc) <==> Clean(s) && (esc && s != "" ==> s[0] != '\\' && s[0] != '\n')
    decreases |s|
  {
    if s != "" {
      IntactIffClean(s[1..], s[0] == '\\');
      assert s == [s[0]] + s[1..];
      if Clean(s) {
        assert forall i :: 0 < i < |s[1..]| ==> s[1..][i] == s[i + 1] && s[1..][i - 1] == s[i];
        assert Clean(s[1..]);
      }
      if Intact(s, esc) {
        forall i | 0 < i < |s| && s[i - 1] == '\\' ensures s[i] != '\\' && s[i] != '\n' {
          if i > 1 {
            assert s[1..][i - 1] == s[i] && s[1..][i - 2] == s[i - 1];
          }
        }
      }
    }
  }

  /** The backslash that reading `s` leaves pending. */
  function Pending(s: string, esc: bool): bool { if s == "" then esc else s[|s| - 1] == '\\' }

  lemma {:induction false} IntactConcat(s: string, t: string, esc: bool)
    ensures Intact(s + t, esc) <==> Intact(s, esc) && Intact(t, Pending(s, esc))
    decreases |s|
  {
    if s == "" {
      assert s + t == t;
    } else {
      assert (s + t)[1..] == s[1..] + t;
      IntactConcat(s[1..], t, s[0] == '\\');
    }
  }

  lemma {:induction false} EscapeIntact(arg: string, esc: bool)
    ensures Intact(EscapeQuotes(arg) + "'", esc) <==> Intact(arg, esc)
    decreases |arg|
  {
    if arg == "" {
      assert EscapeQuotes(arg) + "'" == "'";
      assert "'"[1..] == "";
    } else {
      var rest := EscapeQuotes(arg[1..]) + "'";
      EscapeIntact(arg[1..], arg[0] == '\\');
      if arg[0] == '\'' {
        assert EscapeQuotes(arg) + "'" == QUOTED_QUOTE + rest;
        IntactConcat(QUOTED_QUOTE, rest, esc);
        QuotedQuoteIntact(esc);
      } else {
        assert EscapeQuotes(arg) + "'" == [arg[0]] + rest;
      }
    }
  }

  lemma QuotedQuoteIntact(esc: bool)
    ensures Intact(QUOTED_QUOTE, esc) && !Pending(QUOTED_QUOTE, esc)
  {
    var q := QUOTED_QUOTE;
    assert q[1..] == ['\\', '\'', '\''] && q[1..][1..] == ['\'', '\''] && q[1..][1..][1..] == ['\''];
    assert ['\''][1..] == [];
    assert Intact(['\''], false) && Intact(['\'', '\''], true);
  }

  lemma QuoteIntact(arg: string, esc: bool)
    ensures Intact(QuoteAlways(arg), esc) <==> Clean(arg)
    ensures !Pending(QuoteAlways(arg), esc)
  {
    var body := EscapeQuotes(arg) + "'";
    assert QuoteAlways(arg) == "'" + body;
    assert ("'" + body)[1..] == body;
    EscapeIntact(arg, false);
    IntactIffClean(arg, false);
  }

  lemma {:induction false} JoinIntact(argv: seq<string>)
    ensures Intact(Join(true, argv), false) <==> forall a :: a in argv ==> Clean(a)
    ensures argv != [] ==> Join(true, argv) != "" && Join(true, argv)[|Join(true, argv)| - 1] == '\''
    decreases |argv|
  {
    if argv != [] {
      QuoteIntact(argv[0], false);
      assert argv == [argv[0]] + argv[1..];
      if |argv| > 1 {
        var rest := Join(true, argv[1..]);
        JoinIntact(argv[1..]);
        IntactConcat(QuoteAlways(argv[0]), " " + rest, false);
        assert (" " + rest)[1..] == rest;
      }
    }
  }

  /** Intact text comes out of the double quotes as it went in. */
  lemma {:induction false} IntactReads(l: Lexer, s: string)
    requires l.mode.Double? || l.mode.DoubleEsc?
    requires Intact(s, l.mode.DoubleEsc?)
    ensures var r := Run(l, s);
            && r.words == l.words
            && (Pending(s, l.mode.DoubleEsc?) ==> r.mode.DoubleEsc?)
            && (!Pending(s, l.mode.DoubleEsc?) ==>
                  && r.mode.Double?
                  && r.word == l.word + (if l.mode.DoubleEsc? then "\\" + s else s))
    decreases |s|
  {
    if s == "" {
      assert l.word + s == l.word;
    } else {
      assert s == [s[0]] + s[1..];
      var n := Step(l, s[0]);
      IntactReads(n, s[1..]);
      if s == [s[0]] {
      } else {
        assert Pending(s, false) == Pending(s[1..], false);
      }
    }
  }

  // ---- counting what a layer can lose ----

  function Count(s: string, c: char): nat {
    if s == "" then 0 else (if s[0] == c then 1 else 0) + Count(s[1..], c)
  }

  lemma {:induction false} CountConcat(s: string, t: string, c: char)
    ensures Count(s + t, c) == Count(s, c) + Count(t, c)
  {
    if s == "" {
      assert s + t == t;
    } else {
      assert (s + t)[1..] == s[1..] + t;
      CountConcat(s[1..], t, c);
    }
  }

  lemma CountOne(s: string, x: char, c: char)
    ensures Count(s + [x], c) == Count(s, c) + if x == c then 1 else 0
  {
    CountConcat(s, [x], c);
    assert [x][1..] == "";
  }

  lemma CountTwo(s: string, x: char, y: char, c: char)
    ensures Count(s + [x, y], c) == Count(s, c) + (if x == c then 1 else 0) + if y == c then 1 else 0
  {
    CountOne(s, x, c);
    CountOne(s + [x], y, c);
    assert s + [x] + [y] == s + [x, y];
  }

  function CountWords(ws: seq<string>, c: char): nat {
    if ws == [] then 0 else CountWords(ws[..|ws| - 1], c) + Count(ws[|ws| - 1], c)
  }

  /** Occurrences in everything the lexer has emitted so far. */
  function Emitted(l: Lexer, c: char): nat { CountWords(l.words, c) + Count(l.word, c) }

  /** A lexer that has gone from `l` by emitting nothing or the character `x`. */
  ghost predicate EmitsAtMost(l: Lexer, n: Lexer, x: char, c: char) {
    Emitted(n, c) <= Emitted(l, c) + if x == c then 1 else 0
  }

  lemma OutsideEmits(l: Lexer, x: char, c: char)
    requires l.mode.Gap? || l.mode.Word?
    ensures EmitsAtMost(l, Outside(l, x), x, c)
    ensures x == '"' || x == '\\' || x == '\'' ==> Emitted(Outside(l, x), c) <= Emitted(l, c)
  {
    CountOne(l.word, x, c);
    assert l.word + "" == l.word;
    assert (l.words + [l.word])[..|l.words|] == l.words;
  }

  /** One step emits at most the character it read, or a kept backslash with it. */
  lemma StepEmits(l: Lexer, x: char, c: char)
    ensures !l.mode.DoubleEsc? || c != '\\' ==> EmitsAtMost(l, Step(l, x), x, c)
    ensures (l.mode.Gap? || l.mode.Word? || l.mode.Double?) && (x == '"' || x == '\\') ==>
              Emitted(Step(l, x), c) <= Emitted(l, c)
    ensures (l.mode.Gap? || l.mode.Word? || l.mode.Single?) && x == '\'' ==>
              Emitted(Step(l, x), c) <= Emitted(l, c)
  {
    if l.mode.Gap? || l.mode.Word? {
      OutsideEmits(l, x, c);
    } else {
      CountOne(l.word, x, c);
      CountTwo(l.word, '\\', x, c);
      assert l.word + "" == l.word;
    }
  }

  lemma {:induction false} QuotesNeverGrow(l: Lexer, s: string)
    ensures Emitted(Run(l, s), '"') <= Emitted(l, '"') + Count(s, '"')
    decreases |s|
  {
    if s != "" {
      StepEmits(l, s[0], '"');
      QuotesNeverGrow(Step(l, s[0]), s[1..]);
    }
  }

  lemma {:induction false} StopsStay(l: Lexer, s: string)
    requires l.mode.Refused? || l.mode.Done?
    ensures Run(l, s) == l
    decreases |s|
  {
    if s != "" {
      StopsStay(l, s[1..]);
    }
  }

  predicate InDouble(l: Lexer) { l.mode.Double? || l.mode.DoubleEsc? }

  function Backslashes(l: Lexer): nat { Count(l.word, '\\') + if l.mode.DoubleEsc? then 1 else 0 }

  /** The first layer either refuses, or loses a double quote, or stays inside the double
      quotes and loses a backslash unless the text is intact. */
  lemma {:induction false} FirstLayerLoses(l: Lexer, s: string)
    requires InDouble(l)
    ensures var r := Run(l, s);
            || r.mode.Refused?
            || Emitted(r, '"') < Emitted(l, '"') + Count(s, '"')
            || (&& InDouble(r) && r.words == l.words
                && Backslashes(r) + (if Intact(s, l.mode.DoubleEsc?) then 0 else 1)
                   <= Backslashes(l) + Count(s, '\\'))
    decreases |s|
  {
    if s != "" {
      var n := Step(l, s[0]);
      StepEmits(l, s[0], '"');
      CountOne(l.word, s[0], '\\');
      CountTwo(l.word, '\\', s[0], '\\');
      assert l.word + "" == l.word;
      if InDouble(n) {
        FirstLayerLoses(n, s[1..]);
      } else if n.mode.Refused? {
        StopsStay(n, s[1..]);
      } else {
        QuotesNeverGrow(n, s[1..]);
      }
    }
  }

  predicate Escaping(l: Lexer) { l.mode.GapEsc? || l.mode.WordEsc? }

  function Marks(l: Lexer): nat {
    Emitted(l, '\\') + Emitted(l, '\'') + if Escaping(l) then 1 else 0
  }

  /** The second layer either loses a double quote, or pays one backslash for every
      backslash and single quote it emits. */
  lemma {:induction false} SecondLayerPays(l: Lexer, s: string)
    requires !InDouble(l)
    ensures var r := Run(l, s);
            || Emitted(r, '"') < Emitted(l, '"') + Count(s, '"')
            || (!InDouble(r) && Marks(r) <= Marks(l) + Count(s, '\\'))
    decreases |s|
  {
    if s != "" {
      var n := Step(l, s[0]);
      StepEmits(l, s[0], '"');
      StepEmits(l, s[0], '\\');
      StepEmits(l, s[0], '\'');
      if InDouble(n) {
        QuotesNeverGrow(n, s[1..]);
      } else {
        SecondLayerPays(n, s[1..]);
      }
    }
  }

  // ---- the exact condition ----

  lemma OpeningReads(verb: string, vm: string)
    requires Safe(verb) && Safe(vm)
    ensures Run(START, Opening(verb, vm)) == Lexer(Double, "", [verb, vm])
  {
    var a, b := Lexer(Word, verb, []), Lexer(Gap, "", [verb]);
    var c, d := Lexer(Word, vm, [verb]), Lexer(Gap, "", [verb, vm]);
    SafeReads(START, verb);
    assert "" + verb == verb && "" + vm == vm;
    assert [] + [verb] == [verb] && [verb] + [vm] == [verb, vm];
    RunConcat(START, verb, [' ']);
    RunOne(a, ' ');
    RunConcat(START, verb + [' '], vm);
    SafeReads(b, vm);
    assert verb + [' '] + vm + [' ', '"'] == verb + [' '] + vm + [' '] + ['"'];
    RunConcat(START, verb + [' '] + vm + [' '], ['"']);
    RunConcat(START, verb + [' '] + vm, [' ']);
    RunOne(c, ' ');
    RunOne(d, '"');
  }

  lemma WrapReads(verb: string, vm: string, q: string, tail: string)
    requires Safe(verb) && Safe(vm)
    ensures Run(START, Opening(verb, vm) + q + tail) == Run(Run(Lexer(Double, "", [verb, vm]), q), tail)
  {
    OpeningReads(verb, vm);
    RunConcat(START, Opening(verb, vm), q);
    RunConcat(START, Opening(verb, vm) + q, tail);
  }

  predicate Plain(s: string) { forall i :: 0 <= i < |s| ==> SafeChar(s[i]) || s[i] == ' ' }

  lemma PlainIntact(s: string)
    requires Plain(s)
    ensures Intact(s, false) && !Pending(s, false) && '\'' !in s
  {
    IntactIffClean(s, false);
  }

  /** The closing quote ends the word and the semicolon the command. */
  lemma TailCloses(l: Lexer, echo: string)
    requires l.mode.Double?
    ensures Run(l, Tail(echo)) == Lexer(Done, "", l.words + [l.word])
  {
    var rest := echo + ['$', '?'];
    assert Tail(echo) == ['"'] + ([';'] + rest);
    RunConcat(l, ['"'], [';'] + rest);
    RunOne(l, '"');
    RunConcat(Step(l, '"'), [';'], rest);
    RunOne(Step(l, '"'), ';');
    assert l.word + "" == l.word;
    StopsStay(Lexer(Done, "", l.words + [l.word]), rest);
  }

  /** From any other state that has not ended the command, the line does not lex. */
  lemma TailFails(l: Lexer, echo: string)
    requires !Escaping(l) && !l.mode.Double? && !l.mode.Done? && Plain(echo)
    ensures Finish(Run(l, Tail(echo))).None?
  {
    PlainIntact(echo);
    var rest := [';'] + echo + ['$', '?'];
    assert Tail(echo) == ['"'] + rest;
    RunConcat(l, ['"'], rest);
    RunOne(l, '"');
    var n := Step(l, '"');
    if l.mode.Refused? {
      StopsStay(l, Tail(echo));
    } else if l.mode.Single? {
      SingleStays(n, rest);
    } else {
      var s := [';'] + echo;
      assert rest == s + (['$'] + ['?']);
      assert s[1..] == echo;
      DollarRefuses(n, s, ['?']);
    }
  }

  lemma {:induction false} SingleStays(l: Lexer, s: string)
    requires l.mode.Single? && '\'' !in s
    ensures Run(l, s).mode.Single?
    decreases |s|
  {
    if s != "" {
      assert s == [s[0]] + s[1..];
      SingleStays(Step(l, s[0]), s[1..]);
    }
  }

  /** Inside double quotes a dollar needs expansion. */
  lemma DollarRefuses(l: Lexer, s: string, t: string)
    requires l.mode.Double? && Intact(s, false) && !Pending(s, false)
    ensures Run(l, s + (['$'] + t)).mode.Refused?
  {
    RunConcat(l, s, ['$'] + t);
    IntactReads(l, s);
    assert (['$'] + t)[1..] == t;
    StopsStay(Step(Run(l, s), '$'), t);
  }

  lemma IntactArrives(verb: string, vm: string, q: string, echo: string)
    requires Safe(verb) && Safe(vm) && Intact(q, false) && !Pending(q, false)
    ensures Lex(Opening(verb, vm) + q + Tail(echo)) == Some([verb, vm, q])
  {
    var l0 := Lexer(Double, "", [verb, vm]);
    WrapReads(verb, vm, q, Tail(echo));
    IntactReads(l0, q);
    assert "" + q == q;
    TailCloses(Run(l0, q), echo);
    assert [verb, vm] + [q] == [verb, vm, q];
  }

  /** A clean argv arrives as it was sent. */
  lemma CleanArrives(verb: string, vm: string, argv: seq<string>, echo: string)
    requires Safe(verb) && Safe(vm) && forall a :: a in argv ==> Clean(a)
    ensures Lex(Opening(verb, vm) + Join(true, argv) + Tail(echo)) == Some([verb, vm, Join(true, argv)])
    ensures Lex(Join(true, argv)) == Some(argv)
  {
    JoinIntact(argv);
    IntactArrives(verb, vm, Join(true, argv), echo);
    JoinRoundTrip(true, argv);
  }

  // ---- an argv that is not clean never arrives ----

  lemma {:induction false} CountWordsAppend(ws: seq<string>, w: string, c: char)
    ensures CountWords(ws + [w], c) == CountWords(ws, c) + Count(w, c)
  {
    assert (ws + [w])[..|ws|] == ws;
  }

  lemma {:induction false} CountWordsFront(w: string, ws: seq<string>, c: char)
    ensures CountWords([w] + ws, c) == Count(w, c) + CountWords(ws, c)
  {
    if ws == [] {
      assert ([w] + ws)[..0] == [];
      assert [w] + ws == [w];
    } else {
      assert ([w] + ws)[..|ws|] == [w] + ws[..|ws| - 1];
      CountWordsFront(w, ws[..|ws| - 1], c);
    }
  }

  lemma {:induction false} CountEscaped(s: string, c: char)
    ensures c == '"' ==> Count(EscapeQuotes(s), c) == Count(s, c)
    ensures c == '\\' ==> Count(EscapeQuotes(s), c) == Count(s, c) + Count(s, '\'')
  {
    if s != "" {
      CountEscaped(s[1..], c);
      if s[0] == '\'' {
        CountConcat(QUOTED_QUOTE, EscapeQuotes(s[1..]), c);
        CountQuotedQuote(c);
      } else {
        CountConcat([s[0]], EscapeQuotes(s[1..]), c);
        CountOne("", s[0], c);
        assert "" + [s[0]] == [s[0]];
      }
    }
  }

  lemma CountQuotedQuote(c: char)
    ensures c == '"' ==> Count(QUOTED_QUOTE, c) == 0
    ensures c == '\\' ==> Count(QUOTED_QUOTE, c) == 1
  {
    assert QUOTED_QUOTE == ['\'', '\\'] + ['\'', '\''];
    CountTwo("", '\'', '\\', c);
    CountTwo(['\'', '\\'], '\'', '\'', c);
    assert "" + ['\'', '\\'] == ['\'', '\\'];
  }

  lemma CountQuoted(s: string, c: char)
    ensures c == '"' ==> Count(QuoteAlways(s), c) == Count(s, c)
    ensures c == '\\' ==> Count(QuoteAlways(s), c) == Count(s, c) + Count(s, '\'')
  {
    CountEscaped(s, c);
    CountOne(['\''] + EscapeQuotes(s), '\'', c);
    CountConcat(['\''], EscapeQuotes(s), c);
    CountOne("", '\'', c);
    assert "" + ['\''] == ['\''];
  }

  lemma {:induction false} CountJoined(argv: seq<string>, c: char)
    ensures c == '"' ==> Count(Join(true, argv), c) == CountWords(argv, c)
    ensures c == '\\' ==> Count(Join(true, argv), c) == CountWords(argv, c) + CountWords(argv, '\'')
    decreases |argv|
  {
    if argv != [] {
      CountQuoted(argv[0], c);
      CountWordsFront(argv[0], argv[1..], c);
      CountWordsFront(argv[0], argv[1..], '\'');
      assert [argv[0]] + argv[1..] == argv;
      if |argv| > 1 {
        CountJoined(argv[1..], c);
        CountConcat(QuoteAlways(argv[0]), " " + Join(true, argv[1..]), c);
        assert (" " + Join(true, argv[1..]))[1..] == Join(true, argv[1..]);
      }
    }
  }

  lemma CountFinish(l: Lexer, c: char)
    requires Finish(l).Some?
    ensures CountWords(Finish(l).value, c) <= Emitted(l, c)
  {
    CountWordsAppend(l.words, l.word, c);
  }

  /** The second layer cannot give argv back from a third word that lost a double quote,
      or that kept them all but lost a backslash. */
  lemma LossyThirdWord(argv: seq<string>, w: string)
    requires var q := Join(true, argv);
             || Count(w, '"') < Count(q, '"')
             || (Count(w, '"') == Count(q, '"') && Count(w, '\\') < Count(q, '\\'))
    ensures Lex(w) != Some(argv)
  {
    CountJoined(argv, '"');
    CountJoined(argv, '\\');
    var r := Run(START, w);
    if Finish(r).Some? {
      CountFinish(r, '"');
      CountFinish(r, '\\');
      CountFinish(r, '\'');
      QuotesNeverGrow(START, w);
      SecondLayerPays(START, w);
    }
  }

  lemma {:induction false} CountMember(ws: seq<string>, i: nat, c: char)
    requires i < |ws|
    ensures Count(ws[i], c) <= CountWords(ws, c)
  {
    if i < |ws| - 1 {
      CountMember(ws[..|ws| - 1], i, c);
    }
  }

  lemma {:induction false} SafeCounts(s: string)
    requires forall i :: 0 <= i < |s| ==> SafeChar(s[i])
    ensures Count(s, '"') == 0
  {
    if s != "" {
      SafeCounts(s[1..]);
    }
  }

  lemma AfterQuote(l: Lexer, s: string)
    requires s != "" && s[|s| - 1] == '\''
    ensures !Escaping(Run(l, s))
  {
    var n := |s| - 1;
    assert s == s[..n] + [s[n]];
    RunConcat(l, s[..n], [s[n]]);
    RunOne(Run(l, s[..n]), s[n]);
  }

  lemma StartCounts(verb: string, vm: string)
    requires Safe(verb) && Safe(vm)
    ensures Emitted(Lexer(Double, "", [verb, vm]), '"') == 0
  {
    SafeCounts(verb);
    SafeCounts(vm);
    CountWordsAppend([verb], vm, '"');
    CountWordsAppend([], verb, '"');
    assert [verb] + [vm] == [verb, vm] && [] + [verb] == [verb];
  }

  /** Whatever third word the lobby makes of a line whose argv is not clean, it is lossy. */
  lemma DirtyIsLossy(verb: string, vm: string, argv: seq<string>, echo: string)
    requires Safe(verb) && Safe(vm) && Plain(echo)
    requires exists a :: a in argv && !Clean(a)
    ensures var words := Lex(Opening(verb, vm) + Join(true, argv) + Tail(echo));
            words.Some? && |words.value| >= 3 ==> Lex(words.value[2]) != Some(argv)
  {
    var q := Join(true, argv);
    var l0 := Lexer(Double, "", [verb, vm]);
    var l1 := Run(l0, q);
    WrapReads(verb, vm, q, Tail(echo));
    StartCounts(verb, vm);
    JoinIntact(argv);
    AfterQuote(l0, q);
    FirstLayerLoses(l0, q);
    QuotesNeverGrow(l0, q);
    if l1.mode.Double? {
      TailCloses(l1, echo);
      var words := l1.words + [l1.word];
      CountWordsAppend(l1.words, l1.word, '"');
      if |words| >= 3 {
        CountMember(words, 2, '"');
        LossyThirdWord(argv, words[2]);
      }
    } else if l1.mode.Done? {
      StopsStay(l1, Tail(echo));
      if |l1.words| >= 3 {
        CountMember(l1.words, 2, '"');
        LossyThirdWord(argv, l1.words[2]);
      }
    } else {
      TailFails(l1, echo);
    }
  }

  lemma EchoIsPlain()
    ensures Plain(ECHO) && Safe(SSH)
  {
  }

  /** The two-layer round trip holds for exactly the clean argvs. */
  lemma ArrivesIffClean(vm: string, argv: seq<string>)
    requires Safe(vm)
    ensures Received(vm, argv) == Some(argv) <==> forall a :: a in argv ==> Clean(a)
  {
    EchoIsPlain();
    if forall a :: a in argv ==> Clean(a) {
      CleanArrives(SSH, vm, argv, ECHO);
    } else {
      DirtyIsLossy(SSH, vm, argv, ECHO);
    }
  }
}
