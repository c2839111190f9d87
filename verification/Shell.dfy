/** Quoting argv for a POSIX shell (`shell_quote`, `shell_quote_join`) and lexing it back:
    sections 2.2.1 to 2.2.3 and 2.3 of the POSIX Shell Command Language. */
module Shell {
  import opened Text

  // ---- a token lexer for one simple command ----

  /** `Done` stops at a control operator; `Refused` is anything this lexer would have to
      expand, redirect or match. */
  datatype Mode = Gap | GapEsc | Word | WordEsc | Single | Double | DoubleEsc | Done | Refused

  datatype Lexer = Lexer(mode: Mode, word: string, words: seq<string>) {
    function Emit(s: string, m: Mode): Lexer { Lexer(m, word + s, words) }
    function Flush(m: Mode): Lexer { if mode.Word? then Lexer(m, "", words + [word]) else Lexer(m, "", words) }
  }

  function Step(l: Lexer, c: char): Lexer {
    match l.mode
    case Gap => Outside(l, c)
    case Word => Outside(l, c)
    case GapEsc => if c == '\n' then l.Emit("", Gap) else l.Emit([c], Word)
    case WordEsc => if c == '\n' then l.Emit("", Word) else l.Emit([c], Word)
    case Single => if c == '\'' then l.Emit("", Word) else l.Emit([c], Single)
    case Double =>
      if c == '"' then l.Emit("", Word)
      else if c == '\\' then l.Emit("", DoubleEsc)
      else if c == '$' || c == '`' then l.Emit("", Refused)
      else l.Emit([c], Double)
    case DoubleEsc =>
      if c == '\n' then l.Emit("", Double)
      else if c == '$' || c == '`' || c == '"' || c == '\\' then l.Emit([c], Double)
      else l.Emit(['\\', c], Double)
    case Done => l
    case Refused => l
  }

  function Outside(l: Lexer, c: char): Lexer
    requires l.mode.Gap? || l.mode.Word?
  {
    if c == ' ' || c == '\t' then l.Flush(Gap)
    else if c == '\n' || c == ';' || c == '&' || c == '|' then l.Flush(Done)
    else if c == '\'' then l.Emit("", Single)
    else if c == '"' then l.Emit("", Double)
    else if c == '\\' then l.Emit("", if l.mode.Gap? then GapEsc else WordEsc)
    else if Special(c) then l.Emit("", Refused)
    else l.Emit([c], Word)
  }

  predicate Special(c: char) {
    || c == '<' || c == '>' || c == '(' || c == ')' || c == '$' || c == '`'
    || c == '*' || c == '?' || c == '[' || c == '#' || c == '~'
  }

  function Run(l: Lexer, s: string): Lexer
    decreases |s|
  {
    if s == "" then l else Run(Step(l, s[0]), s[1..])
  }

  const START := Lexer(Gap, "", [])

  function Finish(l: Lexer): Option<seq<string>> {
    if l.mode.Gap? || l.mode.Done? then Some(l.words)
    else if l.mode.Word? then Some(l.words + [l.word])
    else None
  }

  /** The words of the first simple command, quotes removed. */
  function Lex(s: string): Option<seq<string>> { Finish(Run(START, s)) }

  lemma {:induction false} RunConcat(l: Lexer, s: string, t: string)
    ensures Run(l, s + t) == Run(Run(l, s), t)
    decreases |s|
  {
    if s == "" {
      assert s + t == t;
    } else {
      assert (s + t)[1..] == s[1..] + t;
      RunConcat(Step(l, s[0]), s[1..], t);
    }
  }

  // ---- quoting ----

  predicate SafeChar(c: char) {
    || 'a' <= c <= 'z' || 'A' <= c <= 'Z' || '0' <= c <= '9'
    || c == '@' || c == '%' || c == '+' || c == '=' || c == ':' || c == ','
    || c == '.' || c == '/' || c == '-' || c == '_'
  }

  predicate Safe(s: string) { s != "" && forall i :: 0 <= i < |s| ==> SafeChar(s[i]) }

  const QUOTED_QUOTE := "'\\''"

  /** `value.replace('\'', "'\\''")`. */
  function EscapeQuotes(s: string): string { Replace(s, '\'', QUOTED_QUOTE) }

  /** The exe.dev form: always quoted. */
  function QuoteAlways(s: string): string { "'" + EscapeQuotes(s) + "'" }

  /** The libvirt form: a safe word stays bare. */
  function Quote(s: string): string { if Safe(s) then s else QuoteAlways(s) }

  /** The split-and-push loop builds exactly the replace form outside the safe charset. */
  method ShellQuote(arg: string) returns (out: string)
    ensures out == Quote(arg)
  {
    if Safe(arg) {
      return arg;
    }
    var body := SplitAndPush(arg, '\'', QUOTED_QUOTE);
    out := "'" + body + "'";
  }

  method SplitAndPush(arg: string, c: char, sep: string) returns (out: string)
    ensures out == Replace(arg, c, sep)
  {
    var parts := Split(arg, c);
    out := parts[0];
    for i := 1 to |parts|
      invariant out == parts[0] + Glue(sep, parts[1..i])
    {
      GlueAppend(sep, parts[1..i], parts[i]);
      assert parts[1..i] + [parts[i]] == parts[1..i + 1];
      out := out + sep + parts[i];
    }
    assert parts[1..|parts|] == parts[1..];
    SplitGlue(arg, c, sep);
  }

  /** Which of the two forms a backend uses. */
  function QuoteBy(always: bool, s: string): string { if always then QuoteAlways(s) else Quote(s) }

  /** `.map(quote).collect().join(" ")`. */
  function Join(always: bool, argv: seq<string>): string {
    if argv == [] then ""
    else if |argv| == 1 then QuoteBy(always, argv[0])
    else QuoteBy(always, argv[0]) + (" " + Join(always, argv[1..]))
  }

  // ---- one layer: lexing the joined line gives argv back ----

  lemma EscapedQuoteReads(l: Lexer)
    requires l.mode.Single?
    ensures Run(l, QUOTED_QUOTE) == l.Emit("'", Single)
  {
    var a := Step(l, '\'');
    var b := Step(a, '\\');
    var c := Step(b, '\'');
    assert QUOTED_QUOTE == ['\''] + ['\\'] + ['\''] + ['\''];
    RunConcat(l, ['\''] + ['\\'] + ['\''], ['\'']);
    RunConcat(l, ['\''] + ['\\'], ['\'']);
    RunConcat(l, ['\''], ['\\']);
    RunOne(l, '\'');
    RunOne(a, '\\');
    RunOne(b, '\'');
    RunOne(c, '\'');
  }

  lemma RunOne(l: Lexer, c: char)
    ensures Run(l, [c]) == Step(l, c)
  {
    assert [c][1..] == "";
  }

  lemma {:induction false} SingleReads(l: Lexer, s: string)
    requires l.mode.Single?
    ensures Run(l, EscapeQuotes(s) + "'") == l.Emit(s, Word)
    decreases |s|
  {
    if s == "" {
      RunOne(l, '\'');
    } else {
      var head := if s[0] == '\'' then QUOTED_QUOTE else [s[0]];
      assert EscapeQuotes(s) + "'" == head + (EscapeQuotes(s[1..]) + "'");
      RunConcat(l, head, EscapeQuotes(s[1..]) + "'");
      if s[0] == '\'' { EscapedQuoteReads(l); } else { RunOne(l, s[0]); }
      SingleReads(l.Emit([s[0]], Single), s[1..]);
      assert l.word + [s[0]] + s[1..] == l.word + s;
    }
  }

  lemma {:induction false} SafeReads(l: Lexer, s: string)
    requires (l.mode.Gap? || l.mode.Word?) && Safe(s)
    ensures Run(l, s) == l.Emit(s, Word)
    decreases |s|
  {
    var next := Step(l, s[0]);
    assert SafeChar(s[0]);
    assert next == l.Emit([s[0]], Word);
    if |s| > 1 {
      SafeReads(next, s[1..]);
      assert l.word + [s[0]] + s[1..] == l.word + s;
    } else {
      assert s == [s[0]];
      RunOne(l, s[0]);
    }
  }

  lemma QuoteReads(always: bool, l: Lexer, arg: string)
    requires l.mode.Gap? || l.mode.Word?
    ensures Run(l, QuoteBy(always, arg)) == l.Emit(arg, Word)
  {
    if !always && Safe(arg) {
      SafeReads(l, arg);
    } else {
      assert QuoteAlways(arg)[1..] == EscapeQuotes(arg) + "'";
      SingleReads(l.Emit("", Single), arg);
    }
  }

  lemma QuoteThenBlank(always: bool, words: seq<string>, arg: string, rest: string)
    ensures Run(Lexer(Gap, "", words), QuoteBy(always, arg) + (" " + rest)) == Run(Lexer(Gap, "", words + [arg]), rest)
  {
    var l := Lexer(Gap, "", words);
    QuoteReads(always, l, arg);
    RunConcat(l, QuoteBy(always, arg), " " + rest);
    assert (" " + rest)[1..] == rest;
    assert l.Emit(arg, Word) == Lexer(Word, arg, words);
  }

  /** The lexer after a joined line: the last word is still open. */
  function Joined(words: seq<string>, argv: seq<string>): Lexer
    requires argv != []
    decreases |argv|
  {
    if |argv| == 1 then Lexer(Word, argv[0], words) else Joined(words + [argv[0]], argv[1..])
  }

  lemma {:induction false} JoinReads(always: bool, argv: seq<string>, words: seq<string>)
    requires argv != []
    ensures Run(Lexer(Gap, "", words), Join(always, argv)) == Joined(words, argv)
    decreases |argv|
  {
    if |argv| == 1 {
      OneReads(always, words, argv[0]);
    } else {
      QuoteThenBlank(always, words, argv[0], Join(always, argv[1..]));
      JoinReads(always, argv[1..], words + [argv[0]]);
    }
  }

  lemma OneReads(always: bool, words: seq<string>, arg: string)
    ensures Run(Lexer(Gap, "", words), QuoteBy(always, arg)) == Lexer(Word, arg, words)
  {
    QuoteReads(always, Lexer(Gap, "", words), arg);
  }

  lemma {:induction false} JoinedWords(words: seq<string>, argv: seq<string>)
    requires argv != []
    ensures Finish(Joined(words, argv)) == Some(words + argv)
    decreases |argv|
  {
    if |argv| == 1 {
      assert argv == [argv[0]];
    } else {
      JoinedWords(words + [argv[0]], argv[1..]);
      assert words + [argv[0]] + argv[1..] == words + argv;
    }
  }

  /** For every argv, empty arguments and embedded quotes included, lexing the joined line
      gives argv back; in both backends' forms. */
  lemma JoinRoundTrip(always: bool, argv: seq<string>)
    ensures Lex(Join(always, argv)) == Some(argv)
  {
    if argv != [] {
      JoinReads(always, argv, START.words);
      JoinedWords(START.words, argv);
      assert START.words + argv == argv;
    }
  }
}
