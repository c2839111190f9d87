/** The in-band exit code of guest execution over HTTPS (`split_exit_sentinel`): the last
    line-start marker of the combined output carries the exit code. */
module Sentinel {
  import opened Text

  const EXIT_SENTINEL := "__LSBX_EXIT:"
  const I32_LIMIT := 0x8000_0000

  // ---- decimal numerals ----

  predicate Digit(c: char) { '0' <= c <= '9' }

  predicate Digits(s: string) { forall i :: 0 <= i < |s| ==> Digit(s[i]) }

  function DigitValue(c: char): nat
    requires Digit(c)
  {
    c as int - '0' as int
  }

  function Value(s: string): nat
    requires Digits(s)
  {
    if s == "" then 0 else 10 * Value(s[..|s| - 1]) + DigitValue(s[|s| - 1])
  }

  function Decimal(n: nat): (s: string)
    ensures s != "" && Digits(s) && Value(s) == n
  {
    var d := [('0' as int + n % 10) as char];
    if n < 10 then
      assert d[..0] == "";
      d
    else
      var s := Decimal(n / 10) + d;
      assert s[..|s| - 1] == Decimal(n / 10);
      s
  }

  /** `str::parse::<i32>`: an optional sign, then digits, in range. */
  function ParseI32(s: string): Option<int> {
    var signed := s != "" && (s[0] == '+' || s[0] == '-');
    var digits := if signed then s[1..] else s;
    if digits == "" || !Digits(digits) then None
    else
      var v: int := if signed && s[0] == '-' then -(Value(digits) as int) else Value(digits);
      if -I32_LIMIT <= v < I32_LIMIT then Some(v) else None
  }

  // ---- the split ----

  /** `str::rfind`, from `i` down. */
  function RFind(s: string, p: string, i: nat): (r: Option<nat>)
    ensures r.Some? ==> r.value <= i && At(s, r.value, p)
    ensures r.Some? ==> forall k: nat :: r.value < k <= i ==> !At(s, k, p)
    ensures r.None? ==> forall k: nat :: k <= i ==> !At(s, k, p)
  {
    if At(s, i, p) then Some(i) else if i == 0 then None else RFind(s, p, i - 1)
  }

  function ExitCode(tail: string): Option<int> {
    match ParseI32(Trim(tail))
    case None => None
    case Some(code) => if code < 0 then None else Some(code)
  }

  /** The text in front of the last line-start marker, or of a bare one, and what follows. */
  function Cut(m: string, trimmed: string): Option<(string, string)> {
    match RFind(trimmed, "\n" + m, |trimmed|)
    case Some(i) => Some((trimmed[..i], trimmed[i + 1 + |m|..]))
    case None => if At(trimmed, 0, m) then Some(("", trimmed[|m|..])) else None
  }

  function SplitAt(m: string, body: string): Option<(string, int)> {
    match Cut(m, TrimEnd(body))
    case None => None
    case Some((text, tail)) => if ExitCode(tail).Some? then Some((text, ExitCode(tail).value)) else None
  }

  function SplitExitSentinel(body: string): Option<(string, int)> { SplitAt(EXIT_SENTINEL, body) }

  /** What a marker needs for the framing: it ends in its only colon, which no digit is. */
  predicate Frames(m: string) {
    && m != "" && m[|m| - 1] == ':' && '\n' !in m
    && forall k :: 0 <= k < |m| - 1 ==> m[k] != ':'
  }

  lemma SentinelFrames()
    ensures Frames(EXIT_SENTINEL) && EXIT_SENTINEL == "__LSBX_EXIT:"
  {
  }

  lemma DigitsSolid(s: string)
    requires Digits(s)
    ensures NoSpaces(s) && '\n' !in s && Trim(s) == s
  {
    TrimSolid(s);
  }

  lemma DecimalParses(n: nat)
    requires n < I32_LIMIT
    ensures Solid(Decimal(n)) && ExitCode(Decimal(n)) == Some(n)
  {
    DigitsParse(Decimal(n));
  }

  lemma DigitsParse(s: string)
    requires s != "" && Digits(s) && Value(s) < I32_LIMIT
    ensures ExitCode(s) == Some(Value(s)) && '\n' !in s && NoSpaces(s)
  {
    DigitsSolid(s);
    assert Digit(s[0]);
    assert ParseI32(s) == Some(Value(s));
  }

  /** No marker starts past `i` when only the code follows the one at `i`. */
  lemma NoLaterMarker(s: string, m: string, i: nat)
    requires Frames(m) && i + 1 + |m| <= |s|
    requires forall k :: i + 1 <= k < |s| ==> s[k] != '\n'
    ensures forall k: nat :: i < k ==> !At(s, k, "\n" + m)
  {
    forall k: nat | i < k ensures !At(s, k, "\n" + m) {
      if At(s, k, "\n" + m) {
        AtChar(s, k, "\n" + m, 0);
      }
    }
  }

  /** What an exit code prints as: solid text without a newline. */
  predicate Solid(code: string) { code != "" && NoSpaces(code) && '\n' !in code && Digits(code) }

  lemma Framed(text: string, m: string, code: string, ws: string)
    requires AllSpaces(ws) && code != "" && NoSpaces(code)
    ensures TrimEnd(text + m + code + ws) == text + m + code
  {
    var s := text + m + code;
    assert s[|s| - 1] == code[|code| - 1];
    TrimEndDrops(s, ws);
  }

  lemma FramedMarker(text: string, m: string, code: string)
    requires Frames(m) && '\n' !in code
    ensures Cut(m, text + ("\n" + m) + code) == Some((text, code))
  {
    var s := text + ("\n" + m) + code;
    AtMiddle(text, "\n" + m, code);
    assert s[|text| + 1..] == m + code;
    assert forall k :: |text| + 1 <= k < |s| ==> s[k] == (m + code)[k - |text| - 1];
    NoLaterMarker(s, m, |text|);
    assert s[|text| + 1 + |m|..] == code && s[..|text|] == text;
    var r := RFind(s, "\n" + m, |s|);
    assert r.Some?;
    assert r.value == |text|;
  }

  lemma BareMarked(m: string, code: string)
    requires Frames(m) && '\n' !in code
    ensures Cut(m, m + code) == Some(("", code))
  {
    var s := m + code;
    assert '\n' !in s;
    forall k: nat ensures !At(s, k, "\n" + m) {
      if At(s, k, "\n" + m) {
        AtChar(s, k, "\n" + m, 0);
      }
    }
    AtMiddle("", m, code);
    assert "" + m == m && s[|m|..] == code;
  }

  lemma FramedCut(m: string, text: string, code: string, ws: string)
    requires Frames(m) && Solid(code) && AllSpaces(ws)
    ensures Cut(m, TrimEnd(text + ("\n" + m) + code + ws)) == Some((text, code))
  {
    Framed(text, "\n" + m, code, ws);
    FramedMarker(text, m, code);
  }

  lemma BareCut(m: string, code: string, ws: string)
    requires Frames(m) && Solid(code) && AllSpaces(ws)
    ensures Cut(m, TrimEnd(m + code + ws)) == Some(("", code))
  {
    Framed("", m, code, ws);
    assert "" + m == m;
    BareMarked(m, code);
  }

  lemma CutGivesCode(m: string, body: string, text: string, code: string, n: int)
    requires Cut(m, TrimEnd(body)) == Some((text, code)) && ExitCode(code) == Some(n)
    ensures SplitAt(m, body) == Some((text, n))
  {
  }

  /** Whatever the guest printed, fake sentinels included, the last framed line wins; a
      silent guest leaves the bare marker. */
  lemma FramedRoundTrip(text: string, n: nat, ws: string)
    requires n < I32_LIMIT && AllSpaces(ws)
    ensures SplitExitSentinel(text + ("\n" + EXIT_SENTINEL) + Decimal(n) + ws) == Some((text, n))
    ensures SplitExitSentinel(EXIT_SENTINEL + Decimal(n) + ws) == Some(("", n))
  {
    SentinelFrames();
    DecimalParses(n);
    var code := Decimal(n);
    FramedCut(EXIT_SENTINEL, text, code, ws);
    BareCut(EXIT_SENTINEL, code, ws);
    CutGivesCode(EXIT_SENTINEL, text + ("\n" + EXIT_SENTINEL) + code + ws, text, code, n);
    CutGivesCode(EXIT_SENTINEL, EXIT_SENTINEL + code + ws, "", code, n);
  }

  /** `text` ends where the last line-start marker stands and `tail` follows it, or there is
      none and the body starts with the marker. */
  ghost predicate LastMarker(m: string, trimmed: string, text: string, tail: string) {
    || (trimmed == text + ("\n" + m) + tail && forall k: nat :: |text| < k ==> !At(trimmed, k, "\n" + m))
    || (trimmed == m + tail && text == "" && forall k: nat :: !At(trimmed, k, "\n" + m))
  }

  lemma CutIffLastMarker(m: string, trimmed: string, text: string, tail: string)
    ensures Cut(m, trimmed) == Some((text, tail)) <==> LastMarker(m, trimmed, text, tail)
  {
    var p := "\n" + m;
    var r := RFind(trimmed, p, |trimmed|);
    assert forall k: nat :: |trimmed| < k ==> !At(trimmed, k, p);
    if r.Some? {
      var i := r.value;
      assert trimmed == trimmed[..i] + trimmed[i..i + |p|] + trimmed[i + |p|..];
      assert trimmed[..i] + p + trimmed[i + |p|..] == trimmed;
    } else if At(trimmed, 0, m) {
      assert trimmed == trimmed[0..|m|] + trimmed[|m|..];
    }
    if trimmed == text + p + tail {
      AtMiddle(text, p, tail);
    }
    if trimmed == m + tail {
      AtMiddle("", m, tail);
      assert "" + m == m;
    }
  }

  /** Every result comes from the last line-start marker, or from a bare one when there is
      none, with only a non-negative integer after it; and every such body gives a result. */
  lemma ResultIsLastMarker(m: string, body: string, text: string, code: int)
    ensures SplitAt(m, body) == Some((text, code)) <==>
            exists tail :: LastMarker(m, TrimEnd(body), text, tail) && ExitCode(tail) == Some(code)
  {
    var trimmed := TrimEnd(body);
    var cut := Cut(m, trimmed);
    if SplitAt(m, body) == Some((text, code)) {
      var tail := cut.value.1;
      CutIffLastMarker(m, trimmed, text, tail);
      assert LastMarker(m, trimmed, text, tail) && ExitCode(tail) == Some(code);
    }
    if exists tail :: LastMarker(m, trimmed, text, tail) && ExitCode(tail) == Some(code) {
      var tail :| LastMarker(m, trimmed, text, tail) && ExitCode(tail) == Some(code);
      CutIffLastMarker(m, trimmed, text, tail);
    }
  }

  /** What counts as an exit code: an `i32` that is not negative, with white space around it. */
  lemma ExitCodeIff(tail: string, code: int)
    ensures ExitCode(tail) == Some(code) <==> ParseI32(Trim(tail)) == Some(code) && 0 <= code < 0x8000_0000
  {
  }

  // ---- what the guest actually sends ----

  /** The body of `cmd; echo marker$?` for a guest that printed `out` and exited with a
      code that prints as `code`. */
  function Sent(m: string, out: string, code: string): string { out + m + code + "\n" }

  predicate EndsLine(out: string) { out == "" || out[|out| - 1] == '\n' }

  /** The output without its last line break, which the split takes off with the marker. */
  function Printed(out: string): string {
    if out != "" && EndsLine(out) then out[..|out| - 1] else out
  }

  /** What `exec_with_timeout` reports: without a sentinel, the whole body and code 0. */
  function Reported(m: string, body: string): (string, int) {
    match SplitAt(m, body)
    case Some(r) => r
    case None => (body, 0)
  }

  /** Output and exit code survive exactly when the guest's output ends a line: otherwise
      the echoed marker is not at a line start. */
  lemma SurvivesIffLineEnds(m: string, out: string, code: string, n: int)
    requires Frames(m) && Solid(code) && ExitCode(code) == Some(n)
    ensures Reported(m, Sent(m, out, code)) == (Printed(out), n) <==> EndsLine(out)
  {
    var body := Sent(m, out, code);
    SentCut(m, out, code);
    if EndsLine(out) {
      CutGivesCode(m, body, Printed(out), code, n);
    } else {
      assert |body| > |out|;
    }
  }

  lemma SentCut(m: string, out: string, code: string)
    requires Frames(m) && Solid(code)
    ensures var cut := Cut(m, TrimEnd(Sent(m, out, code)));
            if EndsLine(out) then cut == Some((Printed(out), code)) else cut.Some? ==> cut.value.0 != out
  {
    Framed(out, m, code, "\n");
    if out == "" {
      assert out + m + code == m + code;
      BareMarked(m, code);
    } else if EndsLine(out) {
      assert out + m + code == Printed(out) + ("\n" + m) + code;
      FramedMarker(Printed(out), m, code);
    } else {
      NotLineStart(m, out, code);
    }
  }

  lemma NotLineStart(m: string, out: string, code: string)
    requires Frames(m) && out != ""
    ensures Cut(m, out + m + code).Some? ==> Cut(m, out + m + code).value.0 != out
  {
    var trimmed := out + m + code;
    assert trimmed[|out|] == m[0];
    forall tail ensures !LastMarker(m, trimmed, out, tail) {
      assert (out + ("\n" + m) + tail)[|out|] == '\n';
    }
    if Cut(m, trimmed).Some? {
      CutIffLastMarker(m, trimmed, out, Cut(m, trimmed).value.1);
    }
  }

  /** When it does not end a line, and holds no marker of its own, every exit code is
      reported as 0 with the sentinel left in the text. */
  lemma CodeLost(m: string, out: string, code: string)
    requires Frames(m) && Solid(code) && !EndsLine(out)
    requires !At(out, 0, m) && forall k: nat :: !At(out, k, "\n" + m)
    ensures Reported(m, Sent(m, out, code)) == (Sent(m, out, code), 0)
  {
    Framed(out, m, code, "\n");
    NoMarker(m, out, code);
  }

  lemma NoMarker(m: string, out: string, code: string)
    requires Frames(m) && Digits(code) && !EndsLine(out)
    requires !At(out, 0, m) && forall k: nat :: !At(out, k, "\n" + m)
    ensures Cut(m, out + m + code).None?
  {
    var trimmed := out + m + code;
    forall k: nat ensures !At(trimmed, k, "\n" + m) {
      NoStraddle(out, m, code, k, "\n" + m);
    }
    NoStraddle(out, m, code, 0, m);
  }

  /** A pattern that ends in a colon occurs only inside `out`, or ending with `m`. */
  lemma NoStraddle(out: string, m: string, code: string, k: nat, p: string)
    requires Frames(m) && Digits(code) && !EndsLine(out)
    requires p == m || p == "\n" + m
    requires !At(out, k, p) && (p == m ==> k == 0)
    ensures !At(out + m + code, k, p)
  {
    var s := out + m + code;
    assert forall i :: |out| <= i < |out| + |m| ==> s[i] == m[i - |out|];
    assert forall i :: |out| + |m| <= i < |s| ==> Digit(s[i]);
    if At(s, k, p) {
      if k + |p| <= |out| {
        AtShrinks(out, s, k, p);
      } else {
        AtChar(s, k, p, |p| - 1);
        assert k + |p| == |out| + |m|;
        AtChar(s, k, p, 0);
      }
    }
  }
}
