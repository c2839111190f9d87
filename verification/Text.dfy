/** String helpers shared by the parsers: occurrences, white space, trimming,
    line splitting and decimal numerals, as Rust's `str` defines them. */
module Text {

  datatype Option<+T> = None | Some(value: T)

  /** Unicode `White_Space`, which both `char::is_whitespace` and the regex class `\s` use. */
  predicate IsSpace(c: char) {
    || 9 <= c as int <= 13 || c as int == 0x20 || c as int == 0x85 || c as int == 0xA0
    || c as int == 0x1680 || 0x2000 <= c as int <= 0x200A || c as int == 0x2028
    || c as int == 0x2029 || c as int == 0x202F || c as int == 0x205F || c as int == 0x3000
  }

  predicate NoSpaces(s: string) { forall i :: 0 <= i < |s| ==> !IsSpace(s[i]) }

  predicate AllSpaces(s: string) { forall i :: 0 <= i < |s| ==> IsSpace(s[i]) }

  /** `p` occurs in `s` at index `i`. */
  predicate At(s: string, i: int, p: string) {
    0 <= i && i + |p| <= |s| && s[i..i + |p|] == p
  }

  lemma AtChar(s: string, i: int, p: string, k: int)
    requires At(s, i, p) && 0 <= k < |p|
    ensures s[i + k] == p[k]
  {
    assert s[i..i + |p|][k] == s[i + k];
  }

  lemma AtExtends(s: string, t: string, i: int, p: string)
    requires At(s, i, p) && s <= t
    ensures At(t, i, p)
  {
    assert t[i..i + |p|] == s[i..i + |p|];
  }

  lemma AtShrinks(s: string, t: string, i: int, p: string)
    requires At(t, i, p) && s <= t && i + |p| <= |s|
    ensures At(s, i, p)
  {
    assert t[i..i + |p|] == s[i..i + |p|];
  }

  lemma AtMiddle(head: string, p: string, tail: string)
    ensures At(head + p + tail, |head|, p)
  {
    assert (head + p + tail)[|head|..|head| + |p|] == p;
  }

  /** `str::trim_end`. */
  function TrimEnd(s: string): (r: string)
    ensures r <= s && AllSpaces(s[|r|..])
    ensures r != "" ==> !IsSpace(r[|r| - 1])
  {
    if s != "" && IsSpace(s[|s| - 1]) then TrimEnd(s[..|s| - 1]) else s
  }

  /** `str::trim_start`. */
  function TrimStart(s: string): (r: string)
    ensures |r| <= |s| && r == s[|s| - |r|..] && AllSpaces(s[..|s| - |r|])
    ensures r != "" ==> !IsSpace(r[0])
  {
    if s != "" && IsSpace(s[0]) then TrimStart(s[1..]) else s
  }

  function Trim(s: string): string { TrimStart(TrimEnd(s)) }

  lemma {:induction false} TrimEndDrops(s: string, ws: string)
    requires AllSpaces(ws)
    requires s == "" || !IsSpace(s[|s| - 1])
    ensures TrimEnd(s + ws) == s
  {
    if ws == "" {
      assert s + ws == s;
    } else {
      assert (s + ws)[..|s + ws| - 1] == s + ws[..|ws| - 1];
      TrimEndDrops(s, ws[..|ws| - 1]);
    }
  }

  lemma TrimSolid(s: string)
    requires NoSpaces(s)
    ensures Trim(s) == s
  {
  }

  // ---- str::replace and str::split by one character ----

  /** `s.replace(c, rep)`. */
  function Replace(s: string, c: char, rep: string): string {
    if s == "" then "" else (if s[0] == c then rep else [s[0]]) + Replace(s[1..], c, rep)
  }

  lemma {:induction false} ReplaceConcat(s: string, t: string, c: char, rep: string)
    ensures Replace(s + t, c, rep) == Replace(s, c, rep) + Replace(t, c, rep)
  {
    if s == "" {
      assert s + t == t;
    } else {
      assert (s + t)[1..] == s[1..] + t;
      ReplaceConcat(s[1..], t, c, rep);
    }
  }

  /** `s.split(c)`: never empty. */
  function Split(s: string, c: char): (parts: seq<string>)
    ensures parts != []
  {
    if s == "" then [""]
    else
      var rest := Split(s[1..], c);
      if s[0] == c then [""] + rest else [[s[0]] + rest[0]] + rest[1..]
  }

  /** Every part behind a separator. */
  function Glue(sep: string, parts: seq<string>): string {
    if parts == [] then "" else sep + parts[0] + Glue(sep, parts[1..])
  }

  lemma {:induction false} GlueAppend(sep: string, parts: seq<string>, p: string)
    ensures Glue(sep, parts + [p]) == Glue(sep, parts) + sep + p
  {
    if parts == [] {
      assert [p][1..] == [] && parts + [p] == [p];
    } else {
      GlueAppend(sep, parts[1..], p);
      assert (parts + [p])[1..] == parts[1..] + [p];
    }
  }

  /** Splitting at a character and joining with a replacement is replacing it. */
  lemma {:induction false} SplitGlue(s: string, c: char, rep: string)
    ensures Split(s, c)[0] + Glue(rep, Split(s, c)[1..]) == Replace(s, c, rep)
  {
    if s != "" {
      SplitGlue(s[1..], c, rep);
      var parts, rest := Split(s, c), Split(s[1..], c);
      var tail := Glue(rep, rest[1..]);
      if s[0] == c {
        assert parts == [""] + rest && parts[1..] == rest;
        assert Glue(rep, rest) == rep + rest[0] + tail;
        assert rep + rest[0] + tail == rep + (rest[0] + tail);
      } else {
        assert parts == [[s[0]] + rest[0]] + rest[1..] && parts[1..] == rest[1..];
        assert [s[0]] + rest[0] + tail == [s[0]] + (rest[0] + tail);
      }
    }
  }

  // ---- str::lines ----

  /** Index of the first newline, or the length. */
  function LineEnd(s: string): (k: nat)
    ensures k <= |s| && '\n' !in s[..k]
    ensures k < |s| ==> s[k] == '\n'
  {
    if s == "" || s[0] == '\n' then 0 else
      var k := LineEnd(s[1..]);
      assert s[..k + 1] == [s[0]] + s[1..][..k];
      k + 1
  }

  function StripCr(s: string): string {
    if s != "" && s[|s| - 1] == '\r' then s[..|s| - 1] else s
  }

  /** `str::lines`: a carriage return is dropped only in front of a newline. */
  function Lines(s: string): (ls: seq<string>)
    ensures s != "" ==> ls != []
    decreases |s|
  {
    if s == "" then []
    else
      var k := LineEnd(s);
      if k == |s| then [s] else [StripCr(s[..k])] + Lines(s[k + 1..])
  }

  lemma LineEndUnique(s: string, k: nat)
    requires k <= |s| && '\n' !in s[..k] && (k < |s| ==> s[k] == '\n')
    ensures LineEnd(s) == k
  {
    var e := LineEnd(s);
    assert forall i :: 0 <= i < k ==> s[i] == s[..k][i];
    assert forall i :: 0 <= i < e ==> s[i] == s[..e][i];
  }
}
