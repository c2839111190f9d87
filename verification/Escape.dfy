/** XML and HTML escaping by five successive replaces (`xml_escape`, `html_escape`), against
    the predefined entities of section 4.6 of XML 1.0. */
module Escape {
  import opened Text

  /** The two callers differ only in the entity for the apostrophe. */
  datatype Dialect = Xml | Html {
    function Apos(): string { if Xml? then "&apos;" else "&#39;" }
  }

  /** The chain of replaces. The ampersand goes first, or it would escape the others. */
  function EscapeChain(d: Dialect, s: string): string {
    var a := Replace(s, '&', "&amp;");
    var b := Replace(a, '<', "&lt;");
    var c := Replace(b, '>', "&gt;");
    var e := Replace(c, '"', "&quot;");
    Replace(e, '\'', d.Apos())
  }

  /** One character's escape. */
  function Entity(d: Dialect, c: char): string {
    if c == '&' then "&amp;"
    else if c == '<' then "&lt;"
    else if c == '>' then "&gt;"
    else if c == '"' then "&quot;"
    else if c == '\'' then d.Apos()
    else [c]
  }

  function SinglePass(d: Dialect, s: string): string {
    if s == "" then "" else Entity(d, s[0]) + SinglePass(d, s[1..])
  }

  predicate Markup(c: char) { c == '<' || c == '>' || c == '"' || c == '\'' }

  predicate Escaped(c: char) { c == '&' || Markup(c) }

  lemma {:induction false} ReplaceAbsent(s: string, c: char, rep: string)
    requires c !in s
    ensures Replace(s, c, rep) == s
  {
    if s != "" {
      assert s == [s[0]] + s[1..];
      ReplaceAbsent(s[1..], c, rep);
    }
  }

  lemma ReplaceOne(c: char, rep: string)
    ensures Replace([c], c, rep) == rep
  {
    assert [c][1..] == "" && rep + "" == rep;
  }

  lemma ChainConcat(d: Dialect, s: string, t: string)
    ensures EscapeChain(d, s + t) == EscapeChain(d, s) + EscapeChain(d, t)
  {
    ReplaceConcat(s, t, '&', "&amp;");
    var s1, t1 := Replace(s, '&', "&amp;"), Replace(t, '&', "&amp;");
    ReplaceConcat(s1, t1, '<', "&lt;");
    var s2, t2 := Replace(s1, '<', "&lt;"), Replace(t1, '<', "&lt;");
    ReplaceConcat(s2, t2, '>', "&gt;");
    var s3, t3 := Replace(s2, '>', "&gt;"), Replace(t2, '>', "&gt;");
    ReplaceConcat(s3, t3, '"', "&quot;");
    var s4, t4 := Replace(s3, '"', "&quot;"), Replace(t3, '"', "&quot;");
    ReplaceConcat(s4, t4, '\'', d.Apos());
  }

  predicate NoMarkup(e: string) { '<' !in e && '>' !in e && '"' !in e && '\'' !in e }

  function AfterQuot(d: Dialect, s: string): string { Replace(s, '\'', d.Apos()) }
  function AfterGt(d: Dialect, s: string): string { AfterQuot(d, Replace(s, '"', "&quot;")) }
  function AfterLt(d: Dialect, s: string): string { AfterGt(d, Replace(s, '>', "&gt;")) }
  function AfterAmp(d: Dialect, s: string): string { AfterLt(d, Replace(s, '<', "&lt;")) }

  lemma EntityStays(d: Dialect, e: string)
    requires NoMarkup(e)
    ensures AfterQuot(d, e) == AfterGt(d, e) == AfterLt(d, e) == AfterAmp(d, e) == e
  {
    ReplaceAbsent(e, '\'', d.Apos());
    ReplaceAbsent(e, '"', "&quot;");
    ReplaceAbsent(e, '>', "&gt;");
    ReplaceAbsent(e, '<', "&lt;");
  }

  lemma EntityNoMarkup(d: Dialect, c: char)
    ensures c == '&' || !Escaped(c) ==> NoMarkup(Entity(d, c))
    ensures Markup(c) ==> NoMarkup(Entity(d, c))
  {
  }

  lemma ChainOne(d: Dialect, c: char)
    ensures EscapeChain(d, [c]) == Entity(d, c)
  {
    var e := Entity(d, c);
    EntityNoMarkup(d, c);
    EntityStays(d, e);
    if c == '&' {
      ReplaceOne(c, e);
    } else {
      ReplaceAbsent([c], '&', "&amp;");
      if c == '<' {
        ReplaceOne(c, e);
      } else {
        ReplaceAbsent([c], '<', "&lt;");
        if c == '>' {
          ReplaceOne(c, e);
        } else {
          ReplaceAbsent([c], '>', "&gt;");
          if c == '"' {
            ReplaceOne(c, e);
          } else {
            ReplaceAbsent([c], '"', "&quot;");
            if c == '\'' { ReplaceOne(c, e); }
          }
        }
      }
    }
  }

  /** The five replaces are one substitution per character. */
  lemma {:induction false} ChainIsSinglePass(d: Dialect, s: string)
    ensures EscapeChain(d, s) == SinglePass(d, s)
  {
    if s == "" {
    } else {
      assert s == [s[0]] + s[1..];
      ChainConcat(d, [s[0]], s[1..]);
      ChainOne(d, s[0]);
      ChainIsSinglePass(d, s[1..]);
    }
  }

  /** The entities, which a single pass puts in one by one. */
  lemma PredefinedEntities(d: Dialect)
    ensures Entity(d, '&') == "&amp;" && Entity(d, '<') == "&lt;" && Entity(d, '>') == "&gt;"
    ensures Entity(d, '"') == "&quot;" && Entity(d, '\'') == if d.Xml? then "&apos;" else "&#39;"
    ensures forall c :: !Escaped(c) ==> Entity(d, c) == [c]
  {
  }

  // ---- decoding ----

  /** The character and length of the entity reference at the start of `s`, if there is one. */
  function EntityAt(d: Dialect, s: string): Option<(char, nat)> {
    if At(s, 0, "&amp;") then Some(('&', 5))
    else if At(s, 0, "&lt;") then Some(('<', 4))
    else if At(s, 0, "&gt;") then Some(('>', 4))
    else if At(s, 0, "&quot;") then Some(('"', 6))
    else if At(s, 0, d.Apos()) then Some(('\'', |d.Apos()|))
    else None
  }

  /** Replaces every reference; an ampersand that starts none is malformed. */
  function Decode(d: Dialect, s: string): Option<string>
    decreases |s|
  {
    if s == "" then Some("")
    else if s[0] == '&' then
      match EntityAt(d, s)
      case None => None
      case Some((c, n)) =>
        var rest := Decode(d, s[n..]);
        if rest.None? then None else Some([c] + rest.value)
    else
      var rest := Decode(d, s[1..]);
      if rest.None? then None else Some([s[0]] + rest.value)
  }

  lemma Mismatch(s: string, p: string, k: nat)
    requires k < |p| && k < |s| && s[k] != p[k]
    ensures !At(s, 0, p)
  {
    if At(s, 0, p) { AtChar(s, 0, p, k); }
  }

  lemma EntityReads(d: Dialect, c: char, rest: string)
    requires Escaped(c)
    ensures EntityAt(d, Entity(d, c) + rest) == Some((c, |Entity(d, c)|))
    ensures (Entity(d, c) + rest)[0] == '&' && (Entity(d, c) + rest)[|Entity(d, c)|..] == rest
  {
    var e := Entity(d, c);
    var s := e + rest;
    AtMiddle("", e, rest);
    assert "" + e + rest == s;
    assert s[0] == e[0] && s[1] == e[1] && s[2] == e[2];
    if c != '&' { Mismatch(s, "&amp;", if c == '\'' && d.Xml? then 2 else 1); }
    if c == '>' || c == '"' || c == '\'' { Mismatch(s, "&lt;", 1); }
    if c == '"' || c == '\'' { Mismatch(s, "&gt;", 1); }
    if c == '\'' { Mismatch(s, "&quot;", 1); }
  }

  /** Decoding inverts escaping for every string. */
  lemma {:induction false} DecodeInverts(d: Dialect, s: string)
    ensures Decode(d, EscapeChain(d, s)) == Some(s)
  {
    ChainIsSinglePass(d, s);
    if s != "" {
      var rest := SinglePass(d, s[1..]);
      ChainIsSinglePass(d, s[1..]);
      DecodeInverts(d, s[1..]);
      assert s == [s[0]] + s[1..];
      if Escaped(s[0]) {
        EntityReads(d, s[0], rest);
      } else {
        assert ([s[0]] + rest)[1..] == rest;
      }
    }
  }

  /** No markup character, and no ampersand that does not start a reference. */
  predicate WellEscaped(d: Dialect, out: string) {
    forall i :: 0 <= i < |out| ==> !Markup(out[i]) && (out[i] == '&' ==> EntityAt(d, out[i..]).Some?)
  }

  lemma EntityShape(d: Dialect, c: char)
    ensures var e := Entity(d, c);
            (forall i :: 0 <= i < |e| ==> !Markup(e[i])) && (forall i :: 1 <= i < |e| ==> e[i] != '&')
  {
  }

  /** What is interpolated can neither open a tag nor close an attribute. */
  lemma {:induction false} OutputIsWellEscaped(d: Dialect, s: string)
    ensures WellEscaped(d, EscapeChain(d, s))
  {
    ChainIsSinglePass(d, s);
    if s != "" {
      var e, rest := Entity(d, s[0]), SinglePass(d, s[1..]);
      ChainIsSinglePass(d, s[1..]);
      OutputIsWellEscaped(d, s[1..]);
      EntityShape(d, s[0]);
      var out := e + rest;
      forall i | 0 <= i < |out| ensures !Markup(out[i]) && (out[i] == '&' ==> EntityAt(d, out[i..]).Some?) {
        if i >= |e| {
          assert out[i..] == rest[i - |e|..] && out[i] == rest[i - |e|];
        } else {
          assert out[i] == e[i];
          if Escaped(s[0]) && i == 0 {
            EntityReads(d, s[0], rest);
            assert out[0..] == out;
          }
        }
      }
    }
  }
}
