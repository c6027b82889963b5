/**
 * `escape_xml`: makes repository names and descriptions safe to place inside SVG
 * text nodes and attributes.  The source chains five `str.replace` calls with the
 * `&` replacement first; this module models that chain literally and proves it equal
 * to escaping character by character, from which the safety properties and the
 * round trip through an unescaper follow.
 */
module XmlEscape {
  import opened Wrappers
  import opened Text

  /** `escape_xml(s)`: `None` gives the empty string; otherwise the five replacements, `&` first. */
  function EscapeXml(s: Option<string>): (r: string)
    ensures s.None? ==> r == ""
    ensures s.Some? ==> |r| >= |s.value|
  {
    match s
    case None => ""
    case Some(t) =>
      EscapeXmlIsPerChar(t);
      ReplaceAll(ReplaceAll(ReplaceAll(ReplaceAll(ReplaceAll(t, '&', "&amp;"), '<', "&lt;"), '>', "&gt;"),
                            '"', "&quot;"), '\'', "&apos;")
  }

  /** The five predefined XML entities. */
  const Entities: seq<string> := ["&amp;", "&lt;", "&gt;", "&quot;", "&apos;"]

  predicate IsSpecial(c: char) {
    c == '&' || c == '<' || c == '>' || c == '"' || c == '\''
  }

  /** The escape of one character. */
  function EscapeChar(c: char): (r: string)
    ensures |r| >= 1
    ensures !IsSpecial(c) ==> r == [c]
    ensures IsSpecial(c) ==> r in Entities
  {
    if c == '&' then "&amp;"
    else if c == '<' then "&lt;"
    else if c == '>' then "&gt;"
    else if c == '"' then "&quot;"
    else if c == '\'' then "&apos;"
    else [c]
  }

  /** Reference definition: escape every character independently and concatenate. */
  function Escaped(s: string): (r: string)
    ensures |r| >= |s|
  {
    if s == [] then [] else EscapeChar(s[0]) + Escaped(s[1..])
  }

  /** The five-step replacement chain of the source, on a plain string. */
  function Chain(t: string): string {
    ReplaceAll(ReplaceAll(ReplaceAll(ReplaceAll(ReplaceAll(t, '&', "&amp;"), '<', "&lt;"), '>', "&gt;"),
                          '"', "&quot;"), '\'', "&apos;")
  }

  lemma ChainConcat(a: string, b: string)
    ensures Chain(a + b) == Chain(a) + Chain(b)
  {
    var a1, b1 := ReplaceAll(a, '&', "&amp;"), ReplaceAll(b, '&', "&amp;");
    ReplaceAllConcat(a, b, '&', "&amp;");
    var a2, b2 := ReplaceAll(a1, '<', "&lt;"), ReplaceAll(b1, '<', "&lt;");
    ReplaceAllConcat(a1, b1, '<', "&lt;");
    var a3, b3 := ReplaceAll(a2, '>', "&gt;"), ReplaceAll(b2, '>', "&gt;");
    ReplaceAllConcat(a2, b2, '>', "&gt;");
    var a4, b4 := ReplaceAll(a3, '"', "&quot;"), ReplaceAll(b3, '"', "&quot;");
    ReplaceAllConcat(a3, b3, '"', "&quot;");
    ReplaceAllConcat(a4, b4, '\'', "&apos;");
  }

  lemma ReplaceAllOne(c: char, d: char, rep: string)
    ensures ReplaceAll([c], d, rep) == if c == d then rep else [c]
  {
    assert [c][1..] == [];
  }

  /** On one character the chain is `EscapeChar`: a later replacement never touches an earlier entity. */
  lemma ChainOneChar(c: char)
    ensures Chain([c]) == EscapeChar(c)
  {
    ReplaceAllOne(c, '&', "&amp;");
    if c == '&' {
      assert '<' !in "&amp;" && '>' !in "&amp;" && '"' !in "&amp;" && '\'' !in "&amp;";
    } else {
      ReplaceAllOne(c, '<', "&lt;");
      if c == '<' {
        assert '>' !in "&lt;" && '"' !in "&lt;" && '\'' !in "&lt;";
      } else {
        ReplaceAllOne(c, '>', "&gt;");
        if c == '>' {
          assert '"' !in "&gt;" && '\'' !in "&gt;";
        } else {
          ReplaceAllOne(c, '"', "&quot;");
          if c == '"' {
            assert '\'' !in "&quot;";
          } else {
            ReplaceAllOne(c, '\'', "&apos;");
          }
        }
      }
    }
  }

  /** The chained replacements equal the per-character escape, because `&` is replaced first. */
  lemma {:induction false} EscapeXmlIsPerChar(t: string)
    ensures Chain(t) == Escaped(t)
  {
    if t != [] {
      assert t == [t[0]] + t[1..];
      ChainConcat([t[0]], t[1..]);
      ChainOneChar(t[0]);
      EscapeXmlIsPerChar(t[1..]);
    }
  }

  lemma {:induction false} EscapedConcat(a: string, b: string)
    ensures Escaped(a + b) == Escaped(a) + Escaped(b)
  {
    if a == [] {
      assert a + b == b;
    } else {
      assert (a + b)[1..] == a[1..] + b;
      EscapedConcat(a[1..], b);
    }
  }

  /** The escaped text holds no raw `<`, `>`, `"` or `'`. */
  lemma {:induction false} EscapeXmlHasNoRawSpecials(s: Option<string>)
    ensures forall i :: 0 <= i < |EscapeXml(s)| ==> EscapeXml(s)[i] !in "<>\"'"
  {
    if s.Some? {
      EscapeXmlIsPerChar(s.value);
      EscapedHasNoRawSpecials(s.value);
    }
  }

  lemma {:induction false} EscapedHasNoRawSpecials(t: string)
    ensures forall i :: 0 <= i < |Escaped(t)| ==> Escaped(t)[i] !in "<>\"'"
  {
    if t != [] {
      EscapedHasNoRawSpecials(t[1..]);
      var e, rest := EscapeChar(t[0]), Escaped(t[1..]);
      forall i | 0 <= i < |e + rest| ensures (e + rest)[i] !in "<>\"'" {
        if i >= |e| {
          assert (e + rest)[i] == rest[i - |e|];
        }
      }
    }
  }

  /** `s[i..]` begins with one of the five entities. */
  predicate EntityAt(s: string, i: int) {
    0 <= i <= |s| && exists e :: e in Entities && e <= s[i..]
  }

  /** Every `&` of the escaped text starts an entity, so nothing is escaped twice and nothing half-escaped. */
  lemma {:induction false} EscapeXmlAmpersandsStartEntities(s: Option<string>)
    ensures forall i :: 0 <= i < |EscapeXml(s)| && EscapeXml(s)[i] == '&' ==> EntityAt(EscapeXml(s), i)
  {
    if s.Some? {
      EscapeXmlIsPerChar(s.value);
      EscapedAmpersandsStartEntities(s.value);
    }
  }

  lemma {:induction false} EscapedAmpersandsStartEntities(t: string)
    ensures forall i :: 0 <= i < |Escaped(t)| && Escaped(t)[i] == '&' ==> EntityAt(Escaped(t), i)
  {
    if t != [] {
      EscapedAmpersandsStartEntities(t[1..]);
      var e, rest := EscapeChar(t[0]), Escaped(t[1..]);
      var r := e + rest;
      forall i | 0 <= i < |r| && r[i] == '&' ensures EntityAt(r, i) {
        if i < |e| {
          // the only '&' of an entity is its first character
          assert i == 0 && e in Entities;
          EntityAtHead(e, rest);
        } else {
          assert r[i] == rest[i - |e|];
          EntityAtShift(e, rest, i - |e|);
        }
      }
    }
  }

  lemma EntityAtHead(e: string, rest: string)
    requires e in Entities
    ensures EntityAt(e + rest, 0)
  {
    assert e <= (e + rest)[0..];
  }

  lemma EntityAtShift(e: string, rest: string, i: int)
    requires EntityAt(rest, i)
    ensures EntityAt(e + rest, i + |e|)
  {
    var f :| f in Entities && f <= rest[i..];
    assert (e + rest)[i + |e|..] == rest[i..];
  }

  /** Reference inverse: replaces each entity by its character, left to right. */
  function Unescape(s: string): (r: string)
    decreases |s|
  {
    if s == [] then []
    else if "&amp;" <= s then "&" + Unescape(s[5..])
    else if "&lt;" <= s then "<" + Unescape(s[4..])
    else if "&gt;" <= s then ">" + Unescape(s[4..])
    else if "&quot;" <= s then "\"" + Unescape(s[6..])
    else if "&apos;" <= s then "'" + Unescape(s[6..])
    else [s[0]] + Unescape(s[1..])
  }

  lemma NotPrefix(p: string, s: string, i: nat)
    requires i < |p| && i < |s| && p[i] != s[i]
    ensures !(p <= s)
  {
  }

  lemma UnescapeEscapeChar(c: char, rest: string)
    ensures Unescape(EscapeChar(c) + rest) == [c] + Unescape(rest)
  {
    var e := EscapeChar(c);
    var s := e + rest;
    assert s[|e|..] == rest;
    assert e <= s;
    assert s[..|e|] == e;
    if c == '&' {
    } else if c == '<' {
      NotPrefix("&amp;", s, 1);
    } else if c == '>' {
      NotPrefix("&amp;", s, 1); NotPrefix("&lt;", s, 1);
    } else if c == '"' {
      NotPrefix("&amp;", s, 1); NotPrefix("&lt;", s, 1); NotPrefix("&gt;", s, 1);
    } else if c == '\'' {
      NotPrefix("&amp;", s, 2); NotPrefix("&lt;", s, 1); NotPrefix("&gt;", s, 1); NotPrefix("&quot;", s, 1);
    } else {
      NotPrefix("&amp;", s, 0); NotPrefix("&lt;", s, 0); NotPrefix("&gt;", s, 0);
      NotPrefix("&quot;", s, 0); NotPrefix("&apos;", s, 0);
    }
  }

  /** Escaping loses nothing: unescaping the output gives the input back. */
  lemma {:induction false} EscapeXmlRoundTrip(t: string)
    ensures Unescape(EscapeXml(Some(t))) == t
  {
    EscapeXmlIsPerChar(t);
    EscapedRoundTrip(t);
  }

  lemma {:induction false} EscapedRoundTrip(t: string)
    ensures Unescape(Escaped(t)) == t
  {
    if t != [] {
      UnescapeEscapeChar(t[0], Escaped(t[1..]));
      EscapedRoundTrip(t[1..]);
    }
  }
}
