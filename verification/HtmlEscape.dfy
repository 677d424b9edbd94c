/** HTML escaping of report text (crates/proxy/src/trust_reports.rs, `escape_into`). */
module HtmlEscape {
  import opened Text

  function EscapeChar(c: char): string {
    if c == '&' then "&amp;"
    else if c == '<' then "&lt;"
    else if c == '>' then "&gt;"
    else if c == '"' then "&quot;"
    else if c == '\'' then "&#39;"
    else [c]
  }

  function Escape(s: string): string {
    if s == [] then [] else EscapeChar(s[0]) + Escape(s[1..])
  }

  /** The character an entity at the front of `s` stands for, and the entity's length. */
  function Decode(s: string): (char, nat)
    requires s != []
  {
    if "&amp;" <= s then ('&', 5)
    else if "&lt;" <= s then ('<', 4)
    else if "&gt;" <= s then ('>', 4)
    else if "&quot;" <= s then ('"', 6)
    else if "&#39;" <= s then ('\'', 5)
    else (s[0], 1)
  }

  /** An entity decoder. */
  function Unescape(s: string): string {
    if s == [] then []
    else var (c, n) := Decode(s); [c] + Unescape(s[n..])
  }

  predicate StartsEntity(s: string) {
    "&amp;" <= s || "&lt;" <= s || "&gt;" <= s || "&quot;" <= s || "&#39;" <= s
  }

  /** No raw markup character, and every `&` starts one of the five entities. */
  ghost predicate Safe(s: string) {
    forall i :: 0 <= i < |s| ==>
      && s[i] != '<' && s[i] != '>' && s[i] != '"' && s[i] != '\''
      && (s[i] == '&' ==> StartsEntity(s[i..]))
  }

  method EscapeInto(output: string, value: string) returns (r: string)
    ensures r == output + Escape(value)
  {
    r := output;
    for k := 0 to |value|
      invariant r == output + Escape(value[..k])
    {
      EscapeSnoc(output, value, k);
      r := r + EscapeChar(value[k]);
    }
    assert value[..|value|] == value;
  }

  /** The five entities, by name; every other character stands for itself. */
  lemma EntitiesByName(c: char)
    ensures Escape("&") == "&amp;" && Escape("<") == "&lt;" && Escape(">") == "&gt;"
    ensures Escape("\"") == "&quot;" && Escape("'") == "&#39;"
    ensures c !in {'&', '<', '>', '"', '\''} ==> Escape([c]) == [c]
  {
    EscapeCons('&', []);
    EscapeCons('<', []);
    EscapeCons('>', []);
    EscapeCons('"', []);
    EscapeCons('\'', []);
    EscapeCons(c, []);
    assert forall x: char :: [x] + [] == [x];
  }

  lemma EscapeSnoc(output: string, value: string, k: nat)
    requires k < |value|
    ensures output + Escape(value[..k]) + EscapeChar(value[k]) == output + Escape(value[..k + 1])
  {
    assert value[..k + 1] == value[..k] + [value[k]];
    EscapeConcat(value[..k], [value[k]]);
    assert Escape([value[k]]) == EscapeChar(value[k]) + Escape([]) == EscapeChar(value[k]);
    Regroup(output, Escape(value[..k]), EscapeChar(value[k]));
  }

  lemma {:induction false} EscapeConcat(a: string, b: string)
    ensures Escape(a + b) == Escape(a) + Escape(b)
  {
    if a == [] {
      assert a + b == b;
    } else {
      assert (a + b)[1..] == a[1..] + b;
      EscapeConcat(a[1..], b);
    }
  }

  lemma DecodeEscapeChar(c: char, rest: string)
    ensures EscapeChar(c) + rest != []
    ensures Decode(EscapeChar(c) + rest) == (c, |EscapeChar(c)|)
  {
    var s := EscapeChar(c) + rest;
    assert EscapeChar(c) <= s;
    assert s[0] == EscapeChar(c)[0];
    if |EscapeChar(c)| > 1 {
      assert s[1] == EscapeChar(c)[1];
    }
  }

  /** Decoding undoes escaping, so escaping loses nothing. */
  lemma {:induction false} UnescapeEscape(s: string)
    ensures Unescape(Escape(s)) == s
  {
    if s != [] {
      var tail := Escape(s[1..]);
      DecodeEscapeChar(s[0], tail);
      assert (EscapeChar(s[0]) + tail)[|EscapeChar(s[0])|..] == tail;
      UnescapeEscape(s[1..]);
    }
  }

  lemma EscapeInjective(a: string, b: string)
    requires Escape(a) == Escape(b)
    ensures a == b
  {
    UnescapeEscape(a);
    UnescapeEscape(b);
  }

  /** The output is safe to embed in markup and in quoted attributes. */
  lemma {:induction false} EscapeSafe(s: string)
    ensures Safe(Escape(s))
  {
    if s != [] {
      var head, tail := EscapeChar(s[0]), Escape(s[1..]);
      EscapeSafe(s[1..]);
      var e := head + tail;
      forall i | 0 <= i < |e|
        ensures e[i] != '<' && e[i] != '>' && e[i] != '"' && e[i] != '\'' && (e[i] == '&' ==> StartsEntity(e[i..]))
      {
        if i < |head| {
          assert e[i] == head[i];
          assert i == 0 && |head| > 1 ==> head <= e[i..];
        } else {
          assert e[i] == tail[i - |head|];
          assert e[i..] == tail[i - |head|..];
        }
      }
    }
  }

  /** What decodes at the front of a safe string is the escape of the character. */
  lemma EscapeDecoded(e: string)
    requires Safe(e) && e != []
    ensures Decode(e).1 <= |e| && EscapeChar(Decode(e).0) == e[..Decode(e).1]
  {
    assert e[0..] == e;
    if e[0] == '&' {
      assert StartsEntity(e);
    }
  }

  lemma SafeTail(e: string, n: nat)
    requires Safe(e) && n <= |e|
    ensures Safe(e[n..])
  {
    var t := e[n..];
    forall i | 0 <= i < |t|
      ensures t[i] == e[n + i] && t[i..] == e[n + i..]
    {
    }
  }

  /** Escaping is onto the safe strings: each one is the escape of its decoding. */
  lemma {:induction false} EscapeUnescape(e: string)
    requires Safe(e)
    ensures Escape(Unescape(e)) == e
  {
    if e != [] {
      var (c, n) := Decode(e);
      EscapeDecoded(e);
      SafeTail(e, n);
      EscapeUnescape(e[n..]);
      EscapeCons(c, Unescape(e[n..]));
      Halves(e, n);
    }
  }

  lemma Halves(s: string, n: nat)
    requires n <= |s|
    ensures s == s[..n] + s[n..]
  {
  }

  lemma EscapeCons(c: char, s: string)
    ensures Escape([c] + s) == EscapeChar(c) + Escape(s)
  {
    assert ([c] + s)[1..] == s;
  }
}
