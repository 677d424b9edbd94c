/** Strings as the proxy sees them: Unicode scalar values, trimming, ASCII case folding and
    the lexicographic order used by sorted vectors, ordered sets and ordered maps. */
module Text {

  const U64_MAX: nat := 0xFFFF_FFFF_FFFF_FFFF

  datatype Option<+T> = None | Some(value: T)

  datatype Result<+T, +E> = Ok(value: T) | Err(error: E)

  /** The Unicode White_Space property, which is what trimming removes. */
  predicate IsWhitespace(c: char) {
    var n := c as int;
    || 0x09 <= n <= 0x0D || n == 0x20 || n == 0x85 || n == 0xA0 || n == 0x1680
    || 0x2000 <= n <= 0x200A || n == 0x2028 || n == 0x2029 || n == 0x202F
    || n == 0x205F || n == 0x3000
  }

  function LowerChar(c: char): char {
    if 'A' <= c <= 'Z' then (c as int + 32) as char else c
  }

  function UpperChar(c: char): char {
    if 'a' <= c <= 'z' then (c as int - 32) as char else c
  }

  function Lower(s: string): string {
    seq(|s|, i requires 0 <= i < |s| => LowerChar(s[i]))
  }

  function Upper(s: string): string {
    seq(|s|, i requires 0 <= i < |s| => UpperChar(s[i]))
  }

  function TrimStart(s: string): string {
    if s != [] && IsWhitespace(s[0]) then TrimStart(s[1..]) else s
  }

  function TrimEnd(s: string): string {
    if s != [] && IsWhitespace(s[|s| - 1]) then TrimEnd(s[..|s| - 1]) else s
  }

  function Trim(s: string): string {
    TrimEnd(TrimStart(s))
  }

  predicate Blank(s: string) {
    forall i :: 0 <= i < |s| ==> IsWhitespace(s[i])
  }

  predicate Trimmed(s: string) {
    s == [] || (!IsWhitespace(s[0]) && !IsWhitespace(s[|s| - 1]))
  }

  lemma {:induction false} TrimStartShape(s: string)
    ensures TrimStart(s) == [] || !IsWhitespace(TrimStart(s)[0])
    ensures TrimStart(s) == [] <==> Blank(s)
    ensures Trimmed(s) ==> TrimStart(s) == s
  {
    if s != [] && IsWhitespace(s[0]) {
      TrimStartShape(s[1..]);
      assert s == [s[0]] + s[1..];
    }
  }

  lemma {:induction false} TrimEndShape(s: string)
    ensures |TrimEnd(s)| <= |s| && TrimEnd(s) == s[..|TrimEnd(s)|]
    ensures TrimEnd(s) == [] || !IsWhitespace(TrimEnd(s)[|TrimEnd(s)| - 1])
    ensures TrimEnd(s) == [] <==> Blank(s)
    ensures Trimmed(s) ==> TrimEnd(s) == s
  {
    if s != [] && IsWhitespace(s[|s| - 1]) {
      TrimEndShape(s[..|s| - 1]);
      assert s == s[..|s| - 1] + [s[|s| - 1]];
    }
  }

  /** Trimming leaves no blank at either end, and leaves nothing exactly for blank strings. */
  lemma TrimShape(s: string)
    ensures Trimmed(Trim(s))
    ensures Trim(s) == [] <==> Blank(s)
    ensures Trimmed(s) ==> Trim(s) == s
  {
    TrimStartShape(s);
    TrimEndShape(TrimStart(s));
  }

  /** Case folding changes no blank, so it keeps a trimmed string trimmed, and it is idempotent. */
  lemma LowerShape(s: string)
    ensures Trimmed(s) ==> Trimmed(Lower(s))
    ensures Lower(Lower(s)) == Lower(s)
    ensures Upper(Upper(s)) == Upper(s)
    ensures Trimmed(s) ==> Trimmed(Upper(s))
  {
  }

  // ---- What trimming, folding and ordering mean ----

  /** The same character, or the two cases of one ASCII letter. */
  predicate SameLetter(a: char, b: char) {
    || a == b
    || ('A' <= a <= 'Z' && b as int == a as int + 32)
    || ('A' <= b <= 'Z' && a as int == b as int + 32)
  }

  predicate SameIgnoringCase(a: string, b: string) {
    |a| == |b| && forall i :: 0 <= i < |a| ==> SameLetter(a[i], b[i])
  }

  /** Folding either way identifies exactly the strings that differ only in ASCII case. */
  lemma FoldingMeaning(a: string, b: string)
    ensures Lower(a) == Lower(b) <==> SameIgnoringCase(a, b)
    ensures Upper(a) == Upper(b) <==> SameIgnoringCase(a, b)
    ensures SameIgnoringCase(a, Lower(a)) && forall i :: 0 <= i < |a| ==> !('A' <= Lower(a)[i] <= 'Z')
    ensures SameIgnoringCase(a, Upper(a)) && forall i :: 0 <= i < |a| ==> !('a' <= Upper(a)[i] <= 'z')
  {
    if SameIgnoringCase(a, b) {
      assert forall i :: 0 <= i < |a| ==> Lower(a)[i] == Lower(b)[i] && Upper(a)[i] == Upper(b)[i];
    }
    if Lower(a) == Lower(b) {
      assert forall i :: 0 <= i < |a| ==> LowerChar(a[i]) == Lower(a)[i] == Lower(b)[i] == LowerChar(b[i]);
    }
    if Upper(a) == Upper(b) {
      assert forall i :: 0 <= i < |a| ==> UpperChar(a[i]) == Upper(a)[i] == Upper(b)[i] == UpperChar(b[i]);
    }
  }

  /** `t` is what stands in `s` between leading and trailing blanks. */
  ghost predicate TrimsTo(s: string, t: string) {
    Trimmed(t) && exists i, j :: Between(s, t, i, j)
  }

  predicate Between(s: string, t: string, i: nat, j: nat) {
    i <= j <= |s| && t == s[i..j] && Blank(s[..i]) && Blank(s[j..])
  }

  lemma {:induction false} TrimStartMeaning(s: string) returns (i: nat)
    ensures i <= |s| && TrimStart(s) == s[i..] && Blank(s[..i])
  {
    if s != [] && IsWhitespace(s[0]) {
      var k := TrimStartMeaning(s[1..]);
      i := k + 1;
      assert s[i..] == s[1..][k..];
      assert forall n :: 1 <= n < i ==> s[n] == s[1..][..k][n - 1];
    } else {
      i := 0;
    }
  }

  lemma {:induction false} TrimEndMeaning(s: string) returns (j: nat)
    ensures j <= |s| && TrimEnd(s) == s[..j] && Blank(s[j..])
  {
    if s != [] && IsWhitespace(s[|s| - 1]) {
      var n := |s| - 1;
      j := TrimEndMeaning(s[..n]);
      assert s[..j] == s[..n][..j];
      assert forall k :: j <= k < n ==> s[k] == s[..n][j..][k - j];
    } else {
      j := |s|;
    }
  }

  /** Trimming removes exactly the blanks at both ends. */
  lemma TrimMeaning(s: string)
    ensures TrimsTo(s, Trim(s))
    ensures forall t :: TrimsTo(s, t) ==> t == Trim(s)
  {
    TrimShape(s);
    var i := TrimStartMeaning(s);
    var j := TrimEndMeaning(s[i..]);
    assert s[i..][..j] == s[i..i + j] && s[i..][j..] == s[i + j..];
    assert Between(s, Trim(s), i, i + j);
    forall t | TrimsTo(s, t)
      ensures t == Trim(s)
    {
      TrimUnique(s, t, Trim(s));
    }
  }

  lemma BlankEnds(s: string, i: nat, j: nat)
    requires i <= j <= |s| && Blank(s[..i]) && Blank(s[j..])
    ensures forall n :: 0 <= n < i || j <= n < |s| ==> IsWhitespace(s[n])
  {
    assert forall n :: 0 <= n < i ==> s[n] == s[..i][n];
    assert forall n :: j <= n < |s| ==> s[n] == s[j..][n - j];
  }

  lemma TrimUnique(s: string, a: string, b: string)
    requires TrimsTo(s, a) && TrimsTo(s, b)
    ensures a == b
  {
    var i: nat, j: nat :| Between(s, a, i, j);
    var k: nat, l: nat :| Between(s, b, k, l);
    BlankEnds(s, i, j);
    BlankEnds(s, k, l);
    assert a != [] ==> a[0] == s[i] && a[|a| - 1] == s[j - 1];
    assert b != [] ==> b[0] == s[k] && b[|b| - 1] == s[l - 1];
  }

  /** Code point order, which for UTF-8 is also byte order. */
  predicate Less(a: string, b: string) {
    b != [] && (a == [] || a[0] < b[0] || (a[0] == b[0] && Less(a[1..], b[1..])))
  }

  lemma {:induction false} LessIrreflexive(a: string)
    ensures !Less(a, a)
  {
    if a != [] {
      LessIrreflexive(a[1..]);
    }
  }

  lemma {:induction false} LessTransitive(a: string, b: string, c: string)
    requires Less(a, b) && Less(b, c)
    ensures Less(a, c)
  {
    if a != [] && a[0] == b[0] == c[0] {
      LessTransitive(a[1..], b[1..], c[1..]);
    }
  }

  lemma {:induction false} LessTotal(a: string, b: string)
    ensures a == b || Less(a, b) || Less(b, a)
  {
    if a != [] && b != [] && a[0] == b[0] {
      LessTotal(a[1..], b[1..]);
      assert a == [a[0]] + a[1..] && b == [b[0]] + b[1..];
    }
  }

  /** The first place where two strings differ decides, and a proper prefix comes first. */
  ghost predicate DiffersAt(a: string, b: string, k: nat) {
    k <= |a| && k < |b| && a[..k] == b[..k] && (k == |a| || a[k] < b[k])
  }

  lemma {:induction false} LessMeaning(a: string, b: string)
    ensures Less(a, b) <==> exists k: nat :: DiffersAt(a, b, k)
  {
    if a == [] || b == [] || a[0] != b[0] {
      if Less(a, b) {
        assert DiffersAt(a, b, 0);
      }
      if k: nat :| DiffersAt(a, b, k) {
        assert k > 0 ==> a[..k][0] == b[..k][0];
      }
    } else {
      LessMeaning(a[1..], b[1..]);
      if k: nat :| DiffersAt(a[1..], b[1..], k) {
        assert a[..k + 1] == [a[0]] + a[1..][..k] && b[..k + 1] == [b[0]] + b[1..][..k];
        assert DiffersAt(a, b, k + 1);
      }
      if k: nat :| DiffersAt(a, b, k) {
        assert k > 0;
        assert a[1..][..k - 1] == a[..k][1..] && b[1..][..k - 1] == b[..k][1..];
        assert DiffersAt(a[1..], b[1..], k - 1);
      }
    }
  }

  lemma LessAsymmetric(a: string, b: string)
    requires Less(a, b)
    ensures a != b && !Less(b, a)
  {
    LessIrreflexive(a);
    if Less(b, a) {
      LessTransitive(a, b, a);
    }
  }

  // ---- Joining ----

  lemma Regroup(a: string, b: string, c: string)
    ensures a + b + c == a + (b + c)
  {
  }

  /** `longer` is `shorter`, a separator and some `x`, and `rest` starts with that `x` and a separator. */
  ghost predicate Spills(shorter: string, rest: string, longer: string, end: string, c: char) {
    exists x :: longer == shorter + [c] + x && rest == x + [c] + end
  }

  /** Two joins at a separator agree exactly when their parts do, or when one first part spills over
      into the other's second. */
  lemma JoinsAgreeExactly(a: string, b: string, a': string, b': string, c: char)
    ensures a + [c] + b == a' + [c] + b' <==>
            (a == a' && b == b') || Spills(a, b, a', b', c) || Spills(a', b', a, b, c)
  {
    var s, s' := a + [c] + b, a' + [c] + b';
    if s == s' {
      if |a| == |a'| {
        assert s[..|a|] == a && s'[..|a|] == a';
        assert s[|a| + 1..] == b && s'[|a| + 1..] == b';
      } else if |a| < |a'| {
        JoinSpills(a, b, a', b', c);
      } else {
        JoinSpills(a', b', a, b, c);
      }
    }
    if x :| a' == a + [c] + x && b == x + [c] + b' {
      SpilledJoin(a, b, a', b', c, x);
    }
    if x :| a == a' + [c] + x && b' == x + [c] + b {
      SpilledJoin(a', b', a, b, c, x);
    }
  }

  lemma SpilledJoin(a: string, b: string, a': string, b': string, c: char, x: string)
    requires a' == a + [c] + x && b == x + [c] + b'
    ensures a + [c] + b == a' + [c] + b'
  {
  }

  lemma JoinSpills(a: string, b: string, a': string, b': string, c: char)
    requires a + [c] + b == a' + [c] + b' && |a| < |a'|
    ensures Spills(a, b, a', b', c)
  {
    var s, x := a + [c] + b, a'[|a| + 1..];
    assert s[..|a'|] == a' && s[|a'|] == c && s[|a'| + 1..] == b';
    assert s[|a|] == c && s[|a| + 1..] == b;
    assert a' == a'[..|a|] + [a'[|a|]] + x;
    assert b == b[..|x|] + [b[|x|]] + b[|x| + 1..];
    assert a' == a + [c] + x && b == x + [c] + b';
  }

  // ---- Searching ----

  /** First position of `c`, or the length when it does not occur. */
  function Find(s: string, c: char): (i: nat)
    ensures i <= |s|
    ensures forall j :: 0 <= j < i ==> s[j] != c
    ensures i < |s| ==> s[i] == c
  {
    if s == [] then 0
    else if s[0] == c then 0
    else var i := Find(s[1..], c);
      assert forall j :: 1 <= j < i + 1 ==> s[j] == s[1..][j - 1];
      i + 1
  }

  lemma FindUnique(s: string, c: char, i: nat)
    requires i <= |s| && (forall j :: 0 <= j < i ==> s[j] != c) && (i < |s| ==> s[i] == c)
    ensures Find(s, c) == i
  {
  }

  lemma FindAfter(text: string, c: char, rest: string)
    requires c !in text
    ensures Find(text + [c] + rest, c) == |text|
  {
    FindUnique(text + [c] + rest, c, |text|);
  }

  predicate Contains(s: string, part: string) {
    exists i | 0 <= i <= |s| :: OccursAt(s, part, i)
  }

  predicate OccursAt(s: string, part: string, i: nat) {
    i + |part| <= |s| && s[i..i + |part|] == part
  }

  lemma ContainsAt(before: string, part: string, after: string)
    ensures Contains(before + part + after, part)
  {
    assert OccursAt(before + part + after, part, |before|);
  }

  lemma ContainsAfter(before: string, s: string, part: string)
    requires Contains(s, part)
    ensures Contains(before + s, part)
  {
    var i :| 0 <= i <= |s| && OccursAt(s, part, i);
    assert (before + s)[|before| + i..|before| + i + |part|] == s[i..i + |part|];
    assert OccursAt(before + s, part, |before| + i);
  }

  lemma ContainsOne(s: string, c: char)
    requires Contains(s, [c])
    ensures c in s
  {
    var i :| 0 <= i <= |s| && OccursAt(s, [c], i);
    assert s[i] == s[i..i + 1][0];
  }
}
