/** Identifier and selector normalisation (crates/security/src/normalize.rs). */
module Normalize {
  import opened Text

  function NonEmpty(s: string): Option<string> {
    if s == [] then None else Some(s)
  }

  function NormalizeVulnerabilityId(id: string): Option<string> {
    NonEmpty(Upper(Trim(id)))
  }

  function NormalizeMatchValue(value: string): Option<string> {
    NonEmpty(Lower(Trim(value)))
  }

  function NormalizeContextValue(value: string, fallback: string): string {
    match NormalizeMatchValue(value)
    case Some(v) => v
    case None => fallback
  }

  predicate MatchesSelector(selectors: seq<string>, value: Option<string>) {
    selectors == [] || (value.Some? && NormalizeMatchValue(value.value).Some?
                        && NormalizeMatchValue(value.value).value in selectors)
  }

  /** Normalising twice is normalising once, for match values and for vulnerability ids. */
  lemma NormalizeIdempotent(value: string)
    ensures NormalizeMatchValue(value).None? <==> Blank(value)
    ensures NormalizeVulnerabilityId(value).None? <==> Blank(value)
    ensures NormalizeMatchValue(value).Some? ==>
              NormalizeMatchValue(NormalizeMatchValue(value).value) == NormalizeMatchValue(value)
    ensures NormalizeVulnerabilityId(value).Some? ==>
              NormalizeVulnerabilityId(NormalizeVulnerabilityId(value).value) == NormalizeVulnerabilityId(value)
  {
    TrimShape(value);
    LowerShape(Trim(value));
    TrimShape(Lower(Trim(value)));
    TrimShape(Upper(Trim(value)));
  }

  // ---- Sorted, duplicate-free lists ----

  ghost predicate StrictlyIncreasing(s: seq<string>) {
    forall i, j :: 0 <= i < j < |s| ==> Less(s[i], s[j])
  }

  ghost predicate Sorted(s: seq<string>) {
    forall i, j :: 0 <= i < j < |s| ==> s[i] == s[j] || Less(s[i], s[j])
  }

  ghost predicate SameElements(a: seq<string>, b: seq<string>) {
    forall x :: x in a <==> x in b
  }

  /** A strictly increasing list is determined by its set of elements. */
  lemma {:induction false} StrictlyIncreasingUnique(a: seq<string>, b: seq<string>)
    requires StrictlyIncreasing(a) && StrictlyIncreasing(b) && SameElements(a, b)
    ensures a == b
  {
    HeadIsMember(a);
    HeadIsMember(b);
    if a != [] && b != [] {
      HeadIsLeast(a, b[0]);
      HeadIsLeast(b, a[0]);
      if a[0] != b[0] {
        LessAsymmetric(a[0], b[0]);
      }
      forall x
        ensures x in a[1..] <==> x in b[1..]
      {
        TailMembers(a, x);
        TailMembers(b, x);
      }
      StrictlyIncreasingUnique(a[1..], b[1..]);
      assert a == [a[0]] + a[1..] && b == [b[0]] + b[1..];
    }
  }

  lemma HeadIsMember(s: seq<string>)
    ensures s != [] ==> s[0] in s
  {
  }

  lemma HeadIsLeast(s: seq<string>, x: string)
    requires StrictlyIncreasing(s) && x in s
    ensures x == s[0] || Less(s[0], x)
  {
  }

  lemma TailMembers(s: seq<string>, x: string)
    requires StrictlyIncreasing(s) && s != []
    ensures x in s[1..] <==> x in s && x != s[0]
  {
    LessIrreflexive(s[0]);
    if x in s && x != s[0] {
      var i :| 0 <= i < |s| && s[i] == x;
      assert s[1..][i - 1] == x;
    }
  }

  function InsertSorted(x: string, s: seq<string>): seq<string> {
    if s == [] then [x]
    else if x == s[0] then s
    else if Less(x, s[0]) then [x] + s
    else [s[0]] + InsertSorted(x, s[1..])
  }

  lemma {:induction false} InsertSortedShape(x: string, s: seq<string>)
    requires StrictlyIncreasing(s)
    ensures StrictlyIncreasing(InsertSorted(x, s))
    ensures forall y :: y in InsertSorted(x, s) <==> y == x || y in s
  {
    if s != [] && x != s[0] {
      LessTotal(x, s[0]);
      if Less(x, s[0]) {
        forall j | 0 <= j < |s|
          ensures Less(x, s[j])
        {
          if j > 0 {
            LessTransitive(x, s[0], s[j]);
          }
        }
      } else {
        InsertSortedShape(x, s[1..]);
        assert s == [s[0]] + s[1..];
        var r := InsertSorted(x, s[1..]);
        forall j | 0 <= j < |r|
          ensures Less(s[0], r[j])
        {
          assert r[j] in r;
        }
      }
    }
  }

  /** What `normalized_selector_list` computes, as a value. */
  function NormalizedSelectors(values: seq<string>): seq<string> {
    if values == [] then []
    else match NormalizeMatchValue(values[0])
      case None => NormalizedSelectors(values[1..])
      case Some(n) => InsertSorted(n, NormalizedSelectors(values[1..]))
  }

  ghost predicate Denotes(values: seq<string>, n: string) {
    exists i :: 0 <= i < |values| && NormalizeMatchValue(values[i]) == Some(n)
  }

  lemma {:induction false} NormalizedSelectorsShape(values: seq<string>)
    ensures StrictlyIncreasing(NormalizedSelectors(values))
    ensures forall n :: n in NormalizedSelectors(values) <==> Denotes(values, n)
  {
    if values != [] {
      var rest := NormalizedSelectors(values[1..]);
      NormalizedSelectorsShape(values[1..]);
      if NormalizeMatchValue(values[0]).Some? {
        InsertSortedShape(NormalizeMatchValue(values[0]).value, rest);
      }
      forall n
        ensures Denotes(values, n) <==> NormalizeMatchValue(values[0]) == Some(n) || Denotes(values[1..], n)
      {
        DenotesUncons(values, n);
      }
    }
  }

  lemma DenotesUncons(values: seq<string>, n: string)
    requires values != []
    ensures Denotes(values, n) <==> NormalizeMatchValue(values[0]) == Some(n) || Denotes(values[1..], n)
  {
    if Denotes(values[1..], n) {
      var i :| 0 <= i < |values[1..]| && NormalizeMatchValue(values[1..][i]) == Some(n);
      assert NormalizeMatchValue(values[i + 1]) == Some(n);
    }
    if Denotes(values, n) && NormalizeMatchValue(values[0]) != Some(n) {
      var i :| 0 <= i < |values| && NormalizeMatchValue(values[i]) == Some(n);
      assert NormalizeMatchValue(values[1..][i - 1]) == Some(n);
    }
  }

  // ---- The loops of the source ----

  lemma SortedInsertAt(r: seq<string>, x: string, i: nat)
    requires Sorted(r) && i <= |r|
    requires i > 0 ==> !Less(x, r[i - 1])
    requires forall j :: i <= j < |r| ==> Less(x, r[j])
    ensures Sorted(r[..i] + [x] + r[i..])
    ensures forall y :: y in r[..i] + [x] + r[i..] <==> y == x || y in r
  {
    if i > 0 {
      LessTotal(x, r[i - 1]);
      forall j | 0 <= j < i
        ensures r[j] == x || Less(r[j], x)
      {
        if r[j] != x && r[j] != r[i - 1] && r[i - 1] != x {
          LessTransitive(r[j], r[i - 1], x);
        }
      }
    }
    assert r == r[..i] + r[i..];
  }

  method Sort(values: seq<string>) returns (r: seq<string>)
    ensures Sorted(r) && SameElements(r, values)
  {
    r := [];
    for k := 0 to |values|
      invariant Sorted(r) && SameElements(r, values[..k])
    {
      var x, i := values[k], |r|;
      while i > 0 && Less(x, r[i - 1])
        invariant 0 <= i <= |r|
        invariant forall j :: i <= j < |r| ==> Less(x, r[j])
      {
        i := i - 1;
      }
      assert values[..k + 1] == values[..k] + [x];
      SortedInsertAt(r, x, i);
      r := r[..i] + [x] + r[i..];
    }
    assert values[..|values|] == values;
  }

  method Dedup(values: seq<string>) returns (r: seq<string>)
    requires Sorted(values)
    ensures StrictlyIncreasing(r) && SameElements(r, values)
  {
    r := [];
    for k := 0 to |values|
      invariant StrictlyIncreasing(r) && SameElements(r, values[..k])
      invariant r == [] <==> k == 0
      invariant k > 0 ==> r[|r| - 1] == values[k - 1]
    {
      assert values[..k + 1] == values[..k] + [values[k]];
      if r == [] || r[|r| - 1] != values[k] {
        forall j | 0 <= j < |r|
          ensures Less(r[j], values[k])
        {
          if j < |r| - 1 {
            LessTransitive(r[j], r[|r| - 1], values[k]);
          }
        }
        r := r + [values[k]];
      }
    }
    assert values[..|values|] == values;
  }

  /** Collect the normalised values, sort, drop duplicates. */
  method NormalizedSelectorList(values: seq<string>) returns (r: seq<string>)
    ensures StrictlyIncreasing(r)
    ensures forall n :: n in r <==> Denotes(values, n)
    ensures r == NormalizedSelectors(values)
  {
    var normalized: seq<string> := [];
    for k := 0 to |values|
      invariant forall n :: n in normalized <==> Denotes(values[..k], n)
    {
      ghost var before := normalized;
      if NormalizeMatchValue(values[k]).Some? {
        normalized := normalized + [NormalizeMatchValue(values[k]).value];
      }
      forall n
        ensures n in normalized <==> Denotes(values[..k + 1], n)
      {
        assert n in before <==> Denotes(values[..k], n);
        DenotesSnoc(values, k, n);
      }
    }
    assert values[..|values|] == values;
    normalized := Sort(normalized);
    r := Dedup(normalized);
    NormalizedSelectorsShape(values);
    StrictlyIncreasingUnique(r, NormalizedSelectors(values));
  }

  lemma DenotesSnoc(values: seq<string>, k: nat, n: string)
    requires k < |values|
    ensures Denotes(values[..k + 1], n) <==> Denotes(values[..k], n) || NormalizeMatchValue(values[k]) == Some(n)
  {
    if Denotes(values[..k], n) {
      var i :| 0 <= i < k && NormalizeMatchValue(values[..k][i]) == Some(n);
      assert NormalizeMatchValue(values[..k + 1][i]) == Some(n);
    }
    if NormalizeMatchValue(values[k]) == Some(n) {
      assert NormalizeMatchValue(values[..k + 1][k]) == Some(n);
    }
    if Denotes(values[..k + 1], n) && NormalizeMatchValue(values[k]) != Some(n) {
      var i :| 0 <= i < k + 1 && NormalizeMatchValue(values[..k + 1][i]) == Some(n);
      assert NormalizeMatchValue(values[..k][i]) == Some(n);
    }
  }

  // ---- What matching a normalised list means ----

  /** Two strings are the same selector: equal after trimming, up to ASCII case, and not blank. */
  ghost predicate SameSelector(a: string, b: string) {
    !Blank(a) && Lower(Trim(a)) == Lower(Trim(b))
  }

  /** In plain terms: not blank, and equal up to surrounding blanks and ASCII case. */
  lemma SameSelectorMeaning(a: string, b: string)
    ensures SameSelector(a, b) <==>
            !Blank(a) && exists x, y :: TrimsTo(a, x) && TrimsTo(b, y) && SameIgnoringCase(x, y)
    ensures SameSelector(a, b) <==> NormalizeMatchValue(a).Some? && NormalizeMatchValue(a) == NormalizeMatchValue(b)
    ensures SameSelector(a, b) <==>
            NormalizeVulnerabilityId(a).Some? && NormalizeVulnerabilityId(a) == NormalizeVulnerabilityId(b)
  {
    TrimMeaning(a);
    TrimMeaning(b);
    TrimShape(a);
    FoldingMeaning(Trim(a), Trim(b));
  }

  /** Matching against the normalised list: every raw selector is blank (a wildcard), or some raw
      selector is the value up to surrounding blanks and ASCII case. */
  lemma MatchingMeaning(raw: seq<string>, value: Option<string>)
    ensures MatchesSelector(NormalizedSelectors(raw), value) <==>
            || (forall i :: 0 <= i < |raw| ==> Blank(raw[i]))
            || (value.Some? && exists i :: 0 <= i < |raw| && SameSelector(raw[i], value.value))
  {
    NormalizedSelectorsShape(raw);
    var list := NormalizedSelectors(raw);
    forall i | 0 <= i < |raw|
      ensures Blank(raw[i]) <==> NormalizeMatchValue(raw[i]).None?
      ensures !Blank(raw[i]) ==> NormalizeMatchValue(raw[i]).value in list
      ensures value.Some? ==> (SameSelector(raw[i], value.value) <==>
                               NormalizeMatchValue(raw[i]).Some?
                                 && NormalizeMatchValue(raw[i]) == NormalizeMatchValue(value.value))
    {
      NormalizeIdempotent(raw[i]);
      if NormalizeMatchValue(raw[i]).Some? {
        assert Denotes(raw, NormalizeMatchValue(raw[i]).value);
      }
    }
    if list != [] {
      assert list[0] in list;
      var i :| 0 <= i < |raw| && NormalizeMatchValue(raw[i]) == Some(list[0]);
      assert !Blank(raw[i]);
    }
    if value.Some? && NormalizeMatchValue(value.value).Some? && NormalizeMatchValue(value.value).value in list {
      var i :| 0 <= i < |raw| && NormalizeMatchValue(raw[i]) == NormalizeMatchValue(value.value);
      assert SameSelector(raw[i], value.value);
    }
  }

  /** Raw selector lists that say the same thing: every non-blank selector of one occurs in the
      other up to surrounding blanks and ASCII case. Reordering, repeating, re-casing and padding
      all keep this relation. */
  ghost predicate EquivalentSelectors(a: seq<string>, b: seq<string>) {
    && (forall i :: 0 <= i < |a| && !Blank(a[i]) ==> exists j :: 0 <= j < |b| && SameSelector(a[i], b[j]))
    && (forall j :: 0 <= j < |b| && !Blank(b[j]) ==> exists i :: 0 <= i < |a| && SameSelector(b[j], a[i]))
  }

  lemma EquivalentSelectorsDenote(a: seq<string>, b: seq<string>, n: string)
    requires forall i :: 0 <= i < |a| && !Blank(a[i]) ==> exists j :: 0 <= j < |b| && SameSelector(a[i], b[j])
    requires Denotes(a, n)
    ensures Denotes(b, n)
  {
    var i :| 0 <= i < |a| && NormalizeMatchValue(a[i]) == Some(n);
    NormalizeIdempotent(a[i]);
    var j :| 0 <= j < |b| && SameSelector(a[i], b[j]);
    assert NormalizeMatchValue(b[j]) == Some(n);
  }

  /** Equivalent raw lists normalise to the same list. */
  lemma EquivalentSelectorsNormalizeEqually(a: seq<string>, b: seq<string>)
    requires EquivalentSelectors(a, b)
    ensures NormalizedSelectors(a) == NormalizedSelectors(b)
  {
    NormalizedSelectorsShape(a);
    NormalizedSelectorsShape(b);
    forall n
      ensures n in NormalizedSelectors(a) <==> n in NormalizedSelectors(b)
    {
      if Denotes(a, n) {
        EquivalentSelectorsDenote(a, b, n);
      }
      if Denotes(b, n) {
        EquivalentSelectorsDenote(b, a, n);
      }
    }
    StrictlyIncreasingUnique(NormalizedSelectors(a), NormalizedSelectors(b));
  }
}
