/** Laws of evaluation: monotone in the vulnerabilities and in time, independent of their order,
    antitone in policy strength. */
module PolicyLaws {
  import opened Text
  import opened Normalize
  import opened Targets
  import opened Policy
  import opened Evaluator

  // ---- Counting depends on the multiset only ----

  lemma {:induction false} CountConcat(a: seq<Vulnerability>, b: seq<Vulnerability>, s: Severity)
    ensures CountSeverity(a + b, s) == CountSeverity(a, s) + CountSeverity(b, s)
  {
    if b == [] {
      assert a + b == a;
    } else {
      assert (a + b)[..|a + b| - 1] == a + b[..|b| - 1];
      CountConcat(a, b[..|b| - 1], s);
    }
  }

  function Without(b: seq<Vulnerability>, i: nat): seq<Vulnerability>
    requires i < |b|
  {
    b[..i] + b[i + 1..]
  }

  lemma CountWithout(b: seq<Vulnerability>, i: nat, s: Severity)
    requires i < |b|
    ensures CountSeverity(b, s) == CountSeverity(Without(b, i), s) + if b[i].severity == Some(s) then 1 else 0
  {
    assert b == b[..i + 1] + b[i + 1..];
    assert b[..i + 1][..i] == b[..i];
    CountConcat(b[..i + 1], b[i + 1..], s);
    CountConcat(b[..i], b[i + 1..], s);
  }

  lemma SubMultisetWithout(a: seq<Vulnerability>, b: seq<Vulnerability>, i: nat)
    requires multiset(a) <= multiset(b) && a != [] && i < |b| && b[i] == a[|a| - 1]
    ensures multiset(a[..|a| - 1]) <= multiset(Without(b, i))
  {
    var x := b[i];
    assert a == a[..|a| - 1] + [x];
    assert b == b[..i] + [x] + b[i + 1..];
    assert multiset(b) == multiset(b[..i]) + multiset{x} + multiset(b[i + 1..]);
    assert multiset(a) == multiset(a[..|a| - 1]) + multiset{x};
    forall y
      ensures multiset(a[..|a| - 1])[y] <= multiset(Without(b, i))[y]
    {
      assert multiset(a)[y] <= multiset(b)[y];
    }
  }

  lemma {:induction false} CountSubMultiset(a: seq<Vulnerability>, b: seq<Vulnerability>, s: Severity)
    requires multiset(a) <= multiset(b)
    ensures CountSeverity(a, s) <= CountSeverity(b, s)
    ensures |a| <= |b|
  {
    if a != [] {
      assert a[|a| - 1] in multiset(a);
      var i :| 0 <= i < |b| && b[i] == a[|a| - 1];
      SubMultisetWithout(a, b, i);
      CountSubMultiset(a[..|a| - 1], Without(b, i), s);
      CountWithout(b, i, s);
    }
  }

  lemma {:induction false} ReportedMultiplicity(ps: PolicySet, c: Context, t: ScanTarget, vs: seq<Vulnerability>,
                                                now: int, v: Vulnerability)
    ensures multiset(Reported(ps, c, t, vs, now))[v] == if Counts(ps, c, t, v, now) then multiset(vs)[v] else 0
  {
    if vs != [] {
      assert vs == vs[..|vs| - 1] + [vs[|vs| - 1]];
      ReportedMultiplicity(ps, c, t, vs[..|vs| - 1], now, v);
    }
  }

  // ---- Policy strength ----

  /** An absent limit is unbounded. */
  predicate LimitAtLeast(a: Option<nat>, b: Option<nat>) {
    a.None? || (b.Some? && a.value >= b.value)
  }

  ghost predicate AllowlistIncluded(strict: SecurityPolicy, loose: SecurityPolicy) {
    forall i :: 0 <= i < |strict.allowedIds| && NormalizeVulnerabilityId(strict.allowedIds[i]).Some? ==>
      exists j :: 0 <= j < |loose.allowedIds|
                  && NormalizeVulnerabilityId(loose.allowedIds[j]) == NormalizeVulnerabilityId(strict.allowedIds[i])
  }

  ghost predicate Looser(loose: SecurityPolicy, strict: SecurityPolicy) {
    && LimitAtLeast(loose.limits.total, strict.limits.total)
    && (forall s: Severity :: LimitAtLeast(loose.EffectiveLimit(s), strict.EffectiveLimit(s)))
    && AllowlistIncluded(strict, loose)
  }

  lemma AllowsIncluded(strict: SecurityPolicy, loose: SecurityPolicy, v: Vulnerability)
    requires AllowlistIncluded(strict, loose) && strict.Allows(v)
    ensures loose.Allows(v)
  {
    var i :| 0 <= i < |v.Identifiers()| &&
      var n := NormalizeVulnerabilityId(v.Identifiers()[i]);
      n.Some? && exists j | 0 <= j < |strict.allowedIds| :: NormalizeVulnerabilityId(strict.allowedIds[j]) == n;
    var n := NormalizeVulnerabilityId(v.Identifiers()[i]);
    var j :| 0 <= j < |strict.allowedIds| && NormalizeVulnerabilityId(strict.allowedIds[j]) == n;
    var k :| 0 <= k < |loose.allowedIds| && NormalizeVulnerabilityId(loose.allowedIds[k]) == n;
  }

  /** A later, stricter evaluation counts every vulnerability that an earlier, looser one counts. */
  lemma CountsAntitone(loose: PolicySet, strict: PolicySet, c: Context, t: ScanTarget, v: Vulnerability, now: int,
                       later: int)
    requires Looser(loose.Select(c).policy, strict.Select(c).policy)
    requires forall e :: e in strict.exceptions ==> e in loose.exceptions
    requires now <= later
    requires Counts(loose, c, t, v, now)
    ensures Counts(strict, c, t, v, later)
  {
    if Excused(strict.exceptions, c, t, v, later) {
      ExcusedIncluded(strict.exceptions, loose.exceptions, c, t, v, now, later);
    }
    if strict.Select(c).policy.Allows(v) {
      AllowsIncluded(strict.Select(c).policy, loose.Select(c).policy, v);
    }
  }

  lemma ExcusedIncluded(strict: seq<PolicyException>, loose: seq<PolicyException>, c: Context, t: ScanTarget,
                        v: Vulnerability, now: int, later: int)
    requires forall e :: e in strict ==> e in loose
    requires now <= later && Excused(strict, c, t, v, later)
    ensures Excused(loose, c, t, v, now)
  {
    var i :| 0 <= i < |strict| && strict[i].Concerns(c, t, v) && strict[i].IsActiveAt(later);
    assert strict[i] in loose;
    var j :| 0 <= j < |loose| && loose[j] == strict[i];
    assert loose[j].IsActiveAt(now);
  }

  /** The one law behind all the others. Fewer vulnerabilities (in any order), an earlier time and a
      looser policy: whatever the harder evaluation allows, the easier one allows. */
  lemma EvaluationLaw(loose: PolicySet, strict: PolicySet, c: Context, t: ScanTarget,
                      fewer: seq<Vulnerability>, more: seq<Vulnerability>, now: int, later: int)
    requires Looser(loose.Select(c).policy, strict.Select(c).policy)
    requires forall e :: e in strict.exceptions ==> e in loose.exceptions
    requires multiset(fewer) <= multiset(more) && now <= later
    ensures Verdict(strict, c, t, more, later) == Allowed ==> Verdict(loose, c, t, fewer, now) == Allowed
  {
    var easy := Reported(loose, c, t, fewer, now);
    var hard := Reported(strict, c, t, more, later);
    forall v
      ensures multiset(easy)[v] <= multiset(hard)[v]
    {
      ReportedMultiplicity(loose, c, t, fewer, now, v);
      ReportedMultiplicity(strict, c, t, more, later, v);
      if Counts(loose, c, t, v, now) {
        CountsAntitone(loose, strict, c, t, v, now, later);
      }
    }
    assert multiset(easy) <= multiset(hard);
    NoViolationMeaning(loose.Select(c).policy, easy);
    NoViolationMeaning(strict.Select(c).policy, hard);
    forall s: Severity
      ensures CountSeverity(easy, s) <= CountSeverity(hard, s) && |easy| <= |hard|
    {
      CountSubMultiset(easy, hard, s);
    }
    CountSubMultiset(easy, hard, Low);
  }

  lemma LooserReflexive(p: SecurityPolicy)
    ensures Looser(p, p)
  {
  }

  /** Adding vulnerabilities anywhere in the list, or evaluating later, never turns a violation into
      Allowed; a blocked verdict stays blocked and a report-only one stays report-only. */
  lemma MoreOrLaterNeverAllows(ps: PolicySet, c: Context, t: ScanTarget, fewer: seq<Vulnerability>,
                               more: seq<Vulnerability>, now: int, later: int)
    requires multiset(fewer) <= multiset(more) && now <= later
    ensures Verdict(ps, c, t, fewer, now) != Allowed ==> Verdict(ps, c, t, more, later) != Allowed
    ensures Verdict(ps, c, t, fewer, now).Blocked? ==> Verdict(ps, c, t, more, later).Blocked?
    ensures Verdict(ps, c, t, fewer, now).ReportOnly? ==> Verdict(ps, c, t, more, later).ReportOnly?
  {
    LooserReflexive(ps.Select(c).policy);
    EvaluationLaw(ps, ps, c, t, fewer, more, now, later);
  }

  /** The violation list is the same for every order of the vulnerabilities. */
  lemma ViolationsIgnoreOrder(ps: PolicySet, c: Context, t: ScanTarget, vs: seq<Vulnerability>, ws: seq<Vulnerability>,
                              now: int)
    requires multiset(vs) == multiset(ws)
    ensures Violations(ps.Select(c).policy, Reported(ps, c, t, vs, now))
              == Violations(ps.Select(c).policy, Reported(ps, c, t, ws, now))
  {
    var a, b := Reported(ps, c, t, vs, now), Reported(ps, c, t, ws, now);
    forall v
      ensures multiset(a)[v] == multiset(b)[v]
    {
      ReportedMultiplicity(ps, c, t, vs, now, v);
      ReportedMultiplicity(ps, c, t, ws, now, v);
    }
    assert multiset(a) == multiset(b);
    forall s: Severity
      ensures CountSeverity(a, s) == CountSeverity(b, s) && |a| == |b|
    {
      CountSubMultiset(a, b, s);
      CountSubMultiset(b, a, s);
    }
    CountSubMultiset(a, b, Low);
    CountSubMultiset(b, a, Low);
  }

  // ---- Which edits loosen a policy ----

  function WithLimit(l: Limits, s: Severity, n: Option<nat>): Limits {
    match s
    case Low => l.(low := n)
    case Medium => l.(medium := n)
    case High => l.(high := n)
    case Critical => l.(critical := n)
  }

  lemma WithLimitReads(l: Limits, s: Severity, n: Option<nat>, r: Severity)
    ensures WithLimit(l, s, n).ForSeverity(r) == if r == s then n else l.ForSeverity(r)
    ensures WithLimit(l, s, n).total == l.total
  {
  }

  /** Raising the minimum blocking severity loosens. */
  lemma RaisingMinimumLoosens(p: SecurityPolicy, m: Severity)
    requires m.Rank() >= p.minimumBlocking.Rank()
    ensures Looser(p.(minimumBlocking := m), p)
  {
    LooserReflexive(p);
  }

  /** Replacing a present limit loosens exactly when the new one is at least as large. */
  lemma ChangingPresentLimit(p: SecurityPolicy, s: Severity, n: nat)
    requires p.limits.ForSeverity(s).Some?
    ensures Looser(p.(limits := WithLimit(p.limits, s, Some(n))), p) <==> n >= p.limits.ForSeverity(s).value
  {
    var q := p.(limits := WithLimit(p.limits, s, Some(n)));
    forall r: Severity
      ensures q.EffectiveLimit(r) == if r == s then Some(n) else p.EffectiveLimit(r)
    {
      WithLimitReads(p.limits, s, Some(n), r);
    }
    assert AllowlistIncluded(p, q);
    assert q.limits.total == p.limits.total;
    assert LimitAtLeast(q.EffectiveLimit(s), p.EffectiveLimit(s)) <==> n >= p.limits.ForSeverity(s).value;
  }

  function WithTotal(p: SecurityPolicy, n: Option<nat>): SecurityPolicy {
    p.(limits := p.limits.(total := n))
  }

  /** The total limit has no threshold: replacing it loosens exactly when the new one is at least as
      large, and taking it away always does. */
  lemma ChangingTotalLimit(p: SecurityPolicy, n: Option<nat>)
    ensures Looser(WithTotal(p, n), p) <==> n.None? || (p.limits.total.Some? && n.value >= p.limits.total.value)
  {
    var q := WithTotal(p, n);
    forall r: Severity
      ensures q.EffectiveLimit(r) == p.EffectiveLimit(r)
    {
    }
  }

  /** Adding a limit where there was none loosens exactly at or above the threshold, and tightens
      exactly below it (or when it is the zero that was implied already). */
  lemma AddingLimit(p: SecurityPolicy, s: Severity, n: nat)
    requires p.limits.ForSeverity(s).None?
    ensures Looser(p.(limits := WithLimit(p.limits, s, Some(n))), p) <==> s.Rank() >= p.minimumBlocking.Rank()
    ensures Looser(p, p.(limits := WithLimit(p.limits, s, Some(n)))) <==>
              (s.Rank() < p.minimumBlocking.Rank() || n == 0)
  {
    var q := p.(limits := WithLimit(p.limits, s, Some(n)));
    forall r: Severity
      ensures q.EffectiveLimit(r) == if r == s then Some(n) else p.EffectiveLimit(r)
    {
      WithLimitReads(p.limits, s, Some(n), r);
    }
    assert AllowlistIncluded(p, q) && AllowlistIncluded(q, p);
    assert q.limits.total == p.limits.total;
    assert LimitAtLeast(q.EffectiveLimit(s), p.EffectiveLimit(s)) <==> s.Rank() >= p.minimumBlocking.Rank();
    assert LimitAtLeast(p.EffectiveLimit(s), q.EffectiveLimit(s)) <==> (s.Rank() < p.minimumBlocking.Rank() || n == 0);
  }
}
