/** The evaluation loop and what it means (crates/security/src/policy/evaluator.rs). */
module Evaluator {
  import opened Text
  import opened Normalize
  import opened OrderedMap
  import opened Targets
  import opened Policy
  import opened PolicyMeaning

  datatype Violation =
    | TotalExceeded(count: nat, limit: nat)
    | SeverityExceeded(severity: Severity, found: nat, allowed: nat)

  datatype BlockReport = BlockReport(target: ScanTarget, policyId: Option<string>, violations: seq<Violation>,
                                     vulnerabilities: seq<Vulnerability>)

  datatype Outcome = Allowed | ReportOnly(report: BlockReport) | Blocked(report: BlockReport)

  datatype Metadata = Metadata(id: string, owner: string, ticket: string, reason: string, expiresAt: int,
                               vulnerabilityIds: seq<string>)

  datatype Evaluation = Evaluation(outcome: Outcome, policyId: string, mode: Mode, applied: seq<Metadata>,
                                   expired: seq<Metadata>)

  function FromException(e: PolicyException): Metadata {
    Metadata(e.id, e.owner, e.ticket, e.reason, e.expiresAt, e.vulnerabilityIds)
  }

  function ExceptionKey(e: PolicyException): string {
    NormalizeContextValue(e.id, e.id)
  }

  // ---- Specification: filter, count, compare ----

  predicate Excused(es: seq<PolicyException>, c: Context, t: ScanTarget, v: Vulnerability, now: int) {
    exists i | 0 <= i < |es| :: es[i].Concerns(c, t, v) && es[i].IsActiveAt(now)
  }

  predicate Counts(ps: PolicySet, c: Context, t: ScanTarget, v: Vulnerability, now: int) {
    !Excused(ps.exceptions, c, t, v, now) && !ps.Select(c).policy.Allows(v)
  }

  function Reported(ps: PolicySet, c: Context, t: ScanTarget, vs: seq<Vulnerability>, now: int): seq<Vulnerability> {
    if vs == [] then []
    else if Counts(ps, c, t, vs[|vs| - 1], now) then Reported(ps, c, t, vs[..|vs| - 1], now) + [vs[|vs| - 1]]
    else Reported(ps, c, t, vs[..|vs| - 1], now)
  }

  function CountSeverity(vs: seq<Vulnerability>, s: Severity): nat {
    if vs == [] then 0
    else CountSeverity(vs[..|vs| - 1], s) + (if vs[|vs| - 1].severity == Some(s) then 1 else 0)
  }

  function SeverityViolation(p: SecurityPolicy, vs: seq<Vulnerability>, s: Severity): seq<Violation> {
    var limit, count := p.EffectiveLimit(s), CountSeverity(vs, s);
    if limit.Some? && count > limit.value then [SeverityExceeded(s, count, limit.value)] else []
  }

  function TotalViolation(p: SecurityPolicy, vs: seq<Vulnerability>): seq<Violation> {
    if p.limits.total.Some? && |vs| > p.limits.total.value then [TotalExceeded(|vs|, p.limits.total.value)] else []
  }

  function Violations(p: SecurityPolicy, vs: seq<Vulnerability>): seq<Violation> {
    TotalViolation(p, vs) + SeverityViolation(p, vs, Low) + SeverityViolation(p, vs, Medium)
    + SeverityViolation(p, vs, High) + SeverityViolation(p, vs, Critical)
  }

  /** The verdict as a value: what `evaluate_at` decides. */
  function Verdict(ps: PolicySet, c: Context, t: ScanTarget, vs: seq<Vulnerability>, now: int): Outcome {
    var rule := ps.Select(c);
    var reported := Reported(ps, c, t, vs, now);
    var violations := Violations(rule.policy, reported);
    if violations == [] then Allowed
    else
      var report := BlockReport(t, Some(rule.id), violations, reported);
      if rule.mode == Enforce then Blocked(report) else ReportOnly(report)
  }

  /** No limit is exceeded: the independent reading of an empty violation list. */
  ghost predicate WithinLimits(p: SecurityPolicy, vs: seq<Vulnerability>) {
    && (p.limits.total.Some? ==> |vs| <= p.limits.total.value)
    && forall s: Severity :: p.EffectiveLimit(s).Some? ==> CountSeverity(vs, s) <= p.EffectiveLimit(s).value
  }

  lemma NoViolationMeaning(p: SecurityPolicy, vs: seq<Vulnerability>)
    ensures Violations(p, vs) == [] <==> WithinLimits(p, vs)
  {
    assert |Violations(p, vs)| == |TotalViolation(p, vs)| + |SeverityViolation(p, vs, Low)|
      + |SeverityViolation(p, vs, Medium)| + |SeverityViolation(p, vs, High)| + |SeverityViolation(p, vs, Critical)|;
    if Violations(p, vs) == [] {
      forall s: Severity
        ensures SeverityViolation(p, vs, s) == []
      {
        match s
        case Low =>
        case Medium =>
        case High =>
        case Critical =>
      }
    }
  }

  // ---- The verdict, said of the input alone ----

  lemma CountsMeaning(ps: PolicySet, c: Context, t: ScanTarget, v: Vulnerability, now: int)
    ensures Counts(ps, c, t, v, now) <==> Countable(ps, c, t, v, now)
  {
    AllowsMeaning(ps.Select(c).policy, v);
    forall i | 0 <= i < |ps.exceptions|
      ensures ps.exceptions[i].Concerns(c, t, v) <==> Covers(ps.exceptions[i], c, t, v)
    {
      CoversMeaning(ps.exceptions[i], c, t, v);
    }
  }

  lemma {:induction false} CountIsCardinality(vs: seq<Vulnerability>, s: Severity)
    ensures CountSeverity(vs, s) == |Positions(vs, s)|
  {
    if vs == [] {
      assert Positions(vs, s) == {};
    } else {
      var n := |vs| - 1;
      CountIsCardinality(vs[..n], s);
      assert Positions(vs, s) == Positions(vs[..n], s) + if vs[n].severity == Some(s) then {n} else {};
    }
  }

  /** Which limit is exceeded, by how many. */
  ghost predicate Exceeded(x: Violation, p: SecurityPolicy, vs: seq<Vulnerability>) {
    match x
    case TotalExceeded(n, limit) => p.limits.total == Some(limit) && n == |vs| && n > limit
    case SeverityExceeded(s, n, limit) => LimitOf(p, s) == Some(limit) && n == |Positions(vs, s)| && n > limit
  }

  /** The total comes first, then the severities from low to critical. */
  function Place(x: Violation): nat {
    match x
    case TotalExceeded(_, _) => 0
    case SeverityExceeded(Low, _, _) => 1
    case SeverityExceeded(Medium, _, _) => 2
    case SeverityExceeded(High, _, _) => 3
    case SeverityExceeded(Critical, _, _) => 4
  }

  /** Exactly the exceeded limits, each once, in order. */
  ghost predicate ExceededExactly(list: seq<Violation>, p: SecurityPolicy, vs: seq<Vulnerability>) {
    && (forall x :: x in list <==> Exceeded(x, p, vs))
    && (forall i, j :: 0 <= i < j < |list| ==> Place(list[i]) < Place(list[j]))
  }

  lemma SeverityViolationMeaning(p: SecurityPolicy, vs: seq<Vulnerability>, s: Severity)
    ensures forall x :: x in SeverityViolation(p, vs, s) <==>
                        x.SeverityExceeded? && x.severity == s && Exceeded(x, p, vs)
    ensures |SeverityViolation(p, vs, s)| <= 1
  {
    LimitMeaning(p, s);
    CountIsCardinality(vs, s);
  }

  lemma TotalViolationMeaning(p: SecurityPolicy, vs: seq<Vulnerability>)
    ensures forall x :: x in TotalViolation(p, vs) <==> x.TotalExceeded? && Exceeded(x, p, vs)
    ensures |TotalViolation(p, vs)| <= 1
  {
  }

  lemma PlacedApart(a: seq<Violation>, b: seq<Violation>, n: nat)
    requires forall i, j :: 0 <= i < j < |a| ==> Place(a[i]) < Place(a[j])
    requires |b| <= 1 && (forall x :: x in a ==> Place(x) < n) && (forall x :: x in b ==> Place(x) == n)
    ensures forall i, j :: 0 <= i < j < |a + b| ==> Place((a + b)[i]) < Place((a + b)[j])
    ensures forall x :: x in a + b ==> Place(x) < n + 1
  {
    assert forall i :: 0 <= i < |a| ==> a[i] in a;
    assert forall i :: 0 <= i < |b| ==> b[i] in b;
  }

  lemma ViolationsMeaning(p: SecurityPolicy, vs: seq<Vulnerability>)
    ensures ExceededExactly(Violations(p, vs), p, vs)
  {
    hide SeverityViolation, TotalViolation, Exceeded;
    TotalViolationMeaning(p, vs);
    forall s: Severity
      ensures forall x :: x in SeverityViolation(p, vs, s) <==>
                          x.SeverityExceeded? && x.severity == s && Exceeded(x, p, vs)
      ensures |SeverityViolation(p, vs, s)| <= 1
    {
      SeverityViolationMeaning(p, vs, s);
    }
    var total := TotalViolation(p, vs);
    var low := total + SeverityViolation(p, vs, Low);
    var medium := low + SeverityViolation(p, vs, Medium);
    var high := medium + SeverityViolation(p, vs, High);
    PlacedApart([], total, 0);
    assert [] + total == total;
    PlacedApart(total, SeverityViolation(p, vs, Low), 1);
    PlacedApart(low, SeverityViolation(p, vs, Medium), 2);
    PlacedApart(medium, SeverityViolation(p, vs, High), 3);
    PlacedApart(high, SeverityViolation(p, vs, Critical), 4);
  }

  lemma WithinMeaning(p: SecurityPolicy, vs: seq<Vulnerability>)
    ensures WithinLimits(p, vs) <==> Holds(p, vs)
  {
    forall s: Severity
      ensures p.EffectiveLimit(s) == LimitOf(p, s) && CountSeverity(vs, s) == |Positions(vs, s)|
    {
      LimitMeaning(p, s);
      CountIsCardinality(vs, s);
    }
  }

  /** The positions of the vulnerabilities that count, in order. */
  ghost predicate Countables(ps: PolicySet, c: Context, t: ScanTarget, vs: seq<Vulnerability>, now: int,
                             idx: seq<nat>) {
    && (forall j, k :: 0 <= j < k < |idx| ==> idx[j] < idx[k])
    && (forall i: nat :: i in idx <==> i < |vs| && Countable(ps, c, t, vs[i], now))
  }

  /** An enforcing rule blocks and a report-only rule reports exactly what is beyond its limits; the report
      names the target and the rule, the exceeded limits and the vulnerabilities that count. */
  ghost predicate Fits(o: Outcome, rule: Rule, t: ScanTarget, counted: seq<Vulnerability>) {
    && (o.Blocked? <==> rule.mode == Enforce && !Holds(rule.policy, counted))
    && (o.ReportOnly? <==> rule.mode == ReportOnlyMode && !Holds(rule.policy, counted))
    && (!o.Allowed? ==>
          && o.report.target == t && o.report.policyId == Some(rule.id) && o.report.vulnerabilities == counted
          && ExceededExactly(o.report.violations, rule.policy, counted))
  }

  /** The counted vulnerabilities are those at the counting positions. */
  ghost predicate Judges(ps: PolicySet, c: Context, t: ScanTarget, vs: seq<Vulnerability>, now: int, o: Outcome) {
    exists idx, counted ::
      Countables(ps, c, t, vs, now, idx) && Picks(counted, vs, idx) && Fits(o, ps.Select(c), t, counted)
  }

  lemma VerdictMeaning(ps: PolicySet, c: Context, t: ScanTarget, vs: seq<Vulnerability>, now: int)
    ensures Judges(ps, c, t, vs, now, Verdict(ps, c, t, vs, now))
  {
    var idx := ReportedIsSubsequence(ps, c, t, vs, now);
    var counted := Reported(ps, c, t, vs, now);
    forall i | 0 <= i < |vs|
      ensures Counts(ps, c, t, vs[i], now) <==> Countable(ps, c, t, vs[i], now)
    {
      CountsMeaning(ps, c, t, vs[i], now);
    }
    forall i | i in idx
      ensures i < |vs|
    {
      var k :| 0 <= k < |idx| && idx[k] == i;
    }
    assert Countables(ps, c, t, vs, now, idx);
    FitsMeaning(ps, c, t, vs, now);
  }

  lemma FitsMeaning(ps: PolicySet, c: Context, t: ScanTarget, vs: seq<Vulnerability>, now: int)
    ensures Fits(Verdict(ps, c, t, vs, now), ps.Select(c), t, Reported(ps, c, t, vs, now))
  {
    hide Reported, Violations, WithinLimits, Holds, ExceededExactly;
    var counted, policy := Reported(ps, c, t, vs, now), ps.Select(c).policy;
    NoViolationMeaning(policy, counted);
    WithinMeaning(policy, counted);
    ViolationsMeaning(policy, counted);
  }

  /** `idx` selects exactly the counting positions of `vs`, in order. */
  ghost predicate SelectsCounting(ps: PolicySet, c: Context, t: ScanTarget, vs: seq<Vulnerability>, now: int,
                                  idx: seq<nat>) {
    && (forall k :: 0 <= k < |idx| ==> idx[k] < |vs|)
    && (forall j, k :: 0 <= j < k < |idx| ==> idx[j] < idx[k])
    && (forall i: nat :: i < |vs| ==> (i in idx <==> Counts(ps, c, t, vs[i], now)))
  }

  /** The reported list is the subsequence of the input at exactly the positions with no active
      matching exception and no allowlist match. */
  lemma {:induction false} ReportedIsSubsequence(ps: PolicySet, c: Context, t: ScanTarget, vs: seq<Vulnerability>,
                                                 now: int)
    returns (idx: seq<nat>)
    ensures SelectsCounting(ps, c, t, vs, now, idx)
    ensures Picks(Reported(ps, c, t, vs, now), vs, idx)
  {
    if vs == [] {
      idx := [];
    } else {
      var n := |vs| - 1;
      idx := ReportedIsSubsequence(ps, c, t, vs[..n], now);
      SelectsSnoc(ps, c, t, vs, now, idx);
      PicksSnoc(Reported(ps, c, t, vs[..n], now), vs, idx);
      if Counts(ps, c, t, vs[n], now) {
        idx := idx + [n];
      }
    }
  }

  /** `list` is what stands in `vs` at the positions `idx`. */
  ghost predicate Picks(list: seq<Vulnerability>, vs: seq<Vulnerability>, idx: seq<nat>) {
    |list| == |idx| && forall k :: 0 <= k < |idx| ==> idx[k] < |vs| && list[k] == vs[idx[k]]
  }

  lemma PicksSnoc(list: seq<Vulnerability>, vs: seq<Vulnerability>, idx: seq<nat>)
    requires vs != [] && Picks(list, vs[..|vs| - 1], idx)
    ensures Picks(list, vs, idx) && Picks(list + [vs[|vs| - 1]], vs, idx + [|vs| - 1])
  {
  }

  lemma SelectsSnoc(ps: PolicySet, c: Context, t: ScanTarget, vs: seq<Vulnerability>, now: int, idx: seq<nat>)
    requires vs != [] && SelectsCounting(ps, c, t, vs[..|vs| - 1], now, idx)
    ensures SelectsCounting(ps, c, t, vs, now, if Counts(ps, c, t, vs[|vs| - 1], now) then idx + [|vs| - 1] else idx)
  {
    var n := |vs| - 1;
    forall i: nat | i < n
      ensures i in idx <==> Counts(ps, c, t, vs[i], now)
    {
      assert vs[..n][i] == vs[i];
    }
  }

  // ---- Exception bookkeeping ----

  /** Normalised exception ids are pairwise different, as the parser guarantees. */
  ghost predicate UniqueIds(es: seq<PolicyException>) {
    forall i, j :: 0 <= i < j < |es| ==> ExceptionKey(es[i]) != ExceptionKey(es[j])
  }

  ghost function Hit(es: seq<PolicyException>, c: Context, t: ScanTarget, v: Vulnerability, now: int,
                     active: bool): set<PolicyException> {
    set i | 0 <= i < |es| && es[i].Concerns(c, t, v) && es[i].IsActiveAt(now) == active :: es[i]
  }

  /** The exceptions whose use the evaluation must list: those concerning some vulnerability. */
  ghost function HitByAny(es: seq<PolicyException>, c: Context, t: ScanTarget, vs: seq<Vulnerability>, now: int,
                          active: bool): set<PolicyException> {
    if vs == [] then {}
    else HitByAny(es, c, t, vs[..|vs| - 1], now, active) + Hit(es, c, t, vs[|vs| - 1], now, active)
  }

  lemma HitByAnyMeaning(es: seq<PolicyException>, c: Context, t: ScanTarget, vs: seq<Vulnerability>,
                                           now: int, active: bool, e: PolicyException)
    ensures e in HitByAny(es, c, t, vs, now, active) <==>
            e in es && (now < e.expiresAt <==> active) && exists k :: 0 <= k < |vs| && Covers(e, c, t, vs[k])
  {
    forall k | 0 <= k < |vs|
      ensures e.Concerns(c, t, vs[k]) <==> Covers(e, c, t, vs[k])
    {
      CoversMeaning(e, c, t, vs[k]);
    }
    HitByAnyConcerns(es, c, t, vs, now, active, e);
  }

  lemma {:induction false} HitByAnyConcerns(es: seq<PolicyException>, c: Context, t: ScanTarget,
                                            vs: seq<Vulnerability>, now: int, active: bool, e: PolicyException)
    ensures e in HitByAny(es, c, t, vs, now, active) <==>
            e in es && e.IsActiveAt(now) == active && exists k :: 0 <= k < |vs| && e.Concerns(c, t, vs[k])
  {
    if vs != [] {
      var n := |vs| - 1;
      HitByAnyConcerns(es, c, t, vs[..n], now, active, e);
      assert e in Hit(es, c, t, vs[n], now, active) <==>
        e in es && e.Concerns(c, t, vs[n]) && e.IsActiveAt(now) == active;
      if k :| 0 <= k < |vs[..n]| && e.Concerns(c, t, vs[..n][k]) {
        assert e.Concerns(c, t, vs[k]);
      }
      if k :| 0 <= k < |vs| && e.Concerns(c, t, vs[k]) && k != n {
        assert e.Concerns(c, t, vs[..n][k]);
      }
    }
  }

  function EntryOf(e: PolicyException): Entry<Metadata> {
    Entry(ExceptionKey(e), FromException(e))
  }

  /** The map `m` holds exactly one entry for every exception in `picked`, in key order. */
  ghost predicate Collects(m: seq<Entry<Metadata>>, es: seq<PolicyException>, picked: set<PolicyException>) {
    && Ordered(m)
    && (forall e :: e in picked ==> e in es && EntryOf(e) in m)
    && (forall x :: x in m ==> EntryFrom(x, picked))
  }

  ghost predicate EntryFrom(entry: Entry<Metadata>, picked: set<PolicyException>) {
    exists e :: e in picked && entry == EntryOf(e)
  }

  /** Under unique ids, an entry with the exception's key is the exception's own entry. */
  lemma KeyIsOwn(m: seq<Entry<Metadata>>, es: seq<PolicyException>, picked: set<PolicyException>, e: PolicyException)
    requires UniqueIds(es) && Collects(m, es, picked) && e in es && HasKey(m, ExceptionKey(e))
    ensures EntryOf(e) in m
  {
    var i :| 0 <= i < |m| && m[i].key == ExceptionKey(e);
    assert m[i] in m && EntryFrom(m[i], picked);
    var d :| d in picked && m[i] == EntryOf(d);
    assert d == e;
  }

  lemma CollectsOneMore(m: seq<Entry<Metadata>>, es: seq<PolicyException>, picked: set<PolicyException>,
                        e: PolicyException)
    requires UniqueIds(es) && Collects(m, es, picked) && e in es
    ensures Collects(OrInsert(m, ExceptionKey(e), FromException(e)), es, picked + {e})
  {
    var r := OrInsert(m, ExceptionKey(e), FromException(e));
    OrInsertShape(m, ExceptionKey(e), FromException(e));
    if HasKey(m, ExceptionKey(e)) {
      KeyIsOwn(m, es, picked, e);
    }
    forall x | x in r
      ensures EntryFrom(x, picked + {e})
    {
      if x in m {
        var d :| d in picked && x == EntryOf(d);
        assert d in picked + {e};
      } else {
        assert x == EntryOf(e);
      }
    }
  }

  // ---- The loops of the source ----

  /** One vulnerability against every exception, updating both ordered maps. */
  method MatchingExceptionApplies(es: seq<PolicyException>, c: Context, t: ScanTarget, v: Vulnerability, now: int,
                                  applied: seq<Entry<Metadata>>, expired: seq<Entry<Metadata>>,
                                  ghost was: set<PolicyException>, ghost wasExpired: set<PolicyException>)
    returns (activeMatch: bool, applied': seq<Entry<Metadata>>, expired': seq<Entry<Metadata>>)
    ensures activeMatch == Excused(es, c, t, v, now)
    ensures UniqueIds(es) && Collects(applied, es, was) ==> Collects(applied', es, was + Hit(es, c, t, v, now, true))
    ensures UniqueIds(es) && Collects(expired, es, wasExpired) ==>
              Collects(expired', es, wasExpired + Hit(es, c, t, v, now, false))
  {
    activeMatch, applied', expired' := false, applied, expired;
    assert was + Hit(es[..0], c, t, v, now, true) == was;
    assert wasExpired + Hit(es[..0], c, t, v, now, false) == wasExpired;
    for k := 0 to |es|
      invariant activeMatch == Excused(es[..k], c, t, v, now)
      invariant UniqueIds(es) && Collects(applied, es, was) ==>
                  Collects(applied', es, was + Hit(es[..k], c, t, v, now, true))
      invariant UniqueIds(es) && Collects(expired, es, wasExpired) ==>
                  Collects(expired', es, wasExpired + Hit(es[..k], c, t, v, now, false))
    {
      var e := es[k];
      HitSnoc(es, k, c, t, v, now);
      CollectsNext(applied', es, k, was, c, t, v, now, true);
      CollectsNext(expired', es, k, wasExpired, c, t, v, now, false);
      if !e.scope.Matches(c, t) || !e.MatchesVulnerability(v) {
        continue;
      }
      if e.IsActiveAt(now) {
        activeMatch := true;
        applied' := OrInsert(applied', ExceptionKey(e), FromException(e));
      } else {
        expired' := OrInsert(expired', ExceptionKey(e), FromException(e));
      }
    }
    assert es[..|es|] == es;
  }

  /** What the next exception does to one of the two maps. */
  lemma CollectsNext(m: seq<Entry<Metadata>>, es: seq<PolicyException>, k: nat, was: set<PolicyException>,
                     c: Context, t: ScanTarget, v: Vulnerability, now: int, active: bool)
    requires k < |es|
    ensures UniqueIds(es) && Collects(m, es, was + Hit(es[..k], c, t, v, now, active)) ==>
              Collects(if es[k].Concerns(c, t, v) && es[k].IsActiveAt(now) == active
                       then OrInsert(m, ExceptionKey(es[k]), FromException(es[k])) else m,
                       es, was + Hit(es[..k + 1], c, t, v, now, active))
  {
    HitSnoc(es, k, c, t, v, now);
    var before := was + Hit(es[..k], c, t, v, now, active);
    if UniqueIds(es) && Collects(m, es, before) {
      if es[k].Concerns(c, t, v) && es[k].IsActiveAt(now) == active {
        CollectsOneMore(m, es, before, es[k]);
        assert before + {es[k]} == was + Hit(es[..k + 1], c, t, v, now, active);
      } else {
        assert before == was + Hit(es[..k + 1], c, t, v, now, active);
      }
    }
  }

  lemma HitSnoc(es: seq<PolicyException>, k: nat, c: Context, t: ScanTarget, v: Vulnerability, now: int)
    requires k < |es|
    ensures Excused(es[..k + 1], c, t, v, now) <==>
            Excused(es[..k], c, t, v, now) || (es[k].Concerns(c, t, v) && es[k].IsActiveAt(now))
    ensures forall active :: Hit(es[..k + 1], c, t, v, now, active) ==
              Hit(es[..k], c, t, v, now, active)
              + (if es[k].Concerns(c, t, v) && es[k].IsActiveAt(now) == active then {es[k]} else {})
  {
    assert es[..k + 1] == es[..k] + [es[k]];
    if es[k].Concerns(c, t, v) {
      assert es[..k + 1][k].Concerns(c, t, v);
    }
    forall i | 0 <= i < k
      ensures es[..k][i] == es[..k + 1][i]
    {
    }
  }

  /** The total limit, then each severity in order. */
  method PolicyViolations(p: SecurityPolicy, vs: seq<Vulnerability>) returns (r: seq<Violation>)
    ensures r == Violations(p, vs)
    ensures ExceededExactly(r, p, vs)
    ensures r == [] <==> Holds(p, vs)
  {
    hide Violations, Holds, WithinLimits, ExceededExactly, CountSeverity;
    r := [];
    if p.limits.total.Some? && |vs| > p.limits.total.value {
      r := r + [TotalExceeded(|vs|, p.limits.total.value)];
    }
    for k := 0 to 4
      invariant r == TotalViolation(p, vs) + SeverityPrefix(p, vs, k)
    {
      var severity := ALL_SEVERITIES[k];
      PrefixSnoc(p, vs, k);
      var limit := p.EffectiveLimit(severity);
      if limit.Some? {
        var count := CountOf(vs, severity);
        if count > limit.value {
          r := r + [SeverityExceeded(severity, count, limit.value)];
        }
      }
    }
    SeverityPrefixIsAll(p, vs);
    NoViolationMeaning(p, vs);
    WithinMeaning(p, vs);
    ViolationsMeaning(p, vs);
  }

  lemma PrefixSnoc(p: SecurityPolicy, vs: seq<Vulnerability>, k: nat)
    requires k < 4
    ensures TotalViolation(p, vs) + SeverityPrefix(p, vs, k + 1)
            == TotalViolation(p, vs) + SeverityPrefix(p, vs, k) + SeverityViolation(p, vs, ALL_SEVERITIES[k])
  {
  }

  lemma SeverityPrefixIsAll(p: SecurityPolicy, vs: seq<Vulnerability>)
    ensures TotalViolation(p, vs) + SeverityPrefix(p, vs, 4) == Violations(p, vs)
  {
    assert SeverityPrefix(p, vs, 1) == SeverityViolation(p, vs, Low);
    assert SeverityPrefix(p, vs, 2) == SeverityPrefix(p, vs, 1) + SeverityViolation(p, vs, Medium);
    assert SeverityPrefix(p, vs, 3) == SeverityPrefix(p, vs, 2) + SeverityViolation(p, vs, High);
  }

  method CountOf(vs: seq<Vulnerability>, severity: Severity) returns (count: nat)
    ensures count == CountSeverity(vs, severity)
  {
    count := 0;
    for i := 0 to |vs|
      invariant count == CountSeverity(vs[..i], severity)
    {
      assert vs[..i + 1][..i] == vs[..i];
      if vs[i].severity == Some(severity) {
        count := count + 1;
      }
    }
    assert vs[..|vs|] == vs;
  }

  ghost function SeverityPrefix(p: SecurityPolicy, vs: seq<Vulnerability>, k: nat): seq<Violation>
    requires k <= 4
  {
    if k == 0 then [] else SeverityPrefix(p, vs, k - 1) + SeverityViolation(p, vs, ALL_SEVERITIES[k - 1])
  }

  /** The metadata tells the exception's own fields. */
  predicate Tells(m: Metadata, e: PolicyException) {
    && m.id == e.id && m.owner == e.owner && m.ticket == e.ticket && m.reason == e.reason
    && m.expiresAt == e.expiresAt && m.vulnerabilityIds == e.vulnerabilityIds
  }

  /** The order of the lists: by id, folded unless it is blank. */
  function IdKey(id: string): string {
    if Blank(id) then id else Lower(Trim(id))
  }

  ghost predicate ListsExactly(list: seq<Metadata>, picked: set<PolicyException>) {
    && (forall e :: e in picked ==> Told(list, e))
    && (forall i :: 0 <= i < |list| ==> MetadataFrom(list[i], picked))
    && (forall i, j :: 0 <= i < j < |list| ==> Less(IdKey(list[i].id), IdKey(list[j].id)))
  }

  ghost predicate Told(list: seq<Metadata>, e: PolicyException) {
    exists i :: 0 <= i < |list| && Tells(list[i], e)
  }

  ghost predicate MetadataFrom(m: Metadata, picked: set<PolicyException>) {
    exists e :: e in picked && Tells(m, e)
  }

  lemma IdKeyMeaning(id: string)
    ensures NormalizeContextValue(id, id) == IdKey(id)
  {
    NormalizeIdempotent(id);
  }

  lemma CollectsLists(m: seq<Entry<Metadata>>, es: seq<PolicyException>, picked: set<PolicyException>)
    requires Collects(m, es, picked)
    ensures ListsExactly(Values(m), picked)
  {
    var list := Values(m);
    forall e | e in picked
      ensures Told(list, e)
    {
      var i :| 0 <= i < |m| && m[i] == EntryOf(e);
      assert list[i] == FromException(e) && Tells(list[i], e);
    }
    forall i | 0 <= i < |list|
      ensures MetadataFrom(list[i], picked) && IdKey(list[i].id) == m[i].key
    {
      assert m[i] in m && EntryFrom(m[i], picked);
      var e :| e in picked && m[i] == EntryOf(e);
      assert Tells(list[i], e);
      IdKeyMeaning(e.id);
    }
  }

  /** The whole evaluation: an enforcing rule blocks, and a report-only rule reports, exactly the lists
      whose counting vulnerabilities are beyond its limits. For unique exception ids the applied and
      expired lists hold each exception concerning some vulnerability exactly once, in normalised-id order. */
  method EvaluateAt(ps: PolicySet, c: Context, t: ScanTarget, vs: seq<Vulnerability>, now: int) returns (r: Evaluation)
    ensures Judges(ps, c, t, vs, now, r.outcome)
    ensures r.outcome == Verdict(ps, c, t, vs, now)
    ensures r.policyId == ps.Select(c).id && r.mode == ps.Select(c).mode
    ensures UniqueIds(ps.exceptions) ==> ListsExactly(r.applied, HitByAny(ps.exceptions, c, t, vs, now, true))
    ensures UniqueIds(ps.exceptions) ==> ListsExactly(r.expired, HitByAny(ps.exceptions, c, t, vs, now, false))
  {
    var rule := ps.Select(c);
    var applied: seq<Entry<Metadata>>, expired: seq<Entry<Metadata>> := [], [];
    var reported: seq<Vulnerability> := [];
    for k := 0 to |vs|
      invariant reported == Reported(ps, c, t, vs[..k], now)
      invariant UniqueIds(ps.exceptions) ==>
                Collects(applied, ps.exceptions, HitByAny(ps.exceptions, c, t, vs[..k], now, true))
      invariant UniqueIds(ps.exceptions) ==>
                Collects(expired, ps.exceptions, HitByAny(ps.exceptions, c, t, vs[..k], now, false))
    {
      assert vs[..k + 1][..k] == vs[..k];
      var excused;
      excused, applied, expired := MatchingExceptionApplies(ps.exceptions, c, t, vs[k], now, applied, expired,
        HitByAny(ps.exceptions, c, t, vs[..k], now, true), HitByAny(ps.exceptions, c, t, vs[..k], now, false));
      if !excused && !rule.policy.Allows(vs[k]) {
        reported := reported + [vs[k]];
      }
    }
    assert vs[..|vs|] == vs;
    var violations := PolicyViolations(rule.policy, reported);
    var outcome := Allowed;
    if violations != [] {
      var report := BlockReport(t, Some(rule.id), violations, reported);
      match rule.mode
      case Enforce => outcome := Blocked(report);
      case ReportOnlyMode => outcome := ReportOnly(report);
    }
    if UniqueIds(ps.exceptions) {
      CollectsLists(applied, ps.exceptions, HitByAny(ps.exceptions, c, t, vs, now, true));
      CollectsLists(expired, ps.exceptions, HitByAny(ps.exceptions, c, t, vs, now, false));
    }
    VerdictMeaning(ps, c, t, vs, now);
    r := Evaluation(outcome, rule.id, rule.mode, Values(applied), Values(expired));
  }

  /** Applied and expired exceptions never share a normalised id. */
  lemma AppliedAndExpiredDisjoint(es: seq<PolicyException>, c: Context, t: ScanTarget, vs: seq<Vulnerability>, now: int,
                                  a: PolicyException, b: PolicyException)
    requires UniqueIds(es)
    requires a in HitByAny(es, c, t, vs, now, true) && b in HitByAny(es, c, t, vs, now, false)
    ensures ExceptionKey(a) != ExceptionKey(b)
  {
    HitByAnyConcerns(es, c, t, vs, now, true, a);
    HitByAnyConcerns(es, c, t, vs, now, false, b);
  }
}
