/** Policy records, matching and limits (crates/security/src/policy/model.rs). */
module Policy {
  import opened Text
  import opened Normalize
  import opened Targets
  import opened OrderedMap

  datatype Severity = Low | Medium | High | Critical
  {
    function Rank(): nat {
      match this
      case Low => 0
      case Medium => 1
      case High => 2
      case Critical => 3
    }
  }

  const ALL_SEVERITIES: seq<Severity> := [Low, Medium, High, Critical]

  /** `text` stands for everything a verdict never looks at: summary, details, references. */
  datatype Vulnerability = Vulnerability(id: string, aliases: seq<string>, severity: Option<Severity>, text: string)
  {
    function Identifiers(): seq<string> {
      [id] + aliases
    }
  }

  datatype Limits = Limits(total: Option<nat>, low: Option<nat>, medium: Option<nat>, high: Option<nat>,
                           critical: Option<nat>)
  {
    function ForSeverity(s: Severity): Option<nat> {
      match s
      case Low => low
      case Medium => medium
      case High => high
      case Critical => critical
    }
  }

  datatype SecurityPolicy = SecurityPolicy(minimumBlocking: Severity, allowedIds: seq<string>, limits: Limits)
  {
    predicate Allows(v: Vulnerability) {
      exists i | 0 <= i < |v.Identifiers()| ::
        var n := NormalizeVulnerabilityId(v.Identifiers()[i]);
        n.Some? && exists j | 0 <= j < |allowedIds| :: NormalizeVulnerabilityId(allowedIds[j]) == n
    }

    /** An explicit limit; otherwise zero from the minimum blocking severity upwards. */
    function EffectiveLimit(s: Severity): Option<nat> {
      if limits.ForSeverity(s).Some? then limits.ForSeverity(s)
      else if s.Rank() >= minimumBlocking.Rank() then Some(0)
      else None
    }
  }

  datatype Mode = Enforce | ReportOnlyMode

  datatype Context = Context(repository: string, format: string, team: Option<string>)

  function NewContext(repository: string, format: string, team: Option<string>): Context {
    Context(NormalizeContextValue(repository, "default"), NormalizeContextValue(format, "generic"),
            if team.Some? then NormalizeMatchValue(team.value) else None)
  }

  datatype Scope = Scope(repositories: seq<string>, formats: seq<string>, teams: seq<string>)
  {
    predicate Matches(c: Context) {
      && MatchesSelector(repositories, Some(c.repository))
      && MatchesSelector(formats, Some(c.format))
      && MatchesSelector(teams, c.team)
    }
  }

  function NewScope(repositories: seq<string>, formats: seq<string>, teams: seq<string>): Scope {
    Scope(NormalizedSelectors(repositories), NormalizedSelectors(formats), NormalizedSelectors(teams))
  }

  datatype Rule = Rule(id: string, mode: Mode, scope: Scope, policy: SecurityPolicy)

  datatype ExceptionScope = ExceptionScope(scope: Scope, packages: seq<string>, versions: seq<string>)
  {
    predicate Matches(c: Context, t: ScanTarget) {
      && scope.Matches(c)
      && MatchesSelector(packages, Some(t.PolicyPackageName()))
      && MatchesSelector(versions, t.CacheVersion())
    }
  }

  datatype PolicyException = PolicyException(id: string, owner: string, ticket: string, reason: string,
                                             expiresAt: int, vulnerabilityIds: seq<string>, scope: ExceptionScope)
  {
    predicate IsActiveAt(now: int) {
      now < expiresAt
    }

    predicate MatchesVulnerability(v: Vulnerability) {
      exists i | 0 <= i < |v.Identifiers()| ::
        var n := NormalizeVulnerabilityId(v.Identifiers()[i]);
        n.Some? && n.value in vulnerabilityIds
    }

    predicate Concerns(c: Context, t: ScanTarget, v: Vulnerability) {
      scope.Matches(c, t) && MatchesVulnerability(v)
    }
  }

  /** `repositories` maps repository names to teams, in key order. */
  datatype PolicySet = PolicySet(defaultRule: Rule, repositories: seq<Entry<string>>, rules: seq<Rule>,
                                 exceptions: seq<PolicyException>)
  {
    function TeamForRepository(repository: string): Option<string> {
      var n := NormalizeMatchValue(repository);
      if n.None? then None else FirstTeam(repositories, n.value)
    }

    function ContextFor(repository: string, format: string): Context {
      NewContext(repository, format, TeamForRepository(repository))
    }

    function Select(c: Context): Rule {
      FirstMatch(rules, c, defaultRule)
    }
  }

  function FirstTeam(repositories: seq<Entry<string>>, normalized: string): Option<string> {
    if repositories == [] then None
    else if NormalizeMatchValue(repositories[0].key) == Some(normalized) then Some(repositories[0].value)
    else FirstTeam(repositories[1..], normalized)
  }

  function FirstMatch(rules: seq<Rule>, c: Context, fallback: Rule): Rule {
    if rules == [] then fallback
    else if rules[0].scope.Matches(c) then rules[0]
    else FirstMatch(rules[1..], c, fallback)
  }

  /** The earliest rule in scope. */
  ghost predicate IsFirst(rules: seq<Rule>, c: Context, i: nat) {
    i < |rules| && rules[i].scope.Matches(c) && forall j :: 0 <= j < i ==> !rules[j].scope.Matches(c)
  }

  ghost predicate NoneInScope(rules: seq<Rule>, c: Context) {
    forall i :: 0 <= i < |rules| ==> !rules[i].scope.Matches(c)
  }

  /** First match: the selected rule is the earliest one in scope, or the default when none is. */
  lemma {:induction false} FirstMatchMeaning(rules: seq<Rule>, c: Context, fallback: Rule)
    ensures || (FirstMatch(rules, c, fallback) == fallback && NoneInScope(rules, c))
            || (exists i: nat :: IsFirst(rules, c, i) && FirstMatch(rules, c, fallback) == rules[i])
  {
    if rules == [] {
    } else if rules[0].scope.Matches(c) {
      assert IsFirst(rules, c, 0);
    } else {
      var rest := rules[1..];
      FirstMatchMeaning(rest, c, fallback);
      forall j | 0 < j < |rules|
        ensures rules[j] == rest[j - 1]
      {
      }
      if i: nat :| IsFirst(rest, c, i) && FirstMatch(rest, c, fallback) == rest[i] {
        assert IsFirst(rules, c, i + 1);
      }
    }
  }

  /** Raw selector lists of one rule, before normalisation. */
  datatype RawScope = RawScope(repositories: seq<string>, formats: seq<string>, teams: seq<string>)

  ghost predicate EquivalentScopes(a: RawScope, b: RawScope) {
    && EquivalentSelectors(a.repositories, b.repositories)
    && EquivalentSelectors(a.formats, b.formats)
    && EquivalentSelectors(a.teams, b.teams)
  }

  function WithScopes(rules: seq<Rule>, scopes: seq<RawScope>): seq<Rule>
    requires |rules| == |scopes|
  {
    seq(|rules|, i requires 0 <= i < |rules| =>
      rules[i].(scope := NewScope(scopes[i].repositories, scopes[i].formats, scopes[i].teams)))
  }

  /** Reordering, repeating, re-casing or padding the selectors of any rules never changes which
      rule is selected, in any context. */
  lemma SelectionIgnoresSelectorSpelling(rules: seq<Rule>, a: seq<RawScope>, b: seq<RawScope>, c: Context,
                                         fallback: Rule)
    requires |rules| == |a| == |b|
    requires forall i :: 0 <= i < |a| ==> EquivalentScopes(a[i], b[i])
    ensures FirstMatch(WithScopes(rules, a), c, fallback) == FirstMatch(WithScopes(rules, b), c, fallback)
  {
    forall i | 0 <= i < |rules|
      ensures WithScopes(rules, a)[i] == WithScopes(rules, b)[i]
    {
      assert EquivalentScopes(a[i], b[i]);
      EquivalentSelectorsNormalizeEqually(a[i].repositories, b[i].repositories);
      EquivalentSelectorsNormalizeEqually(a[i].formats, b[i].formats);
      EquivalentSelectorsNormalizeEqually(a[i].teams, b[i].teams);
    }
    assert WithScopes(rules, a) == WithScopes(rules, b);
  }
}
