/** What matching, limits and contexts mean, said of the record fields alone
    (crates/security/src/policy/model.rs). */
module PolicyMeaning {
  import opened Text
  import opened Normalize
  import opened OrderedMap
  import opened Targets
  import opened Policy

  // ---- Identifiers ----

  /** `id` is the vulnerability's id or one of its aliases, up to surrounding blanks and ASCII case. */
  ghost predicate Named(v: Vulnerability, id: string) {
    SameSelector(id, v.id) || exists k :: 0 <= k < |v.aliases| && SameSelector(id, v.aliases[k])
  }

  ghost predicate NamedAmong(v: Vulnerability, ids: seq<string>) {
    exists j :: 0 <= j < |ids| && Named(v, ids[j])
  }

  lemma IdentifierMeaning(v: Vulnerability, n: string)
    ensures (exists i :: 0 <= i < |v.Identifiers()| && NormalizeVulnerabilityId(v.Identifiers()[i]) == Some(n)) <==>
            || NormalizeVulnerabilityId(v.id) == Some(n)
            || (exists k :: 0 <= k < |v.aliases| && NormalizeVulnerabilityId(v.aliases[k]) == Some(n))
  {
    var ids := v.Identifiers();
    if i :| 0 <= i < |ids| && NormalizeVulnerabilityId(ids[i]) == Some(n) {
      assert i > 0 ==> ids[i] == v.aliases[i - 1];
    }
    if NormalizeVulnerabilityId(v.id) == Some(n) {
      assert ids[0] == v.id;
    }
    if k :| 0 <= k < |v.aliases| && NormalizeVulnerabilityId(v.aliases[k]) == Some(n) {
      assert ids[k + 1] == v.aliases[k];
    }
  }

  lemma NamedMeaning(v: Vulnerability, id: string)
    ensures Named(v, id) <==>
            NormalizeVulnerabilityId(id).Some?
            && exists i :: 0 <= i < |v.Identifiers()|
                           && NormalizeVulnerabilityId(v.Identifiers()[i]) == NormalizeVulnerabilityId(id)
  {
    var n := NormalizeVulnerabilityId(id);
    SameSelectorMeaning(id, v.id);
    forall k | 0 <= k < |v.aliases|
      ensures SameSelector(id, v.aliases[k]) <==> n.Some? && NormalizeVulnerabilityId(v.aliases[k]) == n
    {
      SameSelectorMeaning(id, v.aliases[k]);
    }
    if n.Some? {
      IdentifierMeaning(v, n.value);
    }
  }

  /** The allowlist: some allowed id names the vulnerability. */
  lemma AllowsMeaning(p: SecurityPolicy, v: Vulnerability)
    ensures p.Allows(v) <==> NamedAmong(v, p.allowedIds)
  {
    forall j | 0 <= j < |p.allowedIds|
      ensures Named(v, p.allowedIds[j]) <==>
              NormalizeVulnerabilityId(p.allowedIds[j]).Some?
              && exists i :: 0 <= i < |v.Identifiers()| && NormalizeVulnerabilityId(v.Identifiers()[i])
                                                            == NormalizeVulnerabilityId(p.allowedIds[j])
    {
      NamedMeaning(v, p.allowedIds[j]);
    }
  }

  predicate IsUpperForm(id: string, x: string) {
    x != [] && Upper(Trim(id)) == x
  }

  /** The id or an alias, trimmed and in upper case, is in the list. */
  ghost predicate IdListed(v: Vulnerability, ids: seq<string>) {
    exists j :: 0 <= j < |ids| &&
      (IsUpperForm(v.id, ids[j]) || exists k :: 0 <= k < |v.aliases| && IsUpperForm(v.aliases[k], ids[j]))
  }

  lemma IdListedMeaning(e: PolicyException, v: Vulnerability)
    ensures e.MatchesVulnerability(v) <==> IdListed(v, e.vulnerabilityIds)
  {
    forall j | 0 <= j < |e.vulnerabilityIds|
      ensures (exists i :: 0 <= i < |v.Identifiers()|
                           && NormalizeVulnerabilityId(v.Identifiers()[i]) == Some(e.vulnerabilityIds[j])) <==>
              || IsUpperForm(v.id, e.vulnerabilityIds[j])
              || exists k :: 0 <= k < |v.aliases| && IsUpperForm(v.aliases[k], e.vulnerabilityIds[j])
    {
      IdentifierMeaning(v, e.vulnerabilityIds[j]);
      assert forall k :: 0 <= k < |v.aliases| ==>
          (NormalizeVulnerabilityId(v.aliases[k]) == Some(e.vulnerabilityIds[j])
           <==> IsUpperForm(v.aliases[k], e.vulnerabilityIds[j]));
    }
    if e.MatchesVulnerability(v) {
      var i :| 0 <= i < |v.Identifiers()| && NormalizeVulnerabilityId(v.Identifiers()[i]).Some?
        && NormalizeVulnerabilityId(v.Identifiers()[i]).value in e.vulnerabilityIds;
      var n := NormalizeVulnerabilityId(v.Identifiers()[i]).value;
      var j :| 0 <= j < |e.vulnerabilityIds| && e.vulnerabilityIds[j] == n;
      assert NormalizeVulnerabilityId(v.Identifiers()[i]) == Some(e.vulnerabilityIds[j]);
    }
    if IdListed(v, e.vulnerabilityIds) {
      var j :| 0 <= j < |e.vulnerabilityIds| && (IsUpperForm(v.id, e.vulnerabilityIds[j])
        || exists k :: 0 <= k < |v.aliases| && IsUpperForm(v.aliases[k], e.vulnerabilityIds[j]));
      var i :| 0 <= i < |v.Identifiers()|
        && NormalizeVulnerabilityId(v.Identifiers()[i]) == Some(e.vulnerabilityIds[j]);
      assert e.vulnerabilityIds[j] in e.vulnerabilityIds;
    }
  }

  // ---- Scopes ----

  /** A normalised list matches everything when empty, otherwise the values it holds. */
  ghost predicate ListHolds(selectors: seq<string>, value: Option<string>) {
    selectors == [] || (value.Some? && !Blank(value.value) && Lower(Trim(value.value)) in selectors)
  }

  /** A raw list matches everything when all of it is blank, otherwise the values it spells. */
  ghost predicate RawHolds(raw: seq<string>, value: Option<string>) {
    || (forall i :: 0 <= i < |raw| ==> Blank(raw[i]))
    || (value.Some? && exists i :: 0 <= i < |raw| && SameSelector(raw[i], value.value))
  }

  lemma ListMeaning(selectors: seq<string>, value: Option<string>)
    ensures MatchesSelector(selectors, value) <==> ListHolds(selectors, value)
  {
    if value.Some? {
      NormalizeIdempotent(value.value);
    }
  }

  ghost predicate InScope(s: Scope, c: Context) {
    && ListHolds(s.repositories, Some(c.repository))
    && ListHolds(s.formats, Some(c.format))
    && ListHolds(s.teams, c.team)
  }

  /** All three selector lists of a rule must match. */
  lemma ScopeMeaning(s: Scope, c: Context)
    ensures s.Matches(c) <==> InScope(s, c)
  {
    ListMeaning(s.repositories, Some(c.repository));
    ListMeaning(s.formats, Some(c.format));
    ListMeaning(s.teams, c.team);
  }

  ghost predicate InRawScope(raw: RawScope, c: Context) {
    && RawHolds(raw.repositories, Some(c.repository))
    && RawHolds(raw.formats, Some(c.format))
    && RawHolds(raw.teams, c.team)
  }

  lemma RawScopeMeaning(raw: RawScope, c: Context)
    ensures NewScope(raw.repositories, raw.formats, raw.teams).Matches(c) <==> InRawScope(raw, c)
  {
    MatchingMeaning(raw.repositories, Some(c.repository));
    MatchingMeaning(raw.formats, Some(c.format));
    MatchingMeaning(raw.teams, c.team);
  }

  /** Package selectors are compared with the package's name, PURL or commit, or with the artifact's digest
      or, lacking one, its URI; version selectors with the version, which artifacts do not have. */
  ghost predicate TargetListed(packages: seq<string>, versions: seq<string>, t: ScanTarget) {
    match t
    case Package(_, Osv(_, name), version) => ListHolds(packages, Some(name)) && ListHolds(versions, version)
    case Package(_, Purl(purl), version) => ListHolds(packages, Some(purl)) && ListHolds(versions, version)
    case Package(_, GitCommit(commit), version) => ListHolds(packages, Some(commit)) && ListHolds(versions, version)
    case Artifact(_, _, Some(digest)) => ListHolds(packages, Some(digest)) && versions == []
    case Artifact(_, uri, None) => ListHolds(packages, Some(uri)) && versions == []
  }

  ghost predicate RawTargetListed(packages: seq<string>, versions: seq<string>, t: ScanTarget) {
    match t
    case Package(_, Osv(_, name), version) => RawHolds(packages, Some(name)) && RawHolds(versions, version)
    case Package(_, Purl(purl), version) => RawHolds(packages, Some(purl)) && RawHolds(versions, version)
    case Package(_, GitCommit(commit), version) => RawHolds(packages, Some(commit)) && RawHolds(versions, version)
    case Artifact(_, _, Some(digest)) => RawHolds(packages, Some(digest)) && RawHolds(versions, None)
    case Artifact(_, uri, None) => RawHolds(packages, Some(uri)) && RawHolds(versions, None)
  }

  /** Whether an exception is about this vulnerability of this target in this context. */
  ghost predicate Covers(e: PolicyException, c: Context, t: ScanTarget, v: Vulnerability) {
    && InScope(e.scope.scope, c)
    && TargetListed(e.scope.packages, e.scope.versions, t)
    && IdListed(v, e.vulnerabilityIds)
  }

  lemma CoversMeaning(e: PolicyException, c: Context, t: ScanTarget, v: Vulnerability)
    ensures e.Concerns(c, t, v) <==> Covers(e, c, t, v)
  {
    ScopeMeaning(e.scope.scope, c);
    ListMeaning(e.scope.packages, Some(t.PolicyPackageName()));
    ListMeaning(e.scope.versions, t.CacheVersion());
    IdListedMeaning(e, v);
  }

  lemma RawTargetMeaning(raw: RawScope, packages: seq<string>, versions: seq<string>, c: Context, t: ScanTarget)
    ensures var scope := NewScope(raw.repositories, raw.formats, raw.teams);
            ExceptionScope(scope, NormalizedSelectors(packages), NormalizedSelectors(versions)).Matches(c, t)
            <==> InRawScope(raw, c) && RawTargetListed(packages, versions, t)
  {
    hide MatchesSelector, NormalizedSelectors;
    RawScopeMeaning(raw, c);
    MatchingMeaning(packages, Some(t.PolicyPackageName()));
    MatchingMeaning(versions, t.CacheVersion());
  }

  // ---- Which vulnerabilities count ----

  /** No exception that has not expired covers it, and no allowed id of the selected rule names it. */
  ghost predicate Countable(ps: PolicySet, c: Context, t: ScanTarget, v: Vulnerability, now: int) {
    && !(exists i :: 0 <= i < |ps.exceptions| && Covers(ps.exceptions[i], c, t, v) && now < ps.exceptions[i].expiresAt)
    && !NamedAmong(v, ps.Select(c).policy.allowedIds)
  }

  // ---- Limits ----

  /** The limit in force: the explicit one, otherwise zero for severities not below the minimum. */
  function LimitOf(p: SecurityPolicy, s: Severity): Option<nat> {
    match s
    case Critical => if p.limits.critical.Some? then p.limits.critical else Some(0)
    case High =>
      if p.limits.high.Some? then p.limits.high else if p.minimumBlocking == Critical then None else Some(0)
    case Medium =>
      if p.limits.medium.Some? then p.limits.medium
      else if p.minimumBlocking == Low || p.minimumBlocking == Medium then Some(0)
      else None
    case Low => if p.limits.low.Some? then p.limits.low else if p.minimumBlocking == Low then Some(0) else None
  }

  lemma LimitMeaning(p: SecurityPolicy, s: Severity)
    ensures p.EffectiveLimit(s) == LimitOf(p, s)
  {
  }

  /** Where vulnerabilities of one severity stand in a list. */
  ghost function Positions(vs: seq<Vulnerability>, s: Severity): set<nat> {
    set i: nat | i < |vs| && vs[i].severity == Some(s)
  }

  /** The list is within the total limit and within every severity's limit. A vulnerability without a
      severity counts towards the total only. */
  ghost predicate Holds(p: SecurityPolicy, vs: seq<Vulnerability>) {
    && (p.limits.total.Some? ==> |vs| <= p.limits.total.value)
    && forall s: Severity :: LimitOf(p, s).Some? ==> |Positions(vs, s)| <= LimitOf(p, s).value
  }

  // ---- Contexts ----

  lemma {:induction false} FirstTeamMeaning(repositories: seq<Entry<string>>, n: string)
    ensures FirstTeam(repositories, n).None? <==>
            forall i :: 0 <= i < |repositories| ==> NormalizeMatchValue(repositories[i].key) != Some(n)
    ensures FirstTeam(repositories, n).Some? ==> exists i: nat :: IsFirstTeam(repositories, n, i)
  {
    if repositories != [] {
      var rest := repositories[1..];
      if NormalizeMatchValue(repositories[0].key) == Some(n) {
        assert IsFirstTeam(repositories, n, 0);
      } else {
        FirstTeamMeaning(rest, n);
        forall i | 0 < i < |repositories|
          ensures repositories[i] == rest[i - 1]
        {
        }
        if i: nat :| IsFirstTeam(rest, n, i) {
          assert IsFirstTeam(repositories, n, i + 1);
        }
      }
    }
  }

  ghost predicate IsFirstTeam(repositories: seq<Entry<string>>, n: string, i: nat) {
    && i < |repositories| && NormalizeMatchValue(repositories[i].key) == Some(n)
    && FirstTeam(repositories, n) == Some(repositories[i].value)
    && forall j :: 0 <= j < i ==> NormalizeMatchValue(repositories[j].key) != Some(n)
  }

  /** The first entry that names the repository up to surrounding blanks and ASCII case. */
  ghost predicate NamesFirst(ps: PolicySet, repository: string, i: nat) {
    && i < |ps.repositories| && SameSelector(repository, ps.repositories[i].key)
    && forall j :: 0 <= j < i ==> !SameSelector(repository, ps.repositories[j].key)
  }

  predicate Folded(value: string, fallback: string, result: string) {
    result == if Blank(value) then fallback else Lower(Trim(value))
  }

  /** The context of a request: repository and format folded, `default` and `generic` where blank, and the
      team of the first repository entry of that name. */
  lemma ContextMeaning(ps: PolicySet, repository: string, format: string)
    ensures var c := ps.ContextFor(repository, format);
            && Folded(repository, "default", c.repository) && Folded(format, "generic", c.format)
            && (c.team.Some? <==> exists i: nat :: NamesFirst(ps, repository, i) && !Blank(ps.repositories[i].value))
            && (forall i: nat :: NamesFirst(ps, repository, i) && c.team.Some? ==>
                  c.team.value == Lower(Trim(ps.repositories[i].value)))
  {
    NormalizeIdempotent(repository);
    NormalizeIdempotent(format);
    var n := NormalizeMatchValue(repository);
    forall i | 0 <= i < |ps.repositories|
      ensures SameSelector(repository, ps.repositories[i].key)
              <==> n.Some? && NormalizeMatchValue(ps.repositories[i].key) == n
      ensures NormalizeMatchValue(ps.repositories[i].value).None? <==> Blank(ps.repositories[i].value)
    {
      SameSelectorMeaning(repository, ps.repositories[i].key);
      NormalizeIdempotent(ps.repositories[i].value);
    }
    if n.Some? {
      FirstTeamMeaning(ps.repositories, n.value);
      if FirstTeam(ps.repositories, n.value).Some? {
        var i: nat :| IsFirstTeam(ps.repositories, n.value, i);
        assert NamesFirst(ps, repository, i);
        assert forall k: nat :: NamesFirst(ps, repository, k) ==> k == i;
      }
    }
  }
}
