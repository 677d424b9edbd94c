/** From raw policy records to a policy set (crates/security/src/policy/parse.rs). */
module PolicyParser {
  import opened Text
  import opened Normalize
  import opened OrderedMap
  import opened Policy
  import opened PolicyMeaning
  import opened Targets
  import opened Evaluator

  datatype Error =
    | MissingPolicyId(index: nat)
    | EmptyField(entity: string, field: string)
    | DuplicatePolicyId(id: string)
    | DuplicateExceptionId(id: string)
    | InvalidExceptionExpiry(id: string)
    | EmptyExceptionVulnerabilityIds(id: string)

  datatype RawRule = RawRule(id: Option<string>, mode: Mode, minimumBlocking: Severity, allowedIds: seq<string>,
                             limits: Limits, scope: RawScope)

  /** `expiry` is the instant the stamp denotes, if it is a well-formed RFC 3339 date-time. */
  datatype RawException = RawException(id: string, owner: string, ticket: string, reason: string, expiresAt: string,
                                       expiry: Option<int>, vulnerabilityIds: seq<string>, scope: RawScope,
                                       packages: seq<string>, versions: seq<string>)

  datatype RawPolicySet = RawPolicySet(defaultRule: RawRule, repositories: seq<Entry<string>>, rules: seq<RawRule>,
                                       exceptions: seq<RawException>)

  function TrimRequired(value: string, entity: string, field: string): Result<string, Error> {
    if Trim(value) == [] then Err(EmptyField(entity, field)) else Ok(Trim(value))
  }

  /** Normalised ids as an ordered set. */
  function NormalizedIds(ids: seq<string>): seq<string> {
    if ids == [] then []
    else match NormalizeVulnerabilityId(ids[0])
      case None => NormalizedIds(ids[1..])
      case Some(n) => InsertSorted(n, NormalizedIds(ids[1..]))
  }

  function ConvertRule(raw: RawRule, defaultId: Option<string>, index: nat): Result<Rule, Error> {
    var id := match (raw.id, defaultId)
      case (Some(id), _) => TrimRequired(id, "policy", "id")
      case (None, Some(d)) => Ok(d)
      case (None, None) => Err(MissingPolicyId(index));
    if id.Err? then Err(id.error)
    else Ok(Rule(id.value, raw.mode, NewScope(raw.scope.repositories, raw.scope.formats, raw.scope.teams),
                 SecurityPolicy(raw.minimumBlocking, NormalizedIds(raw.allowedIds), raw.limits)))
  }

  function ConvertException(raw: RawException): Result<PolicyException, Error> {
    var id := TrimRequired(raw.id, "exception", "id");
    if id.Err? then Err(id.error) else
    var stamp := TrimRequired(raw.expiresAt, "exception", "expires_at");
    if stamp.Err? then Err(stamp.error) else
    if raw.expiry.None? then Err(InvalidExceptionExpiry(id.value)) else
    var ids := NormalizedIds(raw.vulnerabilityIds);
    if ids == [] then Err(EmptyExceptionVulnerabilityIds(id.value)) else
    var owner := TrimRequired(raw.owner, "exception", "owner");
    if owner.Err? then Err(owner.error) else
    var ticket := TrimRequired(raw.ticket, "exception", "ticket");
    if ticket.Err? then Err(ticket.error) else
    var reason := TrimRequired(raw.reason, "exception", "reason");
    if reason.Err? then Err(reason.error) else
    Ok(PolicyException(id.value, owner.value, ticket.value, reason.value, raw.expiry.value, ids,
                       ExceptionScope(NewScope(raw.scope.repositories, raw.scope.formats, raw.scope.teams),
                                      NormalizedSelectors(raw.packages), NormalizedSelectors(raw.versions))))
  }

  // ---- When a raw set is acceptable ----

  ghost predicate RuleOk(raw: RawRule, isDefault: bool) {
    if raw.id.Some? then !Blank(raw.id.value) else isDefault
  }

  ghost predicate ExceptionOk(raw: RawException) {
    && !Blank(raw.id) && !Blank(raw.expiresAt) && raw.expiry.Some?
    && (exists i :: 0 <= i < |raw.vulnerabilityIds| && !Blank(raw.vulnerabilityIds[i]))
    && !Blank(raw.owner) && !Blank(raw.ticket) && !Blank(raw.reason)
  }

  function RuleIds(raw: RawPolicySet): seq<string> {
    [if raw.defaultRule.id.Some? then raw.defaultRule.id.value else "default"]
    + seq(|raw.rules|, i requires 0 <= i < |raw.rules| => if raw.rules[i].id.Some? then raw.rules[i].id.value else "")
  }

  function ExceptionIds(raw: RawPolicySet): seq<string> {
    seq(|raw.exceptions|, i requires 0 <= i < |raw.exceptions| => raw.exceptions[i].id)
  }

  /** Ids that stay different after trimming and ASCII case folding. */
  ghost predicate DistinctIds(ids: seq<string>) {
    forall i, j :: 0 <= i < j < |ids| ==> Lower(Trim(ids[i])) != Lower(Trim(ids[j]))
  }

  /** What the raw records must satisfy, said of the input alone. */
  ghost predicate Acceptable(raw: RawPolicySet) {
    && RuleOk(raw.defaultRule, true)
    && RulesOk(raw.rules, |raw.rules|)
    && (forall i :: 0 <= i < |raw.repositories| ==>
          !Blank(raw.repositories[i].key) && !Blank(raw.repositories[i].value))
    && ExceptionsOk(raw.exceptions, |raw.exceptions|)
    && DistinctIds(RuleIds(raw))
    && DistinctIds(ExceptionIds(raw))
  }

  lemma {:induction false} NormalizedIdsShape(ids: seq<string>)
    ensures StrictlyIncreasing(NormalizedIds(ids))
    ensures forall n :: n in NormalizedIds(ids) <==>
              exists i :: 0 <= i < |ids| && NormalizeVulnerabilityId(ids[i]) == Some(n)
  {
    if ids != [] {
      NormalizedIdsShape(ids[1..]);
      var rest := NormalizedIds(ids[1..]);
      if NormalizeVulnerabilityId(ids[0]).Some? {
        InsertSortedShape(NormalizeVulnerabilityId(ids[0]).value, rest);
      }
      forall n
        ensures n in NormalizedIds(ids) <==> exists i :: 0 <= i < |ids| && NormalizeVulnerabilityId(ids[i]) == Some(n)
      {
        if n in rest {
          var i :| 0 <= i < |ids[1..]| && NormalizeVulnerabilityId(ids[1..][i]) == Some(n);
          assert NormalizeVulnerabilityId(ids[i + 1]) == Some(n);
        }
        if i :| 0 <= i < |ids| && NormalizeVulnerabilityId(ids[i]) == Some(n) && i > 0 {
          assert NormalizeVulnerabilityId(ids[1..][i - 1]) == Some(n);
        }
      }
    }
  }

  lemma ConvertExceptionAccepts(raw: RawException)
    ensures ConvertException(raw).Ok? <==> ExceptionOk(raw)
    ensures ConvertException(raw).Ok? ==> ConvertException(raw).value.id == Trim(raw.id)
  {
    TrimShape(raw.id);
    TrimShape(raw.expiresAt);
    TrimShape(raw.owner);
    TrimShape(raw.ticket);
    TrimShape(raw.reason);
    SomeIdLeft(raw.vulnerabilityIds);
  }

  /** Some id is left exactly when some raw id is not blank. */
  lemma SomeIdLeft(raw: seq<string>)
    ensures NormalizedIds(raw) != [] <==> exists i :: 0 <= i < |raw| && !Blank(raw[i])
  {
    var ids := NormalizedIds(raw);
    NormalizedIdsShape(raw);
    forall i | 0 <= i < |raw|
      ensures NormalizeVulnerabilityId(raw[i]).Some? <==> !Blank(raw[i])
      ensures !Blank(raw[i]) ==> NormalizeVulnerabilityId(raw[i]).value in ids
    {
      TrimShape(raw[i]);
    }
    if ids != [] {
      assert ids[0] in ids;
      var i :| 0 <= i < |raw| && NormalizeVulnerabilityId(raw[i]) == Some(ids[0]);
      assert !Blank(raw[i]);
    }
  }

  lemma ConvertRuleAccepts(raw: RawRule, defaultId: Option<string>, index: nat)
    ensures ConvertRule(raw, defaultId, index).Ok? <==> RuleOk(raw, defaultId.Some?)
    ensures ConvertRule(raw, defaultId, index).Ok? ==>
              ConvertRule(raw, defaultId, index).value.id
                == if raw.id.Some? then Trim(raw.id.value) else defaultId.value
  {
    if raw.id.Some? {
      TrimShape(raw.id.value);
    }
  }

  // ---- What a converted record says ----

  lemma NormalizedIdsMeaning(raw: seq<string>, v: Vulnerability)
    ensures NamedAmong(v, NormalizedIds(raw)) <==> NamedAmong(v, raw)
    ensures IdListed(v, NormalizedIds(raw)) <==> NamedAmong(v, raw)
  {
    var ids := NormalizedIds(raw);
    NormalizedIdsShape(raw);
    if NamedAmong(v, raw) {
      var i :| 0 <= i < |raw| && Named(v, raw[i]);
      NormalizeIdempotent(raw[i]);
      NamedByForm(v, raw[i]);
      var n := NormalizeVulnerabilityId(raw[i]).value;
      var j :| 0 <= j < |ids| && ids[j] == n;
    }
    forall j | 0 <= j < |ids|
      ensures Named(v, ids[j]) || ListedAt(v, ids[j]) ==> NamedAmong(v, raw)
    {
      assert ids[j] in ids;
      var i :| 0 <= i < |raw| && NormalizeVulnerabilityId(raw[i]) == Some(ids[j]);
      NormalizeIdempotent(raw[i]);
      NamedByForm(v, raw[i]);
    }
    if j :| 0 <= j < |ids| && Named(v, ids[j]) {
    }
    assert IdListed(v, ids) ==> exists j :: 0 <= j < |ids| && ListedAt(v, ids[j]);
  }

  ghost predicate ListedAt(v: Vulnerability, x: string) {
    IsUpperForm(v.id, x) || exists k :: 0 <= k < |v.aliases| && IsUpperForm(v.aliases[k], x)
  }

  /** An id names a vulnerability exactly when its normal form does, and when that form is listed. */
  lemma NamedByForm(v: Vulnerability, id: string)
    requires NormalizeVulnerabilityId(id).Some?
    requires var n := NormalizeVulnerabilityId(id); NormalizeVulnerabilityId(n.value) == n
    ensures var n := NormalizeVulnerabilityId(id).value;
            (Named(v, id) <==> Named(v, n)) && (Named(v, id) <==> ListedAt(v, n))
  {
    var n := NormalizeVulnerabilityId(id).value;
    NamedMeaning(v, id);
    NamedMeaning(v, n);
    IdentifierMeaning(v, n);
    assert forall k :: 0 <= k < |v.aliases| ==>
        (NormalizeVulnerabilityId(v.aliases[k]) == Some(n) <==> IsUpperForm(v.aliases[k], n));
  }

  /** Every field of a rule, in terms of the raw record. */
  ghost predicate RuleSays(rule: Rule, raw: RawRule) {
    && (raw.id.Some? ==> TrimsTo(raw.id.value, rule.id))
    && rule.mode == raw.mode && rule.policy.minimumBlocking == raw.minimumBlocking
    && rule.policy.limits.total == raw.limits.total && rule.policy.limits.low == raw.limits.low
    && rule.policy.limits.medium == raw.limits.medium && rule.policy.limits.high == raw.limits.high
    && rule.policy.limits.critical == raw.limits.critical
    && (forall c: Context :: rule.scope.Matches(c) <==> InRawScope(raw.scope, c))
    && (forall v: Vulnerability :: rule.policy.Allows(v) <==> NamedAmong(v, raw.allowedIds))
  }

  lemma ConvertedRuleSays(raw: RawRule, fallback: Option<string>, index: nat)
    ensures var r := ConvertRule(raw, fallback, index); r.Ok? ==> RuleSays(r.value, raw)
    ensures var r := ConvertRule(raw, fallback, index); r.Ok? && raw.id.None? ==> Some(r.value.id) == fallback
  {
    var r := ConvertRule(raw, fallback, index);
    if r.Ok? {
      if raw.id.Some? {
        TrimMeaning(raw.id.value);
      }
      forall c: Context
        ensures r.value.scope.Matches(c) <==> InRawScope(raw.scope, c)
      {
        RawScopeMeaning(raw.scope, c);
      }
      forall v: Vulnerability
        ensures r.value.policy.Allows(v) <==> NamedAmong(v, raw.allowedIds)
      {
        AllowsMeaning(r.value.policy, v);
        NormalizedIdsMeaning(raw.allowedIds, v);
      }
    }
  }

  /** Every field of an exception, in terms of the raw record. */
  ghost predicate ExceptionSays(e: PolicyException, raw: RawException) {
    && TrimsTo(raw.id, e.id) && TrimsTo(raw.owner, e.owner) && TrimsTo(raw.ticket, e.ticket)
    && TrimsTo(raw.reason, e.reason) && raw.expiry == Some(e.expiresAt)
    && (forall v: Vulnerability :: e.MatchesVulnerability(v) <==> NamedAmong(v, raw.vulnerabilityIds))
    && (forall c: Context, t: ScanTarget ::
          e.scope.Matches(c, t) <==> InRawScope(raw.scope, c) && RawTargetListed(raw.packages, raw.versions, t))
  }

  lemma ConvertedTexts(raw: RawException)
    ensures var r := ConvertException(raw);
            r.Ok? ==>
              && TrimsTo(raw.id, r.value.id) && TrimsTo(raw.owner, r.value.owner)
              && TrimsTo(raw.ticket, r.value.ticket) && TrimsTo(raw.reason, r.value.reason)
              && raw.expiry == Some(r.value.expiresAt)
  {
    hide NormalizedIds, NewScope, NormalizedSelectors, TrimsTo;
    TrimMeaning(raw.id);
    TrimMeaning(raw.owner);
    TrimMeaning(raw.ticket);
    TrimMeaning(raw.reason);
  }

  lemma ConvertedLists(raw: RawException)
    ensures var r := ConvertException(raw);
            r.Ok? ==>
              && r.value.vulnerabilityIds == NormalizedIds(raw.vulnerabilityIds)
              && r.value.scope == ExceptionScope(NewScope(raw.scope.repositories, raw.scope.formats, raw.scope.teams),
                                                 NormalizedSelectors(raw.packages), NormalizedSelectors(raw.versions))
  {
    hide NormalizedIds, NewScope, NormalizedSelectors;
  }

  lemma ConvertedExceptionSays(raw: RawException)
    ensures var r := ConvertException(raw); r.Ok? ==> ExceptionSays(r.value, raw)
  {
    hide ConvertException, TrimsTo, IdListed, NamedAmong, InRawScope, RawTargetListed;
    var r := ConvertException(raw);
    ConvertedTexts(raw);
    ConvertedLists(raw);
    if r.Ok? {
      forall v: Vulnerability
        ensures r.value.MatchesVulnerability(v) <==> NamedAmong(v, raw.vulnerabilityIds)
      {
        IdListedMeaning(r.value, v);
        NormalizedIdsMeaning(raw.vulnerabilityIds, v);
      }
      forall c: Context, t: ScanTarget
        ensures r.value.scope.Matches(c, t)
                <==> InRawScope(raw.scope, c) && RawTargetListed(raw.packages, raw.versions, t)
      {
        RawTargetMeaning(raw.scope, raw.packages, raw.versions, c, t);
      }
    }
  }

  /** Which error a rule is rejected with. */
  lemma RuleErrors(raw: RawRule, fallback: Option<string>, index: nat, error: Error)
    ensures ConvertRule(raw, fallback, index) == Err(error) <==>
            || (raw.id.Some? && Blank(raw.id.value) && error == EmptyField("policy", "id"))
            || (raw.id.None? && fallback.None? && error == MissingPolicyId(index))
  {
    if raw.id.Some? {
      TrimShape(raw.id.value);
    }
  }

  ghost predicate SomeId(raw: RawException) {
    exists i :: 0 <= i < |raw.vulnerabilityIds| && !Blank(raw.vulnerabilityIds[i])
  }

  /** The checks on an exception, in the order in which they are made. */
  ghost predicate FailsWith(raw: RawException, error: Error) {
    if Blank(raw.id) then error == EmptyField("exception", "id")
    else if Blank(raw.expiresAt) then error == EmptyField("exception", "expires_at")
    else if raw.expiry.None? then error == InvalidExceptionExpiry(Trim(raw.id))
    else if !SomeId(raw) then error == EmptyExceptionVulnerabilityIds(Trim(raw.id))
    else if Blank(raw.owner) then error == EmptyField("exception", "owner")
    else if Blank(raw.ticket) then error == EmptyField("exception", "ticket")
    else Blank(raw.reason) && error == EmptyField("exception", "reason")
  }

  lemma ExceptionErrors(raw: RawException, error: Error)
    ensures ConvertException(raw) == Err(error) <==> FailsWith(raw, error)
  {
    TrimShape(raw.id);
    TrimShape(raw.expiresAt);
    TrimShape(raw.owner);
    TrimShape(raw.ticket);
    TrimShape(raw.reason);
    SomeIdLeft(raw.vulnerabilityIds);
  }

  // ---- The loops of the source ----

  ghost predicate NoneBlank(ids: seq<string>) {
    forall i :: 0 <= i < |ids| ==> !Blank(ids[i])
  }

  /** Insert every normalised id into an ordered set; the first that is blank or already there is
      the offender. */
  method FirstBadId(ids: seq<string>) returns (bad: Option<nat>)
    ensures bad.None? <==> NoneBlank(ids) && DistinctIds(ids)
    ensures bad.Some? ==> bad.value < |ids| && NoneBlank(ids[..bad.value]) && DistinctIds(ids[..bad.value])
    ensures bad.Some? && !Blank(ids[bad.value]) ==>
              exists i :: 0 <= i < bad.value && SameSelector(ids[bad.value], ids[i])
  {
    var known: set<string> := {};
    for k := 0 to |ids|
      invariant known == set i | 0 <= i < k :: Lower(Trim(ids[i]))
      invariant NoneBlank(ids[..k]) && DistinctIds(ids[..k])
    {
      var n := NormalizeMatchValue(ids[k]);
      NormalizeIdempotent(ids[k]);
      if n.None? {
        return Some(k);
      }
      if n.value in known {
        var i :| 0 <= i < k && Lower(Trim(ids[i])) == Lower(Trim(ids[k]));
        assert !DistinctIds(ids);
        assert SameSelector(ids[k], ids[i]);
        return Some(k);
      }
      known := known + {n.value};
      assert ids[..k + 1] == ids[..k] + [ids[k]];
    }
    assert ids[..|ids|] == ids;
    return None;
  }

  /** Policy ids first, then exception ids; blank ids are refused as well as repeated ones. */
  method ValidateUniqueIds(ruleIds: seq<string>, exceptionIds: seq<string>) returns (r: Option<Error>)
    ensures r.None? <==>
              NoneBlank(ruleIds) && DistinctIds(ruleIds) && NoneBlank(exceptionIds) && DistinctIds(exceptionIds)
    ensures r.Some? && r.value.DuplicatePolicyId? ==> r.value.id in ruleIds && !DistinctIds(ruleIds)
    ensures r.Some? && r.value.DuplicateExceptionId? ==>
              r.value.id in exceptionIds && !DistinctIds(exceptionIds) && NoneBlank(ruleIds) && DistinctIds(ruleIds)
    ensures r.Some? ==> r.value.DuplicatePolicyId? || r.value.DuplicateExceptionId? ||
                        (r.value.EmptyField? && !(NoneBlank(ruleIds) && NoneBlank(exceptionIds)))
  {
    var bad := FirstBadId(ruleIds);
    if bad.Some? {
      NormalizeIdempotent(ruleIds[bad.value]);
      return Some(if NormalizeMatchValue(ruleIds[bad.value]).None? then EmptyField("policy", "id")
                  else DuplicatePolicyId(ruleIds[bad.value]));
    }
    bad := FirstBadId(exceptionIds);
    if bad.Some? {
      NormalizeIdempotent(exceptionIds[bad.value]);
      return Some(if NormalizeMatchValue(exceptionIds[bad.value]).None? then EmptyField("exception", "id")
                  else DuplicateExceptionId(exceptionIds[bad.value]));
    }
    return None;
  }

  ghost predicate RulesOk(raw: seq<RawRule>, k: nat)
    requires k <= |raw|
  {
    forall i :: 0 <= i < k ==> RuleOk(raw[i], false)
  }

  /** The first `k` raw rules, converted one by one and in order. */
  ghost predicate RulesConverted(rules: seq<Rule>, raw: seq<RawRule>, k: nat)
    requires k <= |raw|
  {
    |rules| == k && forall i :: 0 <= i < k ==> Ok(rules[i]) == ConvertRule(raw[i], None, i)
  }

  /** The first rule that does not convert, and what is wrong with it. */
  ghost predicate FirstBadRule(raw: seq<RawRule>, k: nat, error: Error) {
    k < |raw| && RulesOk(raw, k) && ConvertRule(raw[k], None, k) == Err(error)
  }

  lemma RulesSnoc(rules: seq<Rule>, raw: seq<RawRule>, k: nat)
    requires k < |raw| && RulesConverted(rules, raw, k) && RulesOk(raw, k)
    ensures var rule := ConvertRule(raw[k], None, k);
            if rule.Ok? then RulesConverted(rules + [rule.value], raw, k + 1) && RulesOk(raw, k + 1)
            else !RulesOk(raw, |raw|) && FirstBadRule(raw, k, rule.error)
  {
    ConvertRuleAccepts(raw[k], None, k);
  }

  method ConvertRules(raw: seq<RawRule>) returns (r: Result<seq<Rule>, Error>)
    ensures r.Ok? <==> RulesOk(raw, |raw|)
    ensures r.Ok? ==> RulesConverted(r.value, raw, |raw|)
    ensures r.Err? ==> exists k :: FirstBadRule(raw, k, r.error)
  {
    var rules: seq<Rule> := [];
    for k := 0 to |raw|
      invariant RulesConverted(rules, raw, k) && RulesOk(raw, k)
    {
      var rule := ConvertRule(raw[k], None, k);
      RulesSnoc(rules, raw, k);
      if rule.Err? {
        return Err(rule.error);
      }
      rules := rules + [rule.value];
    }
    return Ok(rules);
  }

  ghost predicate ExceptionsOk(raw: seq<RawException>, k: nat)
    requires k <= |raw|
  {
    forall i :: 0 <= i < k ==> ExceptionOk(raw[i])
  }

  ghost predicate ExceptionsConverted(es: seq<PolicyException>, raw: seq<RawException>, k: nat)
    requires k <= |raw|
  {
    |es| == k && forall i :: 0 <= i < k ==> Ok(es[i]) == ConvertException(raw[i])
  }

  ghost predicate FirstBadException(raw: seq<RawException>, k: nat, error: Error) {
    k < |raw| && ExceptionsOk(raw, k) && ConvertException(raw[k]) == Err(error)
  }

  lemma ExceptionsSnoc(es: seq<PolicyException>, raw: seq<RawException>, k: nat)
    requires k < |raw| && ExceptionsConverted(es, raw, k) && ExceptionsOk(raw, k)
    ensures var e := ConvertException(raw[k]);
            if e.Ok? then ExceptionsConverted(es + [e.value], raw, k + 1) && ExceptionsOk(raw, k + 1)
            else !ExceptionsOk(raw, |raw|) && FirstBadException(raw, k, e.error)
  {
    ConvertExceptionAccepts(raw[k]);
  }

  method ConvertExceptions(raw: seq<RawException>) returns (r: Result<seq<PolicyException>, Error>)
    ensures r.Ok? <==> ExceptionsOk(raw, |raw|)
    ensures r.Ok? ==> ExceptionsConverted(r.value, raw, |raw|)
    ensures r.Err? ==> exists k :: FirstBadException(raw, k, r.error)
  {
    var es: seq<PolicyException> := [];
    for k := 0 to |raw|
      invariant ExceptionsConverted(es, raw, k) && ExceptionsOk(raw, k)
    {
      var e := ConvertException(raw[k]);
      ExceptionsSnoc(es, raw, k);
      if e.Err? {
        return Err(e.error);
      }
      es := es + [e.value];
    }
    return Ok(es);
  }

  function TrimmedEntry(e: Entry<string>): Entry<string> {
    Entry(Trim(e.key), Trim(e.value))
  }

  /** Among the first `n` raw entries, `e` is the trimmed form of the last one with its name. */
  ghost predicate LastFor(raw: seq<Entry<string>>, n: nat, e: Entry<string>)
    requires n <= |raw|
  {
    exists j :: 0 <= j < n && IsLast(raw, n, j, e)
  }

  ghost predicate IsLast(raw: seq<Entry<string>>, n: nat, j: nat, e: Entry<string>)
    requires j < n <= |raw|
  {
    TrimmedEntry(raw[j]) == e && forall i :: j < i < n ==> Trim(raw[i].key) != e.key
  }

  ghost predicate RepositoriesConverted(m: seq<Entry<string>>, raw: seq<Entry<string>>, n: nat)
    requires n <= |raw|
  {
    Ordered(m) && forall e :: e in m <==> LastFor(raw, n, e)
  }

  lemma LastForSnoc(raw: seq<Entry<string>>, k: nat, e: Entry<string>)
    requires k < |raw|
    ensures LastFor(raw, k + 1, e) <==> e == TrimmedEntry(raw[k]) || (LastFor(raw, k, e) && e.key != Trim(raw[k].key))
  {
    if e == TrimmedEntry(raw[k]) {
      assert IsLast(raw, k + 1, k, e);
    }
    if LastFor(raw, k, e) && e.key != Trim(raw[k].key) {
      var j :| 0 <= j < k && IsLast(raw, k, j, e);
      assert IsLast(raw, k + 1, j, e);
    }
    if LastFor(raw, k + 1, e) && e != TrimmedEntry(raw[k]) {
      var j :| 0 <= j < k + 1 && IsLast(raw, k + 1, j, e);
      assert IsLast(raw, k, j, e);
    }
  }

  lemma RepositoriesSnoc(m: seq<Entry<string>>, raw: seq<Entry<string>>, k: nat)
    requires k < |raw| && RepositoriesConverted(m, raw, k)
    ensures RepositoriesConverted(Insert(m, Trim(raw[k].key), Trim(raw[k].value)), raw, k + 1)
  {
    var r := Insert(m, Trim(raw[k].key), Trim(raw[k].value));
    InsertShape(m, Trim(raw[k].key), Trim(raw[k].value));
    forall e
      ensures e in r <==> LastFor(raw, k + 1, e)
    {
      LastForSnoc(raw, k, e);
    }
  }

  /** Repository names and teams are trimmed; of entries whose names then agree the last one wins. */
  method ConvertRepositories(raw: seq<Entry<string>>) returns (r: Result<seq<Entry<string>>, Error>)
    ensures r.Ok? <==> forall i :: 0 <= i < |raw| ==> !Blank(raw[i].key) && !Blank(raw[i].value)
    ensures r.Ok? ==> RepositoriesConverted(r.value, raw, |raw|)
  {
    var repositories: seq<Entry<string>> := [];
    for k := 0 to |raw|
      invariant RepositoriesConverted(repositories, raw, k)
      invariant forall i :: 0 <= i < k ==> !Blank(raw[i].key) && !Blank(raw[i].value)
    {
      var name := TrimRequired(raw[k].key, "repository", "name");
      TrimShape(raw[k].key);
      if name.Err? {
        return Err(name.error);
      }
      var team := TrimRequired(raw[k].value, "repository", "team");
      TrimShape(raw[k].value);
      if team.Err? {
        return Err(team.error);
      }
      RepositoriesSnoc(repositories, raw, k);
      repositories := Insert(repositories, name.value, team.value);
    }
    return Ok(repositories);
  }

  /** Every record of the set says what its raw record says, rule by rule and exception by exception. */
  ghost predicate SetSays(ps: PolicySet, raw: RawPolicySet) {
    && RuleSays(ps.defaultRule, raw.defaultRule) && (raw.defaultRule.id.None? ==> ps.defaultRule.id == "default")
    && |ps.rules| == |raw.rules| && (forall i :: 0 <= i < |raw.rules| ==> RuleSays(ps.rules[i], raw.rules[i]))
    && |ps.exceptions| == |raw.exceptions|
    && (forall i :: 0 <= i < |raw.exceptions| ==> ExceptionSays(ps.exceptions[i], raw.exceptions[i]))
    && RepositoriesConverted(ps.repositories, raw.repositories, |raw.repositories|)
  }

  lemma ConvertedSetSays(ps: PolicySet, raw: RawPolicySet)
    requires Ok(ps.defaultRule) == ConvertRule(raw.defaultRule, Some("default"), 0)
    requires RulesConverted(ps.rules, raw.rules, |raw.rules|)
    requires ExceptionsConverted(ps.exceptions, raw.exceptions, |raw.exceptions|)
    requires RepositoriesConverted(ps.repositories, raw.repositories, |raw.repositories|)
    ensures SetSays(ps, raw)
  {
    hide ConvertRule, ConvertException, RuleSays, ExceptionSays, RepositoriesConverted;
    ConvertedRuleSays(raw.defaultRule, Some("default"), 0);
    forall i | 0 <= i < |raw.rules|
      ensures RuleSays(ps.rules[i], raw.rules[i])
    {
      assert Ok(ps.rules[i]) == ConvertRule(raw.rules[i], None, i);
      ConvertedRuleSays(raw.rules[i], None, i);
    }
    forall i | 0 <= i < |raw.exceptions|
      ensures ExceptionSays(ps.exceptions[i], raw.exceptions[i])
    {
      assert Ok(ps.exceptions[i]) == ConvertException(raw.exceptions[i]);
      ConvertedExceptionSays(raw.exceptions[i]);
    }
  }

  /** Convert everything, then reject repeated ids. A raw set is accepted exactly when it is acceptable;
      an accepted set has unique normalised exception ids and says what the raw set says. */
  method FromRaw(raw: RawPolicySet) returns (r: Result<PolicySet, Error>)
    ensures r.Ok? <==> Acceptable(raw)
    ensures r.Ok? ==> UniqueIds(r.value.exceptions)
    ensures r.Ok? ==> SetSays(r.value, raw)
  {
    var d := ConvertRule(raw.defaultRule, Some("default"), 0);
    ConvertRuleAccepts(raw.defaultRule, Some("default"), 0);
    if d.Err? {
      return Err(d.error);
    }
    var rules := ConvertRules(raw.rules);
    if rules.Err? {
      return Err(rules.error);
    }
    var repositories := ConvertRepositories(raw.repositories);
    if repositories.Err? {
      return Err(repositories.error);
    }
    var exceptions := ConvertExceptions(raw.exceptions);
    if exceptions.Err? {
      return Err(exceptions.error);
    }
    var ruleIds := IdsOfRules(d.value, rules.value);
    var exceptionIds := IdsOfExceptions(exceptions.value);
    ConvertedRuleIds(raw, d.value, rules.value);
    ConvertedExceptionIds(raw, exceptions.value);
    var clash := ValidateUniqueIds(ruleIds, exceptionIds);
    if clash.Some? {
      return Err(clash.value);
    }
    UniqueIdsOf(exceptions.value);
    var ps := PolicySet(d.value, repositories.value, rules.value, exceptions.value);
    ConvertedSetSays(ps, raw);
    return Ok(ps);
  }

  function IdsOfRules(d: Rule, rules: seq<Rule>): seq<string> {
    [d.id] + seq(|rules|, i requires 0 <= i < |rules| => rules[i].id)
  }

  function IdsOfExceptions(es: seq<PolicyException>): seq<string> {
    seq(|es|, i requires 0 <= i < |es| => es[i].id)
  }

  /** Ids that differ only by surrounding blanks are distinct together. */
  lemma SameTrimmedIds(ids: seq<string>, raw: seq<string>)
    requires |ids| == |raw| && forall i :: 0 <= i < |ids| ==> Trim(ids[i]) == Trim(raw[i])
    ensures DistinctIds(ids) <==> DistinctIds(raw)
  {
  }

  lemma ConvertedId(raw: RawRule, fallback: Option<string>, index: nat, rule: Rule)
    requires Ok(rule) == ConvertRule(raw, fallback, index)
    ensures rule.id == if raw.id.Some? then Trim(raw.id.value) else if fallback.Some? then fallback.value else ""
    ensures raw.id.Some? ==> !Blank(rule.id) && Trim(rule.id) == Trim(raw.id.value)
    ensures raw.id.None? ==> fallback.Some?
  {
    if raw.id.Some? {
      TrimShape(raw.id.value);
      TrimShape(rule.id);
    }
  }

  lemma ConvertedRuleId(raw: RawPolicySet, d: Rule, rules: seq<Rule>, i: nat)
    requires Ok(d) == ConvertRule(raw.defaultRule, Some("default"), 0)
    requires RulesConverted(rules, raw.rules, |raw.rules|) && i <= |rules|
    ensures !Blank(IdsOfRules(d, rules)[i]) && Trim(IdsOfRules(d, rules)[i]) == Trim(RuleIds(raw)[i])
  {
    hide ConvertRule, Trim, Blank;
    if i == 0 {
      ConvertedId(raw.defaultRule, Some("default"), 0, d);
      DefaultIsNotBlank();
    } else {
      assert Ok(rules[i - 1]) == ConvertRule(raw.rules[i - 1], None, i - 1);
      ConvertedId(raw.rules[i - 1], None, i - 1, rules[i - 1]);
    }
  }

  lemma DefaultIsNotBlank()
    ensures !Blank("default")
  {
    var word := "default";
    assert !IsWhitespace(word[0]);
  }

  lemma ConvertedRuleIds(raw: RawPolicySet, d: Rule, rules: seq<Rule>)
    requires Ok(d) == ConvertRule(raw.defaultRule, Some("default"), 0)
    requires RulesConverted(rules, raw.rules, |raw.rules|)
    ensures NoneBlank(IdsOfRules(d, rules)) && (DistinctIds(IdsOfRules(d, rules)) <==> DistinctIds(RuleIds(raw)))
  {
    var ids := IdsOfRules(d, rules);
    forall i | 0 <= i < |ids|
      ensures !Blank(ids[i]) && Trim(ids[i]) == Trim(RuleIds(raw)[i])
    {
      ConvertedRuleId(raw, d, rules, i);
    }
    SameTrimmedIds(ids, RuleIds(raw));
  }

  lemma ConvertedExceptionId(raw: RawPolicySet, es: seq<PolicyException>, i: nat)
    requires ExceptionsConverted(es, raw.exceptions, |raw.exceptions|) && i < |es|
    ensures !Blank(es[i].id) && Trim(es[i].id) == Trim(raw.exceptions[i].id)
  {
    ConvertExceptionAccepts(raw.exceptions[i]);
    TrimShape(raw.exceptions[i].id);
    TrimShape(es[i].id);
  }

  lemma ConvertedExceptionIds(raw: RawPolicySet, es: seq<PolicyException>)
    requires ExceptionsConverted(es, raw.exceptions, |raw.exceptions|)
    ensures NoneBlank(IdsOfExceptions(es)) && (DistinctIds(IdsOfExceptions(es)) <==> DistinctIds(ExceptionIds(raw)))
  {
    var ids := IdsOfExceptions(es);
    forall i | 0 <= i < |ids|
      ensures !Blank(ids[i]) && Trim(ids[i]) == Trim(ExceptionIds(raw)[i])
    {
      ConvertedExceptionId(raw, es, i);
    }
    SameTrimmedIds(ids, ExceptionIds(raw));
  }

  lemma UniqueIdsOf(es: seq<PolicyException>)
    requires NoneBlank(IdsOfExceptions(es)) && DistinctIds(IdsOfExceptions(es))
    ensures UniqueIds(es)
  {
    var ids := IdsOfExceptions(es);
    forall i | 0 <= i < |es|
      ensures ExceptionKey(es[i]) == Lower(Trim(ids[i]))
    {
      assert !Blank(ids[i]);
      TrimShape(ids[i]);
    }
  }
}
