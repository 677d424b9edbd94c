/** When the vulnerability source is a function of the package, the scan cache is invisible: every
    package request is ruled as a proxy without a cache would rule it
    (crates/proxy/src/scan.rs, crates/security/src/target.rs, crates/cache/src/moka.rs). */
module CacheTransparency {
  import opened Text
  import opened Targets
  import opened Policy
  import opened Evaluator
  import opened Gateway
  import opened GatewayLaws
  import TwoTierCache

  // ---- The gateway's cache is wide enough for the real one ----

  /** Every finished write of the two-tier cache is one of the stored lists. */
  ghost predicate WritesStored(events: seq<TwoTierCache.Event>, stored: set<Obtained>) {
    forall i :: 0 <= i < |events| && events[i].Finish? ==> ListFor(stored, events[i].key, events[i].scan)
  }

  /** Whatever the two-tier cache answers, with its operations interleaved in any way, the gateway's
      lookup may answer. */
  lemma CacheAnswersAreEnabled(events: seq<TwoTierCache.Event>, later: seq<TwoTierCache.Event>,
                               ttl: TwoTierCache.Lifetimes, key: CacheKey, scan: Scan, stored: set<Obtained>)
    requires TwoTierCache.SplitLookup(events, later, ttl, key) == Some(scan) && WritesStored(events + later, stored)
    ensures ListFor(stored, key, scan)
  {
    TwoTierCache.HitIsSomePut(events, later, ttl, key, scan);
  }

  // ---- Runs whose source is a function ----

  type Source = ScanTarget -> SourceResult

  /** A source query, if the step is one, is answered by `src`. */
  predicate AnswersFrom(cfg: Config, src: Source, s: State, l: Label)
    requires Enabled(cfg, s, l)
  {
    l.SourceAnswers? ==> l.source == src(s.requests[l.r].phase.target)
  }

  /** The labels can be taken in turn from `s`, with `src` answering every source query. */
  ghost predicate Follows(cfg: Config, src: Source, s: State, labels: seq<Label>)
    decreases |labels|
  {
    labels == []
    || (&& Enabled(cfg, s, labels[0]) && AnswersFrom(cfg, src, s, labels[0])
        && Follows(cfg, src, Step(cfg, s, labels[0]), labels[1..]))
  }

  ghost function Run(cfg: Config, src: Source, s: State, labels: seq<Label>): State
    requires Follows(cfg, src, s, labels)
    decreases |labels|
  {
    if labels == [] then s else Run(cfg, src, Step(cfg, s, labels[0]), labels[1..])
  }

  predicate OfPackage(cfg: Config, s: State, l: Label)
    requires Enabled(cfg, s, l)
  {
    OfRequest(l) && !l.Arrive? && s.requests[l.r].request.PackageRequest?
  }

  // ---- The cache agrees with the source ----

  ghost predicate CacheFaithful(src: Source, stored: set<Obtained>) {
    forall o :: o in stored && o.target.Package? ==> src(o.target) == Found(o.list)
  }

  datatype Ruling = LetPass | Block(report: BlockReport) | Unavailable

  function OnVerdict(verdict: Outcome): Ruling {
    if verdict.Blocked? then Block(verdict.report) else LetPass
  }

  /** What a proxy without a cache rules, asking the source afresh. */
  function FreshRuling(cfg: Config, src: Source, ps: PolicySet, q: Request, now: int): Ruling
    requires q.PackageRequest?
  {
    match src(q.target)
    case Found(list) => OnVerdict(VerdictUnder(ps, ps, q.repository, q.target, list, now))
    case SourceUnsupported => if cfg.allowUnsupported then LetPass else Block(BlockReport(q.target, None, [], []))
    case SourceError => if cfg.failOpen then LetPass else Unavailable
  }

  /** How a ruled request may stand: blocking ends in a 403 with that report, or in a refusal when the
      requester cannot be verified or the report cannot be created. */
  predicate Agrees(ruling: Ruling, phase: Phase) {
    match phase
    case Verifying(block) => ruling == Block(block)
    case Reporting(block) => ruling == Block(block)
    case Recording(block, _) => ruling == Block(block)
    case Notifying(block, _) => ruling == Block(block)
    case Answered(Forwarded) => ruling == LetPass
    case Answered(Forbidden(block, _)) => ruling == Block(block)
    case Answered(Refused) => ruling != LetPass
    case _ => false
  }

  /** The request stands as the fresh ruling under policy generation `g` at time `now` has it, and if
      a list was judged at all it was then. */
  ghost predicate RuledAt(cfg: Config, src: Source, policies: seq<PolicySet>, c: Record, g: nat, now: int)
    requires c.request.PackageRequest?
  {
    && 1 <= g <= |policies|
    && Agrees(FreshRuling(cfg, src, policies[g - 1], c.request, now), c.phase)
    && forall e :: e in c.log && e.Judged? ==> e.generation == g && e.now == now
  }

  ghost predicate Ruled(cfg: Config, src: Source, policies: seq<PolicySet>, c: Record)
    requires c.request.PackageRequest?
  {
    exists g, now :: RuledAt(cfg, src, policies, c, g, now)
  }

  predicate Pending(phase: Phase) {
    phase.Arrived? || phase.Lookup? || phase.Querying? || phase.Caching? || phase.Judging?
  }

  ghost predicate PackageOk(cfg: Config, src: Source, policies: seq<PolicySet>, c: Record) {
    c.request.PackageRequest? ==>
      if Pending(c.phase) then
        NotJudged(c.log) && (c.phase.Caching? || c.phase.Judging? ==> src(c.request.target) == Found(c.phase.list))
      else Ruled(cfg, src, policies, c)
  }

  ghost predicate PackagesOk(cfg: Config, src: Source, policies: seq<PolicySet>, requests: map<ReqId, Record>) {
    forall r :: r in requests ==> PackageOk(cfg, src, policies, requests[r])
  }

  ghost predicate Faithful(cfg: Config, src: Source, s: State) {
    && SafetyInvariant(cfg, s)
    && CacheFaithful(src, s.stored)
    && PackagesOk(cfg, src, s.policies, s.requests)
  }

  lemma CacheFaithfulStep(cfg: Config, src: Source, s: State, l: Label)
    requires Faithful(cfg, src, s) && Enabled(cfg, s, l)
    ensures CacheFaithful(src, NextStored(cfg, s, l))
  {
    if l.CachePut? {
      var c := s.requests[l.r];
      assert RecordOk(KnownIn(cfg, s), c) && PackageOk(cfg, src, s.policies, c);
    }
  }

  /** A hit is about the request's own package, and other requests never hit on a package. */
  lemma HitKind(cfg: Config, s: State, l: Label)
    requires SafetyInvariant(cfg, s) && Enabled(cfg, s, l) && l.CacheGet? && l.hit.Some?
    ensures var c := s.requests[l.r];
            && Owns(c.request, c.phase.key, c.phase.target)
            && (c.request.PackageRequest? ==> l.hit.value.target == c.request.target)
            && (!c.request.PackageRequest? ==> l.hit.value.target.Artifact?)
  {
    var c, o := s.requests[l.r], l.hit.value;
    assert RecordOk(KnownIn(cfg, s), c) && OwnedBySome(cfg, o);
    var q :| WellFormed(cfg, q) && Owns(q, o.key, o.target);
    SameKeySameTarget(cfg, c.request, c.phase.target, q, o.target, o.key);
  }

  lemma VerdictRuling(cfg: Config, src: Source, policies: seq<PolicySet>, c: Record, e: Event)
    requires c.request.PackageRequest? && c.phase.Judging? && NotJudged(c.log)
    requires e.Judged? && FairVerdict(policies, c.request, e) && e.target == c.phase.target && e.list == c.phase.list
    requires src(c.request.target) == Found(c.phase.list) && c.phase.target == c.request.target
    ensures RuledAt(cfg, src, policies, ApplyVerdict(c, e), e.generation, e.now)
  {
    var after := ApplyVerdict(c, e);
    assert after.log == c.log + [e];
    assert FreshRuling(cfg, src, policies[e.generation - 1], c.request, e.now) == OnVerdict(e.verdict);
  }

  lemma SourceRuling(cfg: Config, src: Source, policies: seq<PolicySet>, c: Record)
    requires c.request.PackageRequest? && c.phase.Querying? && c.phase.target == c.request.target
    requires NotJudged(c.log) && policies != []
    ensures PackageOk(cfg, src, policies, SourceRecord(cfg, c, src(c.phase.target)))
  {
    var after := SourceRecord(cfg, c, src(c.phase.target));
    assert NotJudged(after.log);
    if !src(c.phase.target).Found? {
      assert RuledAt(cfg, src, policies, after, 1, 0);
    }
  }

  /** The steps of a block keep the ruling. */
  lemma BlockingRuling(cfg: Config, src: Source, policies: seq<PolicySet>, c: Record, l: Label, p: ActivePolicy)
    requires c.request.PackageRequest? && Ruled(cfg, src, policies, c) && Awaits(cfg, c, l) && Blocking(l)
    ensures Ruled(cfg, src, policies, Advance(cfg, c, l, p))
  {
    var g, now :| RuledAt(cfg, src, policies, c, g, now);
    BlockingAgrees(cfg, FreshRuling(cfg, src, policies[g - 1], c.request, now), c, l, p);
    assert RuledAt(cfg, src, policies, Advance(cfg, c, l, p), g, now);
  }

  lemma BlockingAgrees(cfg: Config, ruling: Ruling, c: Record, l: Label, p: ActivePolicy)
    requires Agrees(ruling, c.phase) && Awaits(cfg, c, l) && Blocking(l)
    ensures var after := Advance(cfg, c, l, p);
            Agrees(ruling, after.phase) && after.log == c.log && after.request == c.request
  {
  }

  lemma LookupPending(cfg: Config, src: Source, policies: seq<PolicySet>, c: Record, hit: Option<Obtained>)
    requires c.request.PackageRequest? && c.phase.Lookup? && NotJudged(c.log)
    requires hit.Some? ==> src(c.request.target) == Found(hit.value.list)
    ensures PackageOk(cfg, src, policies, CacheGetRecord(c, hit))
  {
    assert NotJudged(CacheGetRecord(c, hit).log);
  }

  lemma PackageAdvance(cfg: Config, src: Source, policies: seq<PolicySet>, c: Record, l: Label, p: ActivePolicy)
    requires c.request.PackageRequest? && WellFormed(cfg, c.request) && Awaits(cfg, c, l) && PolicyOk(p, policies)
    requires PackageOk(cfg, src, policies, c)
    requires c.phase.Querying? || c.phase.Judging? ==> c.phase.target == c.request.target
    requires l.CacheGet? && l.hit.Some? ==> src(c.request.target) == Found(l.hit.value.list)
    requires l.SourceAnswers? ==> l.source == src(c.request.target)
    ensures PackageOk(cfg, src, policies, Advance(cfg, c, l, p))
  {
    if Blocking(l) {
      BlockingRuling(cfg, src, policies, c, l, p);
    } else {
      match l
      case Dispatch(_) =>
      case CacheGet(_, hit) => LookupPending(cfg, src, policies, c, hit);
      case SourceAnswers(_, _) => SourceRuling(cfg, src, policies, c);
      case CachePut(_, _) =>
      case Judge(_, now) =>
        JudgedFairly(policies, c, p, now);
        VerdictRuling(cfg, src, policies, c, JudgedEvent(c, p, now));
      case _ =>
    }
  }

  lemma RequestKept(cfg: Config, c: Record, l: Label, p: ActivePolicy)
    requires Awaits(cfg, c, l)
    ensures Advance(cfg, c, l, p).request == c.request
  {
  }

  lemma PackageStep(cfg: Config, src: Source, s: State, l: Label)
    requires Faithful(cfg, src, s) && Enabled(cfg, s, l) && AnswersFrom(cfg, src, s, l) && OfRequest(l)
    ensures PackageOk(cfg, src, s.policies, NextRecord(cfg, s, l))
  {
    if OfPackage(cfg, s, l) {
      var c := s.requests[l.r];
      assert RecordOk(KnownIn(cfg, s), c) && PackageOk(cfg, src, s.policies, c);
      if l.CacheGet? && l.hit.Some? {
        HitKind(cfg, s, l);
      }
      PackageAdvance(cfg, src, s.policies, c, l, s.policy);
    } else if !l.Arrive? {
      RequestKept(cfg, s.requests[l.r], l, s.policy);
    }
  }

  lemma RuledMonotone(cfg: Config, src: Source, policies: seq<PolicySet>, more: seq<PolicySet>, c: Record)
    requires PackageOk(cfg, src, policies, c) && policies <= more
    ensures PackageOk(cfg, src, more, c)
  {
    if c.request.PackageRequest? && !Pending(c.phase) {
      var g, now :| RuledAt(cfg, src, policies, c, g, now);
      assert RuledAt(cfg, src, more, c, g, now);
    }
  }

  lemma PackagesMonotone(cfg: Config, src: Source, policies: seq<PolicySet>, more: seq<PolicySet>,
                         requests: map<ReqId, Record>)
    requires PackagesOk(cfg, src, policies, requests) && policies <= more
    ensures PackagesOk(cfg, src, more, requests)
  {
    forall r | r in requests
      ensures PackageOk(cfg, src, more, requests[r])
    {
      RuledMonotone(cfg, src, policies, more, requests[r]);
    }
  }

  lemma FaithfulStep(cfg: Config, src: Source, s: State, l: Label)
    requires Faithful(cfg, src, s) && Enabled(cfg, s, l) && AnswersFrom(cfg, src, s, l)
    ensures Faithful(cfg, src, Step(cfg, s, l))
  {
    SafetyStep(cfg, s, l);
    CacheFaithfulStep(cfg, src, s, l);
    PackagesMonotone(cfg, src, s.policies, Step(cfg, s, l).policies, s.requests);
    if OfRequest(l) {
      PackageStep(cfg, src, s, l);
    }
  }

  lemma {:induction false} FaithfulHolds(cfg: Config, src: Source, s: State, labels: seq<Label>)
    requires Faithful(cfg, src, s) && Follows(cfg, src, s, labels)
    ensures Faithful(cfg, src, Run(cfg, src, s, labels))
    decreases |labels|
  {
    if labels != [] {
      FaithfulStep(cfg, src, s, labels[0]);
      FaithfulHolds(cfg, src, Step(cfg, s, labels[0]), labels[1..]);
    }
  }

  /** Over every run, with hits, misses and reloads in any order: each package request that has been
      ruled on stands exactly as a proxy asking the source afresh would have it, under one installed
      policy generation and at one instant, which are those of its own verdict if it has one. */
  lemma PackageRulings(cfg: Config, src: Source, ps: PolicySet, labels: seq<Label>, r: ReqId)
    requires Follows(cfg, src, Initial(cfg, ps), labels)
    requires var s := Run(cfg, src, Initial(cfg, ps), labels);
             r in s.requests && s.requests[r].request.PackageRequest? && !Pending(s.requests[r].phase)
    ensures var s := Run(cfg, src, Initial(cfg, ps), labels);
            exists g, now :: RuledAt(cfg, src, s.policies, s.requests[r], g, now)
  {
    FaithfulHolds(cfg, src, Initial(cfg, ps), labels);
    var s := Run(cfg, src, Initial(cfg, ps), labels);
    assert PackageOk(cfg, src, s.policies, s.requests[r]);
  }

  // ---- A run without a package cache ----

  function WithoutPackages(stored: set<Obtained>): set<Obtained> {
    set o | o in stored && o.target.Artifact?
  }

  /** A package does not remember that its list was cached. */
  function Uncached(c: Record): Record {
    if c.request.PackageRequest? && c.origin.FromCache? then c.(origin := OwnScan) else c
  }

  function UncachedAll(requests: map<ReqId, Record>): map<ReqId, Record> {
    map r | r in requests :: Uncached(requests[r])
  }

  /** The state of the proxy that never caches packages: all the rest is the same. */
  function Forget(s: State): State {
    s.(stored := WithoutPackages(s.stored), requests := UncachedAll(s.requests))
  }

  predicate PackageHit(cfg: Config, s: State, l: Label)
    requires Enabled(cfg, s, l)
  {
    l.CacheGet? && l.hit.Some? && OfPackage(cfg, s, l)
  }

  /** The same step, without reading or writing a package in the cache. */
  function Bypass(cfg: Config, s: State, l: Label): Label
    requires Enabled(cfg, s, l)
  {
    if l.CachePut? && OfPackage(cfg, s, l) then CachePut(l.r, true) else l
  }

  /** What the proxy without a package cache does instead: a hit becomes a miss, a query and a write
      that is dropped. */
  function Instead(cfg: Config, src: Source, s: State, l: Label): seq<Label>
    requires Enabled(cfg, s, l)
  {
    if PackageHit(cfg, s, l) then
      [CacheGet(l.r, None), SourceAnswers(l.r, src(s.requests[l.r].phase.target)), CachePut(l.r, true)]
    else [Bypass(cfg, s, l)]
  }

  ghost function FreshLabels(cfg: Config, src: Source, s: State, labels: seq<Label>): seq<Label>
    requires Follows(cfg, src, s, labels)
    decreases |labels|
  {
    if labels == [] then []
    else Instead(cfg, src, s, labels[0]) + FreshLabels(cfg, src, Step(cfg, s, labels[0]), labels[1..])
  }

  /** The step reads no package from the cache and writes none to it. */
  predicate Uncaching(cfg: Config, s: State, l: Label)
    requires Enabled(cfg, s, l)
  {
    OfPackage(cfg, s, l) ==> (l.CacheGet? ==> l.hit.None?) && (l.CachePut? ==> l.error)
  }

  ghost predicate NeverCaches(cfg: Config, src: Source, s: State, labels: seq<Label>)
    requires Follows(cfg, src, s, labels)
    decreases |labels|
  {
    labels == [] || (Uncaching(cfg, s, labels[0]) && NeverCaches(cfg, src, Step(cfg, s, labels[0]), labels[1..]))
  }

  lemma UncachedUpdate(requests: map<ReqId, Record>, r: ReqId, c: Record)
    ensures UncachedAll(requests[r := c]) == UncachedAll(requests)[r := Uncached(c)]
  {
  }

  predicate SameKind(l: Label, m: Label) {
    l == m || (l.CachePut? && m == CachePut(l.r, true))
  }

  lemma SameEvent(c: Record, p: ActivePolicy, now: int)
    requires c.phase.Judging?
    ensures JudgedEvent(Uncached(c), p, now) == JudgedEvent(c, p, now)
  {
  }

  lemma SameVerdict(c: Record, e: Event)
    requires c.request.PackageRequest? && c.phase.Judging? && e.Judged?
    ensures ApplyVerdict(Uncached(c), e) == Uncached(ApplyVerdict(c, e))
  {
  }

  lemma SameSource(cfg: Config, c: Record, source: SourceResult)
    requires c.request.PackageRequest? && c.phase.Querying?
    ensures SourceRecord(cfg, Uncached(c), source) == Uncached(SourceRecord(cfg, c, source))
  {
  }

  lemma SameBlocking(cfg: Config, c: Record, l: Label, p: ActivePolicy)
    requires c.request.PackageRequest? && Awaits(cfg, c, l) && Blocking(l)
    ensures Awaits(cfg, Uncached(c), l) && Advance(cfg, Uncached(c), l, p) == Uncached(Advance(cfg, c, l, p))
  {
  }

  /** The phases a package passes through. */
  predicate PackagePhase(phase: Phase) {
    || phase.Arrived? || phase.Lookup? || phase.Querying? || phase.Caching? || phase.Judging?
    || phase.Verifying? || phase.Reporting? || phase.Recording? || phase.Notifying? || phase.Answered?
  }

  /** Where a package's list came from makes no difference to what happens next. */
  lemma SameAdvance(cfg: Config, c: Record, l: Label, m: Label, p: ActivePolicy)
    requires c.request.PackageRequest? && PackagePhase(c.phase) && Awaits(cfg, c, l)
    requires SameKind(l, m) && (l.CacheGet? ==> l.hit.None?)
    ensures Awaits(cfg, Uncached(c), m) && Advance(cfg, Uncached(c), m, p) == Uncached(Advance(cfg, c, l, p))
  {
    if Blocking(l) {
      SameBlocking(cfg, c, l, p);
    } else {
      match l
      case Dispatch(_) =>
      case CacheGet(_, _) =>
      case SourceAnswers(_, source) => SameSource(cfg, c, source);
      case CachePut(_, _) =>
      case Judge(_, now) =>
        SameEvent(c, p, now);
        SameVerdict(c, JudgedEvent(c, p, now));
      case _ =>
    }
  }

  lemma SameRecord(cfg: Config, s: State, l: Label, m: Label, u: State)
    requires Enabled(cfg, s, l) && OfRequest(l) && !PackageHit(cfg, s, l) && m == Bypass(cfg, s, l) && u == Forget(s)
    requires l.CacheGet? && l.hit.Some? ==> l.hit.value.target.Artifact?
    requires OfPackage(cfg, s, l) ==> PackagePhase(s.requests[l.r].phase)
    ensures Enabled(cfg, u, m) && OfRequest(m) && m.r == l.r
    ensures NextRecord(cfg, u, m) == Uncached(NextRecord(cfg, s, l))
  {
    if !l.Arrive? {
      var c := s.requests[l.r];
      assert u.requests[l.r] == Uncached(c);
      if c.request.PackageRequest? {
        SameAdvance(cfg, c, l, m, s.policy);
      } else {
        RequestKept(cfg, c, l, s.policy);
      }
    }
  }

  lemma PhasesOfPackages(cfg: Config, src: Source, s: State, l: Label)
    requires Faithful(cfg, src, s) && Enabled(cfg, s, l)
    ensures OfPackage(cfg, s, l) ==> PackagePhase(s.requests[l.r].phase)
  {
    if OfPackage(cfg, s, l) {
      var c := s.requests[l.r];
      assert PackageOk(cfg, src, s.policies, c);
      if !Pending(c.phase) {
        var g, now :| RuledAt(cfg, src, s.policies, c, g, now);
      }
    }
  }

  lemma SameRequests(cfg: Config, s: State, l: Label, m: Label, u: State)
    requires Enabled(cfg, s, l) && !PackageHit(cfg, s, l) && m == Bypass(cfg, s, l) && u == Forget(s)
    requires l.CacheGet? && l.hit.Some? ==> l.hit.value.target.Artifact?
    requires OfPackage(cfg, s, l) ==> PackagePhase(s.requests[l.r].phase)
    ensures Enabled(cfg, u, m) && NextRequests(cfg, u, m) == UncachedAll(NextRequests(cfg, s, l))
  {
    if OfRequest(l) {
      SameRecord(cfg, s, l, m, u);
      UncachedUpdate(s.requests, l.r, NextRecord(cfg, s, l));
    }
  }

  lemma SameStored(cfg: Config, s: State, l: Label, m: Label, u: State)
    requires Enabled(cfg, s, l) && m == Bypass(cfg, s, l) && u == Forget(s) && Enabled(cfg, u, m)
    requires l.CachePut? ==> (s.requests[l.r].request.PackageRequest? <==> s.requests[l.r].phase.target.Package?)
    ensures NextStored(cfg, u, m) == WithoutPackages(NextStored(cfg, s, l))
  {
  }

  lemma PutKind(cfg: Config, s: State, l: Label)
    requires SafetyInvariant(cfg, s) && Enabled(cfg, s, l) && l.CachePut?
    ensures s.requests[l.r].request.PackageRequest? <==> s.requests[l.r].phase.target.Package?
  {
    assert RecordOk(KnownIn(cfg, s), s.requests[l.r]);
  }

  lemma SameDecisions(cfg: Config, s: State, l: Label, m: Label, u: State)
    requires Enabled(cfg, s, l) && m == Bypass(cfg, s, l) && u == Forget(s) && Enabled(cfg, u, m)
    ensures NextDecisions(cfg, u, m) == NextDecisions(cfg, s, l)
  {
    if l.Judge? {
      SameEvent(s.requests[l.r], s.policy, l.now);
    }
  }

  lemma SameRest(cfg: Config, s: State, l: Label, m: Label, u: State)
    requires Enabled(cfg, s, l) && m == Bypass(cfg, s, l) && u == Forget(s) && Enabled(cfg, u, m)
    ensures NextAvailable(u, m) == NextAvailable(s, l)
    ensures NextReports(cfg, u, m) == NextReports(cfg, s, l) && NextNotified(cfg, u, m) == NextNotified(cfg, s, l)
  {
  }

  lemma SameScanned(cfg: Config, s: State, l: Label, m: Label, u: State)
    requires Enabled(cfg, s, l) && m == Bypass(cfg, s, l) && u == Forget(s) && Enabled(cfg, u, m)
    ensures NextScanned(cfg, u, m) == NextScanned(cfg, s, l)
  {
  }

  lemma SameAnswers(cfg: Config, src: Source, s: State, l: Label, m: Label, u: State)
    requires Enabled(cfg, s, l) && !PackageHit(cfg, s, l) && AnswersFrom(cfg, src, s, l)
    requires m == Bypass(cfg, s, l) && u == Forget(s) && Enabled(cfg, u, m)
    ensures AnswersFrom(cfg, src, u, m) && Uncaching(cfg, u, m)
  {
  }

  /** The lists, reports, decisions, notifications and permits after a step. */
  lemma SameLedgers(cfg: Config, s: State, l: Label, m: Label, u: State)
    requires Enabled(cfg, s, l) && m == Bypass(cfg, s, l) && u == Forget(s) && Enabled(cfg, u, m)
    ensures NextAvailable(u, m) == NextAvailable(s, l) && NextScanned(cfg, u, m) == NextScanned(cfg, s, l)
    ensures NextReports(cfg, u, m) == NextReports(cfg, s, l) && NextNotified(cfg, u, m) == NextNotified(cfg, s, l)
    ensures NextDecisions(cfg, u, m) == NextDecisions(cfg, s, l)
  {
    SameDecisions(cfg, s, l, m, u);
    SameScanned(cfg, s, l, m, u);
    SameRest(cfg, s, l, m, u);
  }

  lemma SameStep(cfg: Config, s: State, l: Label, m: Label, u: State)
    requires Enabled(cfg, s, l) && !PackageHit(cfg, s, l) && m == Bypass(cfg, s, l) && u == Forget(s)
    requires l.CacheGet? && l.hit.Some? ==> l.hit.value.target.Artifact?
    requires l.CachePut? ==> (s.requests[l.r].request.PackageRequest? <==> s.requests[l.r].phase.target.Package?)
    requires OfPackage(cfg, s, l) ==> PackagePhase(s.requests[l.r].phase)
    ensures Enabled(cfg, u, m) && Step(cfg, u, m) == Forget(Step(cfg, s, l))
  {
    SameRequests(cfg, s, l, m, u);
    SameStored(cfg, s, l, m, u);
    SameLedgers(cfg, s, l, m, u);
  }

  /** A step that is no hit is matched by one step. */
  lemma MatchedByOne(cfg: Config, src: Source, s: State, l: Label, m: Label, u: State)
    requires Faithful(cfg, src, s) && Enabled(cfg, s, l) && AnswersFrom(cfg, src, s, l) && !PackageHit(cfg, s, l)
    requires m == Bypass(cfg, s, l) && u == Forget(s)
    ensures Follows(cfg, src, u, [m]) && NeverCaches(cfg, src, u, [m])
    ensures Run(cfg, src, u, [m]) == Forget(Step(cfg, s, l))
  {
    PhasesOfPackages(cfg, src, s, l);
    if l.CacheGet? && l.hit.Some? {
      HitKind(cfg, s, l);
    }
    if l.CachePut? {
      PutKind(cfg, s, l);
    }
    hide Step, Enabled, Bypass, Follows, NeverCaches, Run, AnswersFrom, Uncaching;
    SameStep(cfg, s, l, m, u);
    SameAnswers(cfg, src, s, l, m, u);
    RunOfOne(cfg, src, u, m);
  }

  predicate LooksUp(u: State, r: ReqId, key: CacheKey, target: ScanTarget) {
    r in u.requests && u.requests[r].request.PackageRequest? && u.requests[r].phase == Lookup(key, target)
  }

  function Put(u: State, r: ReqId, c: Record): State {
    u.(requests := u.requests[r := c])
  }

  /** The package's record with its own list at hand. */
  function Asked(c: Record, key: CacheKey, target: ScanTarget, list: Scan, phase: Phase): Record {
    c.(log := c.log + [Got(key, target, list)], origin := OwnScan, phase := phase)
  }

  lemma MissStep(cfg: Config, u: State, r: ReqId, key: CacheKey, target: ScanTarget)
    requires LooksUp(u, r, key, target)
    ensures Enabled(cfg, u, CacheGet(r, None))
    ensures Step(cfg, u, CacheGet(r, None)) == Put(u, r, u.requests[r].(phase := Querying(key, target)))
  {
  }

  lemma QueryStep(cfg: Config, u: State, r: ReqId, key: CacheKey, target: ScanTarget, list: Scan)
    requires r in u.requests && u.requests[r].phase == Querying(key, target) && Obtained(key, target, list) in u.scanned
    ensures Enabled(cfg, u, SourceAnswers(r, Found(list)))
    ensures Step(cfg, u, SourceAnswers(r, Found(list)))
            == Put(u, r, Asked(u.requests[r], key, target, list, Caching(key, target, list)))
  {
    assert u.scanned + {Obtained(key, target, list)} == u.scanned;
  }

  lemma DropStep(cfg: Config, u: State, r: ReqId, key: CacheKey, target: ScanTarget, list: Scan)
    requires r in u.requests && u.requests[r].phase == Caching(key, target, list)
    ensures Enabled(cfg, u, CachePut(r, true))
    ensures Step(cfg, u, CachePut(r, true)) == Put(u, r, u.requests[r].(phase := Judging(key, target, list)))
  {
  }

  lemma RunOfCons(cfg: Config, src: Source, s: State, l: Label, rest: seq<Label>)
    requires Enabled(cfg, s, l) && AnswersFrom(cfg, src, s, l) && Uncaching(cfg, s, l)
    requires Follows(cfg, src, Step(cfg, s, l), rest) && NeverCaches(cfg, src, Step(cfg, s, l), rest)
    ensures Follows(cfg, src, s, [l] + rest) && NeverCaches(cfg, src, s, [l] + rest)
    ensures Run(cfg, src, s, [l] + rest) == Run(cfg, src, Step(cfg, s, l), rest)
  {
    assert ([l] + rest)[1..] == rest;
  }

  lemma RunOfOne(cfg: Config, src: Source, s: State, l: Label)
    requires Enabled(cfg, s, l) && AnswersFrom(cfg, src, s, l) && Uncaching(cfg, s, l)
    ensures Follows(cfg, src, s, [l]) && NeverCaches(cfg, src, s, [l]) && Run(cfg, src, s, [l]) == Step(cfg, s, l)
  {
    assert [l][1..] == [];
  }

  /** Asking the source and dropping the write. */
  lemma TwoSteps(cfg: Config, src: Source, u: State, r: ReqId, key: CacheKey, target: ScanTarget, list: Scan)
    requires r in u.requests && u.requests[r].phase == Querying(key, target)
    requires Obtained(key, target, list) in u.scanned && src(target) == Found(list)
    ensures var m := [SourceAnswers(r, Found(list)), CachePut(r, true)];
            && Follows(cfg, src, u, m) && NeverCaches(cfg, src, u, m)
            && Run(cfg, src, u, m) == Put(u, r, Asked(u.requests[r], key, target, list, Judging(key, target, list)))
  {
    var m1, m2 := SourceAnswers(r, Found(list)), CachePut(r, true);
    QueryStep(cfg, u, r, key, target, list);
    var u' := Step(cfg, u, m1);
    DropStep(cfg, u', r, key, target, list);
    RunOfOne(cfg, src, u', m2);
    RunOfCons(cfg, src, u, m1, [m2]);
    assert [m1] + [m2] == [m1, m2];
  }

  /** Missing, asking the source and dropping the write leaves the request about to be judged. */
  lemma ThreeSteps(cfg: Config, src: Source, u: State, r: ReqId, key: CacheKey, target: ScanTarget, list: Scan)
    requires LooksUp(u, r, key, target) && Obtained(key, target, list) in u.scanned && src(target) == Found(list)
    ensures var m := [CacheGet(r, None), SourceAnswers(r, Found(list)), CachePut(r, true)];
            && Follows(cfg, src, u, m) && NeverCaches(cfg, src, u, m)
            && Run(cfg, src, u, m) == Put(u, r, Asked(u.requests[r], key, target, list, Judging(key, target, list)))
  {
    var m0, rest := CacheGet(r, None), [SourceAnswers(r, Found(list)), CachePut(r, true)];
    MissStep(cfg, u, r, key, target);
    TwoSteps(cfg, src, Step(cfg, u, m0), r, key, target, list);
    RunOfCons(cfg, src, u, m0, rest);
    assert [m0] + rest == [CacheGet(r, None), SourceAnswers(r, Found(list)), CachePut(r, true)];
  }

  lemma HitStep(cfg: Config, s: State, l: Label)
    requires Enabled(cfg, s, l) && PackageHit(cfg, s, l)
    ensures var c := s.requests[l.r];
            var (k, t, list) := (c.phase.key, c.phase.target, l.hit.value.list);
            Forget(Step(cfg, s, l)) == Put(Forget(s), l.r, Asked(Uncached(c), k, t, list, Judging(k, t, list)))
  {
    UncachedUpdate(s.requests, l.r, NextRecord(cfg, s, l));
  }

  /** A hit is matched by three. */
  lemma MatchedByThree(cfg: Config, src: Source, s: State, l: Label)
    requires Faithful(cfg, src, s) && Enabled(cfg, s, l) && PackageHit(cfg, s, l)
    ensures Follows(cfg, src, Forget(s), Instead(cfg, src, s, l))
    ensures NeverCaches(cfg, src, Forget(s), Instead(cfg, src, s, l))
    ensures Run(cfg, src, Forget(s), Instead(cfg, src, s, l)) == Forget(Step(cfg, s, l))
  {
    var c := s.requests[l.r];
    HitKind(cfg, s, l);
    HitStep(cfg, s, l);
    assert l.hit.value == Obtained(c.phase.key, c.phase.target, l.hit.value.list);
    ThreeSteps(cfg, src, Forget(s), l.r, c.phase.key, c.phase.target, l.hit.value.list);
  }

  lemma Matched(cfg: Config, src: Source, s: State, l: Label)
    requires Faithful(cfg, src, s) && Enabled(cfg, s, l) && AnswersFrom(cfg, src, s, l)
    ensures Follows(cfg, src, Forget(s), Instead(cfg, src, s, l))
    ensures NeverCaches(cfg, src, Forget(s), Instead(cfg, src, s, l))
    ensures Run(cfg, src, Forget(s), Instead(cfg, src, s, l)) == Forget(Step(cfg, s, l))
  {
    if PackageHit(cfg, s, l) {
      MatchedByThree(cfg, src, s, l);
    } else {
      MatchedByOne(cfg, src, s, l, Bypass(cfg, s, l), Forget(s));
    }
  }

  lemma {:induction false} FollowsConcat(cfg: Config, src: Source, s: State, a: seq<Label>, b: seq<Label>)
    requires Follows(cfg, src, s, a) && Follows(cfg, src, Run(cfg, src, s, a), b)
    requires NeverCaches(cfg, src, s, a) && NeverCaches(cfg, src, Run(cfg, src, s, a), b)
    ensures Follows(cfg, src, s, a + b) && Run(cfg, src, s, a + b) == Run(cfg, src, Run(cfg, src, s, a), b)
    ensures NeverCaches(cfg, src, s, a + b)
    decreases |a|
  {
    if a == [] {
      assert a + b == b;
    } else {
      hide Enabled, Step, AnswersFrom, Uncaching;
      assert (a + b)[0] == a[0] && (a + b)[1..] == a[1..] + b;
      FollowsConcat(cfg, src, Step(cfg, s, a[0]), a[1..], b);
    }
  }

  /** Every run is matched by a run of a proxy that never reads or writes a package in the cache, and
      the two end in the same state: the same answers, verdicts, reports, decisions, notifications and
      permits for every request. */
  lemma {:induction false} RunsMatch(cfg: Config, src: Source, s: State, labels: seq<Label>)
    requires Faithful(cfg, src, s) && Follows(cfg, src, s, labels)
    ensures var direct := FreshLabels(cfg, src, s, labels);
            && Follows(cfg, src, Forget(s), direct) && NeverCaches(cfg, src, Forget(s), direct)
            && Run(cfg, src, Forget(s), direct) == Forget(Run(cfg, src, s, labels))
    decreases |labels|
  {
    if labels != [] {
      hide Step, Enabled, Faithful, Instead, Forget, NeverCaches;
      var l, rest, next := labels[0], labels[1..], Step(cfg, s, labels[0]);
      FaithfulStep(cfg, src, s, l);
      Matched(cfg, src, s, l);
      RunsMatch(cfg, src, next, rest);
      FollowsConcat(cfg, src, Forget(s), Instead(cfg, src, s, l), FreshLabels(cfg, src, next, rest));
    }
  }

  lemma CacheIsInvisible(cfg: Config, src: Source, ps: PolicySet, labels: seq<Label>)
    requires Follows(cfg, src, Initial(cfg, ps), labels)
    ensures exists direct ::
              && Follows(cfg, src, Initial(cfg, ps), direct) && NeverCaches(cfg, src, Initial(cfg, ps), direct)
              && Run(cfg, src, Initial(cfg, ps), direct) == Forget(Run(cfg, src, Initial(cfg, ps), labels))
  {
    hide Step, Enabled, Follows, NeverCaches, Run, FreshLabels;
    RunsMatch(cfg, src, Initial(cfg, ps), labels);
    assert Forget(Initial(cfg, ps)) == Initial(cfg, ps);
  }
}
