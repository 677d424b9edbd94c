/** What every run of the gateway keeps about verdicts: releases and refusals are justified. */
module GatewayLaws {
  import opened Text
  import opened Targets
  import opened Policy
  import opened Evaluator
  import opened Gateway
  import Docker

  // ---- What one request's history must satisfy ----

  /** What the histories of requests are judged against: the configuration, every policy set ever
      installed and every list ever obtained. */
  datatype Known = Known(cfg: Config, policies: seq<PolicySet>, scanned: set<Obtained>)

  function KnownIn(cfg: Config, s: State): Known {
    Known(cfg, s.policies, s.scanned)
  }

  /** The target and key belong to the request. */
  predicate Owns(q: Request, key: CacheKey, target: ScanTarget) {
    match q
    case PackageRequest(_, t) => target == t && key == KeyForTarget(t)
    case ArtifactRequest(repository, t, path, _, _, _) =>
      t.Artifact? && target == t && key == ArtifactKey(repository.name, t, path)
    case ManifestRequest(repository, image, _, _) =>
      target.Artifact? && target.digest.Some? && target == DockerDigestTarget(image, target.digest.value)
      && key == DockerKey(repository.name, image, target.digest.value)
  }

  /** The explicit pass-throughs, and the requests each is for. */
  ghost predicate Genuine(q: Request, why: PassReason) {
    match why
    case HeadOfArtifact => q.ArtifactRequest? && q.head
    case ImageIndex(fetch) => q.ManifestRequest? && fetch.Fetched? && Docker.IndexType(fetch.contentType)
    case Attestation(fetch) =>
      q.ManifestRequest? && fetch.Fetched? && Docker.ImageType(fetch.contentType) && fetch.attestation
    case NoDockerScanner => q.ManifestRequest? && !q.scannerMapped
  }

  /** Neither the header nor the reference is a digest. */
  ghost predicate NoDigest(header: Option<string>, reference: string) {
    !Docker.IsDigest(reference) && (header.Some? ==> !Docker.IsDigest(Trim(header.value)))
  }

  /** The scans that can fail, by kind of request. A fetched manifest fails only if its media type is
      neither an image's nor a list's, or no digest can be read. */
  ghost predicate RealFailure(q: Request, cause: FailReason) {
    match cause
    case ManifestFailed(FetchError) => q.ManifestRequest?
    case ManifestFailed(FetchedOther) => false
    case ManifestFailed(Fetched(_, contentType, _, digestHeader)) =>
      && q.ManifestRequest?
      && !Docker.IndexType(contentType)
      && (!Docker.ImageType(contentType) || NoDigest(digestHeader, q.reference))
    case SourceFailed => q.PackageRequest?
    case NoPermit => !q.PackageRequest?
    case PrefetchFailed => q.ArtifactRequest?
    case ScannerFailed => !q.PackageRequest?
  }

  predicate ReallyUnsupported(q: Request, reason: UnsupportedReason) {
    match reason
    case NoScanner => q.ArtifactRequest? && !q.scannerMapped
    case RangeRequested => q.ArtifactRequest? && q.range && !q.head
    case NotInSource => q.PackageRequest?
    case Oversized => q.ArtifactRequest?
  }

  /** One installed policy set gave both the context and the verdict. */
  ghost predicate FairVerdict(policies: seq<PolicySet>, q: Request, e: Event)
    requires e.Judged?
  {
    && 1 <= e.generation <= |policies|
    && var ps := policies[e.generation - 1];
       e.verdict == VerdictUnder(ps, ps, q.repository, e.target, e.list, e.now)
  }

  predicate Gives(o: Obtained, key: CacheKey, list: Scan) {
    o.key == key && o.list == list
  }

  ghost predicate ListFor(scanned: set<Obtained>, key: CacheKey, list: Scan) {
    exists o :: o in scanned && Gives(o, key, list)
  }

  ghost predicate EventOk(w: Known, q: Request, log: seq<Event>, e: Event) {
    match e
    case Got(key, target, list) => Owns(q, key, target) && ListFor(w.scanned, key, list)
    case Judged(_, key, target, list, _, _) => FairVerdict(w.policies, q, e) && Got(key, target, list) in log
    case PassedThrough(why) => Genuine(q, why)
    case ScanFailure(cause) => RealFailure(q, cause)
    case Unsupported(reason) => ReallyUnsupported(q, reason)
  }

  ghost predicate LogOk(w: Known, q: Request, log: seq<Event>) {
    forall e :: e in log ==> EventOk(w, q, log, e)
  }

  ghost predicate NotJudged(log: seq<Event>) {
    forall e :: e in log ==> !e.Judged?
  }

  ghost predicate NeverBlocked(log: seq<Event>) {
    forall e :: e in log && e.Judged? ==> !e.verdict.Blocked?
  }

  ghost predicate JudgedFavourably(log: seq<Event>) {
    exists e :: e in log && e.Judged? && !e.verdict.Blocked?
  }

  ghost predicate PassedThroughLog(log: seq<Event>) {
    exists e :: e in log && e.PassedThrough?
  }

  ghost predicate FailedLog(log: seq<Event>) {
    exists e :: e in log && e.ScanFailure?
  }

  ghost predicate UnsupportedLog(log: seq<Event>) {
    exists e :: e in log && e.Unsupported?
  }

  /** The reasons for which a request may be let through. */
  ghost predicate Justified(cfg: Config, log: seq<Event>) {
    || JudgedFavourably(log)
    || (cfg.failOpen && FailedLog(log))
    || (cfg.allowUnsupported && UnsupportedLog(log))
    || PassedThroughLog(log)
  }

  /** The grounds on which a request may be refused with this report: it is the report of the request's
      own Blocked verdict, or the report about its own unsupported target. */
  ghost predicate Grounds(cfg: Config, q: Request, log: seq<Event>, block: BlockReport) {
    || (exists e :: e in log && e.Judged? && e.verdict == Blocked(block))
    || (!cfg.allowUnsupported && UnsupportedLog(log) && !q.ManifestRequest?
        && block == BlockReport(q.target, None, [], []))
  }

  ghost predicate AnswerOk(cfg: Config, q: Request, a: Response, log: seq<Event>) {
    && (LetThrough(a) ==> Justified(cfg, log) && NeverBlocked(log))
    && (a.Forbidden? ==> Grounds(cfg, q, log, a.block))
  }

  ghost predicate PhaseOk(cfg: Config, q: Request, phase: Phase, log: seq<Event>) {
    match phase
    case Arrived => NotJudged(log)
    case Fetching => NotJudged(log)
    case Lookup(k, t) => Owns(q, k, t) && NotJudged(log)
    case Querying(k, t) => q.PackageRequest? && Owns(q, k, t) && NotJudged(log)
    case AwaitingPermit(k, t) => !q.PackageRequest? && Owns(q, k, t) && NotJudged(log)
    case Prefetching(k, t) => q.ArtifactRequest? && Owns(q, k, t) && NotJudged(log)
    case Scanning(k, t) => !q.PackageRequest? && Owns(q, k, t) && NotJudged(log)
    case Scanned(k, t, list) => Owns(q, k, t) && Got(k, t, list) in log && NotJudged(log)
    case Caching(k, t, list) => Owns(q, k, t) && Got(k, t, list) in log && NotJudged(log)
    case Judging(k, t, list) => Owns(q, k, t) && Got(k, t, list) in log && NotJudged(log)
    case Verifying(block) => Grounds(cfg, q, log, block)
    case Reporting(block) => Grounds(cfg, q, log, block)
    case Recording(block, _) => Grounds(cfg, q, log, block)
    case Notifying(block, _) => Grounds(cfg, q, log, block)
    case Answered(a) => AnswerOk(cfg, q, a, log)
  }

  predicate HoldsPermit(phase: Phase) {
    phase.Prefetching? || phase.Scanning? || phase.Scanned?
  }

  /** What is about to be put into the cache was obtained for this very target. */
  predicate PutOk(scanned: set<Obtained>, phase: Phase) {
    phase.Scanned? || phase.Caching? ==> Obtained(phase.key, phase.target, phase.list) in scanned
  }

  ghost predicate RecordOk(w: Known, c: Record) {
    && WellFormed(w.cfg, c.request)
    && LogOk(w, c.request, c.log)
    && PhaseOk(w.cfg, c.request, c.phase, c.log)
    && PutOk(w.scanned, c.phase)
    && c.permit == HoldsPermit(c.phase)
  }

  // ---- Growing a history ----

  lemma LogGrows(w: Known, q: Request, log: seq<Event>, e: Event)
    requires LogOk(w, q, log) && EventOk(w, q, log + [e], e)
    ensures LogOk(w, q, log + [e])
    ensures e in log + [e] && forall d :: d in log ==> d in log + [e]
    ensures NotJudged(log) && !e.Judged? ==> NotJudged(log + [e])
    ensures NotJudged(log) ==> NeverBlocked(log)
    ensures NotJudged(log) && (e.Judged? ==> !e.verdict.Blocked?) ==> NeverBlocked(log + [e])
  {
    forall d | d in log + [e]
      ensures EventOk(w, q, log + [e], d)
    {
      if d in log {
        assert EventOk(w, q, log, d);
      }
    }
  }

  ghost predicate Knows(w: Known, more: Known) {
    w.cfg == more.cfg && w.policies <= more.policies && w.scanned <= more.scanned
  }

  lemma LogOkMonotone(w: Known, more: Known, q: Request, log: seq<Event>)
    requires LogOk(w, q, log) && Knows(w, more)
    ensures LogOk(more, q, log)
  {
    forall e | e in log
      ensures EventOk(more, q, log, e)
    {
      assert EventOk(w, q, log, e);
    }
  }

  lemma FailOk(w: Known, c: Record, cause: FailReason, whenOpen: Response)
    requires LogOk(w, c.request, c.log) && NotJudged(c.log) && WellFormed(w.cfg, c.request) && !c.permit
    requires RealFailure(c.request, cause) && !whenOpen.Forbidden?
    ensures RecordOk(w, Fail(w.cfg, c, cause, whenOpen))
  {
    hide WellFormed, RealFailure;
    assert EventOk(w, c.request, c.log + [ScanFailure(cause)], ScanFailure(cause));
    LogGrows(w, c.request, c.log, ScanFailure(cause));
    assert FailedLog(c.log + [ScanFailure(cause)]);
  }

  lemma NotScannableOk(w: Known, c: Record, reason: UnsupportedReason, target: ScanTarget, whenAllowed: Response)
    requires LogOk(w, c.request, c.log) && NotJudged(c.log) && WellFormed(w.cfg, c.request) && !c.permit
    requires ReallyUnsupported(c.request, reason) && target == c.request.target && !whenAllowed.Forbidden?
    ensures RecordOk(w, NotScannable(w.cfg, c, reason, target, whenAllowed))
  {
    LogGrows(w, c.request, c.log, Unsupported(reason));
    assert UnsupportedLog(c.log + [Unsupported(reason)]);
  }

  lemma PassThroughOk(w: Known, c: Record, why: PassReason, a: Response)
    requires LogOk(w, c.request, c.log) && NotJudged(c.log) && WellFormed(w.cfg, c.request) && !c.permit
    requires Genuine(c.request, why) && !a.Forbidden?
    ensures RecordOk(w, PassThrough(c, why, a))
  {
    LogGrows(w, c.request, c.log, PassedThrough(why));
    assert PassedThroughLog(c.log + [PassedThrough(why)]);
  }

  // ---- Each kind of step, on the request that takes it ----

  lemma DispatchOk(w: Known, c: Record)
    requires RecordOk(w, c) && c.phase.Arrived?
    ensures RecordOk(w, DispatchRecord(w.cfg, c))
  {
    match c.request
    case PackageRequest(_, _) =>
    case ArtifactRequest(_, target, _, head, range, scannerMapped) =>
      if !scannerMapped {
        NotScannableOk(w, c, NoScanner, target, Forwarded);
      } else if head {
        PassThroughOk(w, c, HeadOfArtifact, Forwarded);
      } else if range {
        NotScannableOk(w, c, RangeRequested, target, Forwarded);
      }
    case ManifestRequest(_, _, _, scannerMapped) =>
      if !scannerMapped {
        PassThroughOk(w, c, NoDockerScanner, Forwarded);
      }
  }

  lemma FetchOk(w: Known, c: Record, fetch: ManifestFetch)
    requires RecordOk(w, c) && c.phase.Fetching? && c.request.ManifestRequest?
    ensures RecordOk(w, FetchRecord(w.cfg, c, fetch))
  {
    match fetch
    case FetchError => FailOk(w, c, ManifestFailed(fetch), Forwarded);
    case FetchedOther =>
    case Fetched(body, contentType, attestation, digestHeader) =>
      Docker.KindMeaning(contentType);
      Docker.ManifestDigestMeaning(digestHeader, c.request.reference, None);
      match Docker.ManifestKindOf(contentType)
      case Index => PassThroughOk(w, c, ImageIndex(fetch), ReleasedBody(body));
      case Unknown => FailOk(w, c, ManifestFailed(fetch), ReleasedBody(body));
      case Manifest =>
        if attestation {
          PassThroughOk(w, c, Attestation(fetch), ReleasedBody(body));
        } else if Docker.ManifestDigest(digestHeader, c.request.reference).None? {
          FailOk(w, c, ManifestFailed(fetch), ReleasedBody(body));
        }
  }

  lemma CacheGetOk(w: Known, c: Record, hit: Option<Obtained>)
    requires RecordOk(w, c) && c.phase.Lookup?
    requires hit.Some? ==> hit.value in w.scanned && hit.value.key == c.phase.key
    ensures RecordOk(w, CacheGetRecord(c, hit))
  {
    if hit.Some? {
      assert Gives(hit.value, c.phase.key, hit.value.list);
      LogGrows(w, c.request, c.log, Got(c.phase.key, c.phase.target, hit.value.list));
    }
  }

  /** A list of the request's own is on record. */
  lemma GotOk(w: Known, c: Record, list: Scan)
    requires LogOk(w, c.request, c.log) && NotJudged(c.log) && (c.phase.Querying? || c.phase.Scanning?)
    requires Owns(c.request, c.phase.key, c.phase.target) && Obtained(c.phase.key, c.phase.target, list) in w.scanned
    ensures var log := c.log + [Got(c.phase.key, c.phase.target, list)];
            LogOk(w, c.request, log) && NotJudged(log) && Got(c.phase.key, c.phase.target, list) in log
  {
    assert Gives(Obtained(c.phase.key, c.phase.target, list), c.phase.key, list);
    LogGrows(w, c.request, c.log, Got(c.phase.key, c.phase.target, list));
  }

  lemma SourceOk(w: Known, c: Record, source: SourceResult)
    requires RecordOk(w, c) && c.phase.Querying?
    requires source.Found? ==> Obtained(c.phase.key, c.phase.target, source.list) in w.scanned
    ensures RecordOk(w, SourceRecord(w.cfg, c, source))
  {
    match source
    case Found(list) => GotOk(w, c, list);
    case SourceUnsupported => NotScannableOk(w, c, NotInSource, c.phase.target, Forwarded);
    case SourceError => FailOk(w, c, SourceFailed, Forwarded);
  }

  lemma PrefetchOk(w: Known, c: Record, prefetch: PrefetchAnswer)
    requires RecordOk(w, c) && c.phase.Prefetching?
    ensures RecordOk(w, PrefetchRecord(w.cfg, c, prefetch))
  {
    var freed := c.(permit := false);
    match prefetch
    case NoResponse => FailOk(w, freed, PrefetchFailed, Forwarded);
    case OtherStatus =>
    case Buffering(result, usable) =>
      match result
      case Complete(_, _) =>
      case TooLarge(streamStarted) =>
        NotScannableOk(w, freed, Oversized, c.phase.target, if streamStarted || usable then Forwarded else Refused);
      case Overflow => FailOk(w, freed, PrefetchFailed, Forwarded);
      case Failed => FailOk(w, freed, PrefetchFailed, Forwarded);
  }

  lemma ScanOk(w: Known, c: Record, result: Option<Scan>)
    requires RecordOk(w, c) && c.phase.Scanning?
    requires result.Some? ==> Obtained(c.phase.key, c.phase.target, result.value) in w.scanned
    ensures RecordOk(w, ScanRecord(w.cfg, c, result))
  {
    match result
    case Some(list) => GotOk(w, c, list);
    case None => FailOk(w, c.(permit := false), ScannerFailed, ReleasedBody(c.buffer.Bytes()));
  }

  ghost predicate PolicyOk(p: ActivePolicy, policies: seq<PolicySet>) {
    && policies != [] && p.generation == |policies|
    && p.policySet == p.evaluatorSet == policies[|policies| - 1]
  }

  lemma JudgedFairly(policies: seq<PolicySet>, c: Record, p: ActivePolicy, now: int)
    requires c.phase.Judging? && PolicyOk(p, policies)
    ensures FairVerdict(policies, c.request, JudgedEvent(c, p, now))
  {
    var current := policies[|policies| - 1];
    assert p == ActivePolicy(current, current, |policies|);
  }

  lemma JudgeOk(w: Known, c: Record, e: Event)
    requires RecordOk(w, c) && c.phase.Judging? && e.Judged? && FairVerdict(w.policies, c.request, e)
    requires (e.key, e.target, e.list) == (c.phase.key, c.phase.target, c.phase.list)
    ensures RecordOk(w, ApplyVerdict(c, e))
  {
    LogGrows(w, c.request, c.log, e);
    if !e.verdict.Blocked? {
      assert JudgedFavourably(c.log + [e]);
    }
  }

  // ---- The whole state ----

  /** Every list was obtained for a target that some request owns under that key. */
  ghost predicate OwnedBySome(cfg: Config, o: Obtained) {
    exists q :: WellFormed(cfg, q) && Owns(q, o.key, o.target)
  }

  ghost predicate ScannedOk(w: Known) {
    forall o :: o in w.scanned ==> OwnedBySome(w.cfg, o)
  }

  ghost predicate RecordsOk(w: Known, requests: map<ReqId, Record>) {
    forall r :: r in requests ==> RecordOk(w, requests[r])
  }

  /** What every step needs and keeps about verdicts and lists. */
  ghost predicate SafetyInvariant(cfg: Config, s: State) {
    && PolicyOk(s.policy, s.policies)
    && s.stored <= s.scanned
    && ScannedOk(KnownIn(cfg, s))
    && RecordsOk(KnownIn(cfg, s), s.requests)
  }

  predicate Obtaining(l: Label) {
    l.Dispatch? || l.FetchAnswers? || l.CacheGet? || l.SourceAnswers? || l.PrefetchAnswers? || l.ScanAnswers?
  }

  /** The list a scan or the cache has just provided is on record. */
  predicate Provided(scanned: set<Obtained>, c: Record, l: Label)
    requires c.phase.Lookup? || c.phase.Querying? || c.phase.Scanning?
  {
    match l
    case CacheGet(_, Some(hit)) => hit in scanned
    case SourceAnswers(_, Found(list)) => Obtained(c.phase.key, c.phase.target, list) in scanned
    case ScanAnswers(_, Some(list)) => Obtained(c.phase.key, c.phase.target, list) in scanned
    case _ => true
  }

  /** The steps that look for a list. */
  lemma ObtainingOk(w: Known, c: Record, l: Label, p: ActivePolicy)
    requires RecordOk(w, c) && Awaits(w.cfg, c, l) && Obtaining(l)
    requires l.CacheGet? || l.SourceAnswers? || l.ScanAnswers? ==> Provided(w.scanned, c, l)
    ensures RecordOk(w, Advance(w.cfg, c, l, p))
  {
    match l
    case Dispatch(_) => DispatchOk(w, c);
    case FetchAnswers(_, fetch) => FetchOk(w, c, fetch);
    case CacheGet(_, hit) => CacheGetOk(w, c, hit);
    case SourceAnswers(_, source) => SourceOk(w, c, source);
    case PrefetchAnswers(_, prefetch) => PrefetchOk(w, c, prefetch);
    case ScanAnswers(_, result) => ScanOk(w, c, result);
  }

  predicate Blocking(l: Label) {
    l.VerifyAnswers? || l.ReportAnswers? || l.RecordDecision? || l.Notify?
  }

  lemma BlockingOk(w: Known, c: Record, l: Label, p: ActivePolicy)
    requires RecordOk(w, c) && Awaits(w.cfg, c, l) && Blocking(l)
    ensures RecordOk(w, Advance(w.cfg, c, l, p))
  {
    hide WellFormed, LogOk, Grounds, Justified, NeverBlocked;
  }

  /** The steps around the permit, the cache and the verdict. */
  lemma SettlingOk(w: Known, c: Record, l: Label, p: ActivePolicy)
    requires RecordOk(w, c) && Awaits(w.cfg, c, l) && !Obtaining(l) && !Blocking(l) && PolicyOk(p, w.policies)
    ensures RecordOk(w, Advance(w.cfg, c, l, p))
  {
    match l
    case AcquireFails(_) =>
      FailOk(w, c, NoPermit, if c.request.ManifestRequest? then ReleasedBody(c.buffer.Bytes()) else Forwarded);
    case Judge(_, now) =>
      JudgedFairly(w.policies, c, p, now);
      JudgeOk(w, c, JudgedEvent(c, p, now));
    case _ =>
  }

  lemma AdvanceOk(w: Known, c: Record, l: Label, p: ActivePolicy)
    requires RecordOk(w, c) && Awaits(w.cfg, c, l) && PolicyOk(p, w.policies)
    requires l.CacheGet? || l.SourceAnswers? || l.ScanAnswers? ==> Provided(w.scanned, c, l)
    ensures RecordOk(w, Advance(w.cfg, c, l, p))
  {
    if Obtaining(l) {
      ObtainingOk(w, c, l, p);
    } else if Blocking(l) {
      BlockingOk(w, c, l, p);
    } else {
      SettlingOk(w, c, l, p);
    }
  }

  lemma RecordMonotone(w: Known, more: Known, c: Record)
    requires RecordOk(w, c) && Knows(w, more)
    ensures RecordOk(more, c)
  {
    LogOkMonotone(w, more, c.request, c.log);
  }

  lemma NextRecordOk(cfg: Config, s: State, l: Label, w: Known)
    requires SafetyInvariant(cfg, s) && Enabled(cfg, s, l) && OfRequest(l)
    requires w == Known(cfg, s.policies, NextScanned(cfg, s, l))
    ensures RecordOk(w, NextRecord(cfg, s, l))
  {
    if !l.Arrive? {
      RecordMonotone(KnownIn(cfg, s), w, s.requests[l.r]);
      AdvanceOk(w, s.requests[l.r], l, s.policy);
    }
  }

  /** A step records only lists of targets that their request owns, and caches only recorded lists. */
  lemma ListsStep(cfg: Config, s: State, l: Label)
    requires SafetyInvariant(cfg, s) && Enabled(cfg, s, l)
    ensures s.scanned <= NextScanned(cfg, s, l) && NextStored(cfg, s, l) <= NextScanned(cfg, s, l)
    ensures ScannedOk(Known(cfg, s.policies, NextScanned(cfg, s, l)))
  {
    if l.CachePut? || l.SourceAnswers? || l.ScanAnswers? {
      var c := s.requests[l.r];
      assert RecordOk(KnownIn(cfg, s), c);
      assert WellFormed(cfg, c.request) && Owns(c.request, c.phase.key, c.phase.target);
    }
  }

  lemma OthersOk(w: Known, more: Known, requests: map<ReqId, Record>)
    requires RecordsOk(w, requests) && Knows(w, more)
    ensures RecordsOk(more, requests)
  {
    forall r | r in requests
      ensures RecordOk(more, requests[r])
    {
      RecordMonotone(w, more, requests[r]);
    }
  }

  lemma SafetyStep(cfg: Config, s: State, l: Label)
    requires SafetyInvariant(cfg, s) && Enabled(cfg, s, l)
    ensures SafetyInvariant(cfg, Step(cfg, s, l))
  {
    var s' := Step(cfg, s, l);
    ListsStep(cfg, s, l);
    OthersOk(KnownIn(cfg, s), KnownIn(cfg, s'), s.requests);
    if OfRequest(l) {
      NextRecordOk(cfg, s, l, KnownIn(cfg, s'));
    }
  }

  /** The step that leads from one state of a run to the next. */
  lemma RunStep(cfg: Config, ps: PolicySet, states: seq<State>, labels: seq<Label>, i: nat)
    requires IsRun(cfg, ps, states, labels) && i < |labels|
    ensures Enabled(cfg, states[i], labels[i]) && states[i + 1] == Step(cfg, states[i], labels[i])
  {
  }

  lemma {:induction false} SafetyHolds(cfg: Config, ps: PolicySet, states: seq<State>, labels: seq<Label>, i: nat)
    requires IsRun(cfg, ps, states, labels) && i < |states|
    ensures SafetyInvariant(cfg, states[i])
  {
    if i > 0 {
      SafetyHolds(cfg, ps, states, labels, i - 1);
      RunStep(cfg, ps, states, labels, i - 1);
      SafetyStep(cfg, states[i - 1], labels[i - 1]);
    }
  }

  // ---- Whose list was judged ----

  /** The one way in which a list scanned for another target can be found under a request's key: an
      image whose name continues the other's with `@`. */
  ghost predicate DockerClash(image: string, target: ScanTarget, other: ScanTarget) {
    exists image', digest' ::
      && other == DockerDigestTarget(image', digest') && target.Artifact? && target.digest.Some?
      && (Spills(image, target.digest.value, image', digest', '@')
          || Spills(image', digest', image, target.digest.value, '@'))
  }

  ghost predicate ScannedFor(q: Request, target: ScanTarget, other: ScanTarget) {
    other == target || (q.ManifestRequest? && DockerClash(q.image, target, other))
  }

  lemma ManifestOwners(q: Request, target: ScanTarget, q': Request, other: ScanTarget, key: CacheKey)
    requires q.ManifestRequest? && q'.ManifestRequest? && q.repository.name == q'.repository.name
    requires Owns(q, key, target) && Owns(q', key, other)
    ensures ScannedFor(q, target, other)
  {
    DockerKeyExactly(q.repository.name, q.image, target.digest.value, q'.image, other.digest.value);
    if other != target {
      assert other == DockerDigestTarget(q'.image, other.digest.value);
      assert DockerClash(q.image, target, other);
    }
  }

  /** Two requests that own one key mean one target: always for packages and artifacts, and for images
      unless their names clash. */
  lemma SameKeySameTarget(cfg: Config, q: Request, target: ScanTarget, q': Request, other: ScanTarget, key: CacheKey)
    requires WellFormed(cfg, q) && WellFormed(cfg, q') && Owns(q, key, target) && Owns(q', key, other)
    ensures ScannedFor(q, target, other)
  {
    match q
    case PackageRequest(_, _) => PackageKeyInjective(target, other);
    case ArtifactRequest(repository, _, path, _, _, _) =>
      ArtifactKeyInjective(repository.name, target, path, q'.repository.name, other, q'.path);
    case ManifestRequest(_, _, _, _) => ManifestOwners(q, target, q', other, key);
  }

  // ---- Release safety ----

  /** A list that was scanned for the request's own target was judged by one installed policy set, which
      gave both the context and the verdict. */
  ghost predicate JudgedByOnePolicy(s: State, q: Request, e: Event) {
    && e.Judged? && Owns(q, e.key, e.target) && FairVerdict(s.policies, q, e)
    && exists o :: o in s.scanned && Gives(o, e.key, e.list) && ScannedFor(q, e.target, o.target)
  }

  lemma VerdictsAreFair(cfg: Config, s: State, q: Request, log: seq<Event>, e: Event)
    requires WellFormed(cfg, q) && ScannedOk(KnownIn(cfg, s)) && LogOk(KnownIn(cfg, s), q, log) && e in log && e.Judged?
    ensures JudgedByOnePolicy(s, q, e)
  {
    var w := KnownIn(cfg, s);
    assert EventOk(w, q, log, e);
    assert EventOk(w, q, log, Got(e.key, e.target, e.list));
    var o :| o in s.scanned && Gives(o, e.key, e.list);
    assert OwnedBySome(cfg, o);
    var q' :| WellFormed(cfg, q') && Owns(q', o.key, o.target);
    SameKeySameTarget(cfg, q, e.target, q', o.target, e.key);
  }

  lemma OtherwiseGenuine(w: Known, q: Request, log: seq<Event>)
    requires LogOk(w, q, log)
    ensures FailedLog(log) ==> exists cause :: ScanFailure(cause) in log && RealFailure(q, cause)
    ensures UnsupportedLog(log) ==> exists reason :: Unsupported(reason) in log && ReallyUnsupported(q, reason)
    ensures PassedThroughLog(log) ==> exists why :: PassedThrough(why) in log && Genuine(q, why)
  {
    forall e | e in log
      ensures e.ScanFailure? ==> ScanFailure(e.cause) in log && RealFailure(q, e.cause)
      ensures e.Unsupported? ==> Unsupported(e.reason) in log && ReallyUnsupported(q, e.reason)
      ensures e.PassedThrough? ==> PassedThrough(e.why) in log && Genuine(q, e.why)
    {
      assert EventOk(w, q, log, e);
    }
  }

  ghost predicate ReleaseExplained(cfg: Config, s: State, c: Record) {
    || (exists e :: e in c.log && JudgedByOnePolicy(s, c.request, e) && !e.verdict.Blocked?)
    || (cfg.failOpen && exists cause :: ScanFailure(cause) in c.log && RealFailure(c.request, cause))
    || (cfg.allowUnsupported && exists reason :: Unsupported(reason) in c.log && ReallyUnsupported(c.request, reason))
    || (exists why :: PassedThrough(why) in c.log && Genuine(c.request, why))
  }

  lemma RecordExplained(cfg: Config, s: State, c: Record)
    requires RecordOk(KnownIn(cfg, s), c) && ScannedOk(KnownIn(cfg, s))
    requires c.phase.Answered? && LetThrough(c.phase.answer)
    ensures ReleaseExplained(cfg, s, c) && NeverBlocked(c.log)
  {
    hide WellFormed, LogOk, ScannedOk, JudgedByOnePolicy;
    if JudgedFavourably(c.log) {
      var e :| e in c.log && e.Judged? && !e.verdict.Blocked?;
      VerdictsAreFair(cfg, s, c.request, c.log, e);
    } else {
      OtherwiseGenuine(KnownIn(cfg, s), c.request, c.log);
    }
  }

  /** Over every interleaving of requests, reloads, cache answers and foreign outcomes: whatever is
      forwarded or released was judged favourably by one policy snapshot on a list scanned for its own
      target, or its scan failed under `fail_open`, or it was unsupported under Allow, or it is one of
      the explicit pass-throughs. And nothing that was ever judged Blocked is let through, under any
      configuration. */
  lemma ReleaseSafety(cfg: Config, ps: PolicySet, states: seq<State>, labels: seq<Label>, i: nat, r: ReqId)
    requires IsRun(cfg, ps, states, labels) && i < |states| && r in states[i].requests
    requires states[i].requests[r].phase.Answered? && LetThrough(states[i].requests[r].phase.answer)
    ensures ReleaseExplained(cfg, states[i], states[i].requests[r]) && NeverBlocked(states[i].requests[r].log)
  {
    SafetyHolds(cfg, ps, states, labels, i);
    hide RecordOk, ScannedOk, PolicyOk, ReleaseExplained;
    RecordExplained(cfg, states[i], states[i].requests[r]);
  }

  /** With `fail_open` off and unsupported targets blocked, packages and artifact bodies get out on a
      favourable verdict only; a manifest needs one too unless it is an image index, an attestation or
      no scanner is mapped. */
  lemma StrictReleaseSafety(cfg: Config, ps: PolicySet, states: seq<State>, labels: seq<Label>, i: nat, r: ReqId)
    requires IsRun(cfg, ps, states, labels) && i < |states| && r in states[i].requests
    requires !cfg.failOpen && !cfg.allowUnsupported
    requires states[i].requests[r].phase.Answered? && LetThrough(states[i].requests[r].phase.answer)
    ensures var c := states[i].requests[r];
            || (exists e :: e in c.log && JudgedByOnePolicy(states[i], c.request, e) && !e.verdict.Blocked?)
            || (c.request.ArtifactRequest? && c.request.head)
            || (c.request.ManifestRequest? && exists why :: PassedThrough(why) in c.log && Genuine(c.request, why))
  {
    ReleaseSafety(cfg, ps, states, labels, i, r);
  }

  // ---- Refusals ----

  /** The report is that of a Blocked verdict of one policy snapshot on the request's own list, or it is
      about the request's own unsupported target. */
  ghost predicate BlockExplained(cfg: Config, s: State, c: Record, block: BlockReport) {
    || (exists e :: e in c.log && JudgedByOnePolicy(s, c.request, e) && e.verdict == Blocked(block))
    || (&& !cfg.allowUnsupported && !c.request.ManifestRequest? && block == BlockReport(c.request.target, None, [], [])
        && exists reason :: Unsupported(reason) in c.log && ReallyUnsupported(c.request, reason))
  }

  lemma GroundsExplained(cfg: Config, s: State, c: Record, block: BlockReport)
    requires WellFormed(cfg, c.request) && LogOk(KnownIn(cfg, s), c.request, c.log) && ScannedOk(KnownIn(cfg, s))
    requires Grounds(cfg, c.request, c.log, block)
    ensures BlockExplained(cfg, s, c, block)
  {
    hide WellFormed, LogOk, ScannedOk, JudgedByOnePolicy;
    if e :| e in c.log && e.Judged? && e.verdict == Blocked(block) {
      VerdictsAreFair(cfg, s, c.request, c.log, e);
    } else {
      OtherwiseGenuine(KnownIn(cfg, s), c.request, c.log);
    }
  }

  /** The converse: a request is refused with a report only when one policy snapshot judged its own list
      Blocked, and then with the report of that verdict, or when it was unsupported and unsupported
      targets are blocked. */
  lemma ForbiddenExplained(cfg: Config, ps: PolicySet, states: seq<State>, labels: seq<Label>, i: nat, r: ReqId)
    requires IsRun(cfg, ps, states, labels) && i < |states| && r in states[i].requests
    requires states[i].requests[r].phase.Answered? && states[i].requests[r].phase.answer.Forbidden?
    ensures BlockExplained(cfg, states[i], states[i].requests[r], states[i].requests[r].phase.answer.block)
  {
    SafetyHolds(cfg, ps, states, labels, i);
    assert RecordOk(KnownIn(cfg, states[i]), states[i].requests[r]);
    GroundsExplained(cfg, states[i], states[i].requests[r], states[i].requests[r].phase.answer.block);
  }
}
