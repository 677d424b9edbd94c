/** Request authorisation as a transition system: many requests interleave with policy reloads, a scan
    cache that answers with any list ever put under the key, a shared scanner semaphore and the outcomes
    of foreign calls (crates/proxy/src/gateway.rs, scan.rs, docker.rs, state.rs). */
module Gateway {
  import opened Text
  import opened Targets
  import opened Policy
  import opened Evaluator
  import Docker
  import Prefetch

  type ReqId = nat
  type Scan = seq<Vulnerability>
  type Body = seq<Prefetch.byte>

  /** `dockerRepository` is the one repository that Docker requests are judged under. */
  datatype Config = Config(failOpen: bool, allowUnsupported: bool, concurrency: nat, dockerRepository: string)

  datatype Repository = Repository(name: string, format: string)

  /** A request that was classified as a scan target. `path` is the path and query of an artifact. */
  datatype Request =
    | PackageRequest(repository: Repository, target: ScanTarget)
    | ArtifactRequest(repository: Repository, target: ScanTarget, path: string, head: bool, range: bool,
                      scannerMapped: bool)
    | ManifestRequest(repository: Repository, image: string, reference: string, scannerMapped: bool)

  predicate WellFormed(cfg: Config, q: Request) {
    match q
    case PackageRequest(_, target) => IsOsvPackage(target)
    case ArtifactRequest(repository, target, path, _, _, _) =>
      IsPathArtifact(target, repository.format, path) && repository.format != "docker"
    case ManifestRequest(repository, _, _, _) => repository.name == cfg.dockerRepository
  }

  // ---- Results of foreign calls ----

  datatype ManifestFetch =
    | FetchError
    | FetchedOther
    | Fetched(body: Body, contentType: Option<string>, attestation: bool, digestHeader: Option<string>)

  datatype SourceResult = Found(list: Scan) | SourceUnsupported | SourceError

  /** Prefetching either gets no usable response, or one with another status, or runs the buffering
      loop. `usable` says whether an upstream response that was declared too large can be passed on. */
  datatype PrefetchAnswer = NoResponse | OtherStatus | Buffering(result: Prefetch.PrefetchResult, usable: bool)

  // ---- One request ----

  /** Fetched from Nexus and passed on unread, answered with buffered bytes, answered with Nexus' own
      non-200 status, refused without a report, or refused with a report and its link in the body. */
  datatype Response =
    | Forwarded
    | ReleasedBody(body: Body)
    | OtherUpstream
    | Refused
    | Forbidden(block: BlockReport, url: string)

  predicate LetThrough(a: Response) {
    a.Forwarded? || a.ReleasedBody?
  }

  datatype Phase =
    | Arrived
    | Fetching
    | Lookup(key: CacheKey, target: ScanTarget)
    | Querying(key: CacheKey, target: ScanTarget)
    | AwaitingPermit(key: CacheKey, target: ScanTarget)
    | Prefetching(key: CacheKey, target: ScanTarget)
    | Scanning(key: CacheKey, target: ScanTarget)
    | Scanned(key: CacheKey, target: ScanTarget, list: Scan)
    | Caching(key: CacheKey, target: ScanTarget, list: Scan)
    | Judging(key: CacheKey, target: ScanTarget, list: Scan)
    | Verifying(block: BlockReport)
    | Reporting(block: BlockReport)
    | Recording(block: BlockReport, url: string)
    | Notifying(block: BlockReport, url: string)
    | Answered(answer: Response)

  datatype PassReason =
    | HeadOfArtifact
    | ImageIndex(fetch: ManifestFetch)
    | Attestation(fetch: ManifestFetch)
    | NoDockerScanner

  datatype UnsupportedReason = NoScanner | RangeRequested | NotInSource | Oversized

  datatype FailReason =
    | ManifestFailed(fetch: ManifestFetch)
    | SourceFailed
    | NoPermit
    | PrefetchFailed
    | ScannerFailed

  /** What happened to one request, in order. */
  datatype Event =
    | Got(key: CacheKey, target: ScanTarget, list: Scan)
    | ScanFailure(cause: FailReason)
    | Unsupported(reason: UnsupportedReason)
    | PassedThrough(why: PassReason)
    | Judged(generation: nat, key: CacheKey, target: ScanTarget, list: Scan, now: int, verdict: Outcome)

  /** A list that a scan or the source once gave, with the target it was asked for and the key that
      target had. */
  datatype Obtained = Obtained(key: CacheKey, target: ScanTarget, list: Scan)

  /** Where a request's own list came from. */
  datatype Origin = NoList | OwnScan | FromCache(from: Obtained)

  /** What a request holds in memory or in a temporary file. */
  datatype Buffer = Nothing | ManifestBytes(fetch: ManifestFetch) | ArtifactBytes(released: Body, file: Body)
  {
    function Bytes(): Body {
      match this
      case Nothing => []
      case ManifestBytes(fetch) => if fetch.Fetched? then fetch.body else []
      case ArtifactBytes(released, _) => released
    }
  }

  datatype Record = Record(request: Request, phase: Phase, permit: bool, buffer: Buffer, origin: Origin,
                           log: seq<Event>)

  /** The active policy as the server keeps it: a policy set, the evaluator built from it, a counter. */
  datatype ActivePolicy = ActivePolicy(policySet: PolicySet, evaluatorSet: PolicySet, generation: nat)

  datatype Label =
    | Arrive(r: ReqId, request: Request)
    | Dispatch(r: ReqId)
    | FetchAnswers(r: ReqId, fetch: ManifestFetch)
    | CacheGet(r: ReqId, hit: Option<Obtained>)
    | SourceAnswers(r: ReqId, source: SourceResult)
    | Acquire(r: ReqId)
    | AcquireFails(r: ReqId)
    | PrefetchAnswers(r: ReqId, prefetch: PrefetchAnswer)
    | ScanAnswers(r: ReqId, result: Option<Scan>)
    | DropPermit(r: ReqId)
    | CachePut(r: ReqId, error: bool)
    | Judge(r: ReqId, now: int)
    | VerifyAnswers(r: ReqId, ok: bool)
    | ReportAnswers(r: ReqId, created: Option<string>)
    | RecordDecision(r: ReqId)
    | Notify(r: ReqId, hasRecipient: bool)
    | ReloadPolicy(policies: PolicySet)

  function Answer(c: Record, a: Response): Record {
    c.(phase := Answered(a))
  }

  /** A failed scan: let through or refuse, by configuration. */
  function Fail(cfg: Config, c: Record, cause: FailReason, whenOpen: Response): Record {
    Answer(c.(log := c.log + [ScanFailure(cause)]), if cfg.failOpen then whenOpen else Refused)
  }

  function UnsupportedBlock(target: ScanTarget): BlockReport {
    BlockReport(target, None, [], [])
  }

  function NotScannable(cfg: Config, c: Record, reason: UnsupportedReason, target: ScanTarget,
                        whenAllowed: Response): Record {
    var logged := c.(log := c.log + [Unsupported(reason)]);
    if cfg.allowUnsupported then Answer(logged, whenAllowed)
    else logged.(phase := Verifying(UnsupportedBlock(target)))
  }

  function PassThrough(c: Record, why: PassReason, a: Response): Record {
    Answer(c.(log := c.log + [PassedThrough(why)]), a)
  }

  /** What a favourable verdict grants: a buffered body is released, anything else is forwarded. A
      fetched manifest is always buffered; an artifact only when it was prefetched for scanning. */
  function Grant(c: Record): Response {
    if c.request.ManifestRequest? || (c.request.ArtifactRequest? && !c.origin.FromCache?)
    then ReleasedBody(c.buffer.Bytes()) else Forwarded
  }

  function DispatchRecord(cfg: Config, c: Record): Record
    requires WellFormed(cfg, c.request)
  {
    match c.request
    case PackageRequest(_, target) => c.(phase := Lookup(KeyForTarget(target), target))
    case ArtifactRequest(repository, target, path, head, range, scannerMapped) =>
      if !scannerMapped then NotScannable(cfg, c, NoScanner, target, Forwarded)
      else if head then PassThrough(c, HeadOfArtifact, Forwarded)
      else if range then NotScannable(cfg, c, RangeRequested, target, Forwarded)
      else c.(phase := Lookup(ArtifactKey(repository.name, target, path), target))
    case ManifestRequest(_, _, _, scannerMapped) =>
      if scannerMapped then c.(phase := Fetching) else PassThrough(c, NoDockerScanner, Forwarded)
  }

  function FetchRecord(cfg: Config, c: Record, fetch: ManifestFetch): Record
    requires c.request.ManifestRequest?
  {
    match fetch
    case FetchError => Fail(cfg, c, ManifestFailed(fetch), Forwarded)
    case FetchedOther => Answer(c, OtherUpstream)
    case Fetched(body, contentType, attestation, digestHeader) =>
      match Docker.ManifestKindOf(contentType)
      case Index => PassThrough(c, ImageIndex(fetch), ReleasedBody(body))
      case Unknown => Fail(cfg, c, ManifestFailed(fetch), ReleasedBody(body))
      case Manifest =>
        if attestation then PassThrough(c, Attestation(fetch), ReleasedBody(body))
        else
          var digest := Docker.ManifestDigest(digestHeader, c.request.reference);
          if digest.None? then Fail(cfg, c, ManifestFailed(fetch), ReleasedBody(body))
          else c.(buffer := ManifestBytes(fetch),
                  phase := Lookup(DockerKey(c.request.repository.name, c.request.image, digest.value),
                                  DockerDigestTarget(c.request.image, digest.value)))
  }

  function CacheGetRecord(c: Record, hit: Option<Obtained>): Record
    requires c.phase.Lookup?
  {
    var (key, target) := (c.phase.key, c.phase.target);
    if hit.Some? then
      c.(log := c.log + [Got(key, target, hit.value.list)], origin := FromCache(hit.value),
         phase := Judging(key, target, hit.value.list))
    else if c.request.PackageRequest? then c.(phase := Querying(key, target))
    else c.(phase := AwaitingPermit(key, target))
  }

  function SourceRecord(cfg: Config, c: Record, source: SourceResult): Record
    requires c.phase.Querying?
  {
    match source
    case Found(list) =>
      c.(log := c.log + [Got(c.phase.key, c.phase.target, list)], origin := OwnScan,
         phase := Caching(c.phase.key, c.phase.target, list))
    case SourceUnsupported => NotScannable(cfg, c, NotInSource, c.phase.target, Forwarded)
    case SourceError => Fail(cfg, c, SourceFailed, Forwarded)
  }

  /** An oversized body whose declared length gave it away is passed on from the same response if
      possible; one found out while streaming is fetched again. */
  function PrefetchRecord(cfg: Config, c: Record, prefetch: PrefetchAnswer): Record
    requires c.phase.Prefetching?
  {
    match prefetch
    case NoResponse => Fail(cfg, c.(permit := false), PrefetchFailed, Forwarded)
    case OtherStatus => Answer(c.(permit := false), OtherUpstream)
    case Buffering(result, usable) =>
      match result
      case Complete(released, file) =>
        c.(buffer := ArtifactBytes(released, file), phase := Scanning(c.phase.key, c.phase.target))
      case TooLarge(streamStarted) =>
        NotScannable(cfg, c.(permit := false), Oversized, c.phase.target,
                     if streamStarted || usable then Forwarded else Refused)
      case Overflow => Fail(cfg, c.(permit := false), PrefetchFailed, Forwarded)
      case Failed => Fail(cfg, c.(permit := false), PrefetchFailed, Forwarded)
  }

  /** An artifact scanner reads the temporary file; an image scanner pulls the image by its digest. */
  function ScanRecord(cfg: Config, c: Record, result: Option<Scan>): Record
    requires c.phase.Scanning?
  {
    match result
    case Some(list) =>
      c.(log := c.log + [Got(c.phase.key, c.phase.target, list)], origin := OwnScan,
         phase := Scanned(c.phase.key, c.phase.target, list))
    case None => Fail(cfg, c.(permit := false), ScannerFailed, ReleasedBody(c.buffer.Bytes()))
  }

  /** The context comes from a policy set, the verdict from an evaluator. */
  function VerdictUnder(ps: PolicySet, evaluator: PolicySet, repository: Repository, target: ScanTarget, list: Scan,
                        now: int): Outcome {
    Verdict(evaluator, ps.ContextFor(repository.name, repository.format), target, list, now)
  }

  /** Both are read from one snapshot of the active policy. */
  function JudgedEvent(c: Record, p: ActivePolicy, now: int): Event
    requires c.phase.Judging?
  {
    Judged(p.generation, c.phase.key, c.phase.target, c.phase.list, now,
           VerdictUnder(p.policySet, p.evaluatorSet, c.request.repository, c.phase.target, c.phase.list, now))
  }

  function ApplyVerdict(c: Record, e: Event): Record
    requires c.phase.Judging? && e.Judged?
  {
    var judged := c.(log := c.log + [e]);
    if e.verdict.Blocked? then judged.(phase := Verifying(e.verdict.report)) else Answer(judged, Grant(c))
  }

  // ---- The whole server ----

  /** A report as it was created, and a decision as it was logged: for whom, about what, under which link. */
  datatype Report = Report(r: ReqId, block: BlockReport, url: string)
  datatype Decision = Decision(r: ReqId, blocked: bool, block: BlockReport, url: Option<string>)

  /** `policies` lists every policy set ever installed; `scanned` every list ever obtained; `stored`
      every list whose write into the cache was finished; `reports`, `decisions` and `notified` what
      was created, logged and queued. */
  datatype State = State(policy: ActivePolicy, policies: seq<PolicySet>, stored: set<Obtained>, available: int,
                         requests: map<ReqId, Record>, scanned: set<Obtained>,
                         reports: seq<Report>, decisions: seq<Decision>, notified: seq<Report>)

  function Permits(cfg: Config): nat {
    if cfg.concurrency < 1 then 1 else cfg.concurrency
  }

  function Initial(cfg: Config, ps: PolicySet): State {
    State(ActivePolicy(ps, ps, 1), [ps], {}, Permits(cfg), map[], {}, [], [], [])
  }

  /** What a request must be waiting for. */
  predicate Awaits(cfg: Config, c: Record, l: Label) {
    match l
    case Dispatch(_) => c.phase.Arrived? && WellFormed(cfg, c.request)
    case FetchAnswers(_, _) => c.phase.Fetching? && c.request.ManifestRequest?
    case CacheGet(_, hit) => c.phase.Lookup? && (hit.Some? ==> hit.value.key == c.phase.key)
    case SourceAnswers(_, _) => c.phase.Querying?
    case Acquire(_) => c.phase.AwaitingPermit?
    case AcquireFails(_) => c.phase.AwaitingPermit?
    case PrefetchAnswers(_, prefetch) =>
      c.phase.Prefetching? && (prefetch.Buffering? ==> Prefetch.Agreeing(prefetch.result))
    case ScanAnswers(_, _) => c.phase.Scanning?
    case DropPermit(_) => c.phase.Scanned?
    case CachePut(_, _) => c.phase.Caching?
    case Judge(_, _) => c.phase.Judging?
    case VerifyAnswers(_, _) => c.phase.Verifying?
    case ReportAnswers(_, _) => c.phase.Reporting?
    case RecordDecision(_) => c.phase.Recording?
    case Notify(_, _) => c.phase.Notifying?
    case _ => false
  }

  /** A cache lookup may miss at any time. A hit may be any list whose write under the key was finished,
      however the writes and the two halves of the lookup interleave. */
  predicate Enabled(cfg: Config, s: State, l: Label) {
    match l
    case Arrive(r, q) => r !in s.requests && WellFormed(cfg, q)
    case ReloadPolicy(_) => true
    case _ =>
      && l.r in s.requests && Awaits(cfg, s.requests[l.r], l)
      && (l.Acquire? ==> s.available > 0)
      && (l.CacheGet? && l.hit.Some? ==> l.hit.value in s.stored)
  }

  predicate OfRequest(l: Label) {
    !l.ReloadPolicy?
  }

  /** The next record of a request, given the active policy. */
  function Advance(cfg: Config, c: Record, l: Label, p: ActivePolicy): Record
    requires Awaits(cfg, c, l)
  {
    match l
    case Dispatch(_) => DispatchRecord(cfg, c)
    case FetchAnswers(_, fetch) => FetchRecord(cfg, c, fetch)
    case CacheGet(_, hit) => CacheGetRecord(c, hit)
    case SourceAnswers(_, source) => SourceRecord(cfg, c, source)
    case Acquire(_) =>
      c.(permit := true, phase := if c.request.ArtifactRequest? then Prefetching(c.phase.key, c.phase.target)
                                  else Scanning(c.phase.key, c.phase.target))
    case AcquireFails(_) =>
      Fail(cfg, c, NoPermit, if c.request.ManifestRequest? then ReleasedBody(c.buffer.Bytes()) else Forwarded)
    case PrefetchAnswers(_, prefetch) => PrefetchRecord(cfg, c, prefetch)
    case ScanAnswers(_, result) => ScanRecord(cfg, c, result)
    case DropPermit(_) => c.(permit := false, phase := Caching(c.phase.key, c.phase.target, c.phase.list))
    case CachePut(_, _) => c.(phase := Judging(c.phase.key, c.phase.target, c.phase.list))
    case Judge(_, now) => ApplyVerdict(c, JudgedEvent(c, p, now))
    case VerifyAnswers(_, ok) => if ok then c.(phase := Reporting(c.phase.block)) else Answer(c, Refused)
    case ReportAnswers(_, created) =>
      if created.Some? then c.(phase := Recording(c.phase.block, created.value)) else Answer(c, Refused)
    case RecordDecision(_) => c.(phase := Notifying(c.phase.block, c.phase.url))
    case Notify(_, _) => Answer(c, Forbidden(c.phase.block, c.phase.url))
  }

  function NextRecord(cfg: Config, s: State, l: Label): Record
    requires Enabled(cfg, s, l) && OfRequest(l)
  {
    if l.Arrive? then Record(l.request, Arrived, false, Nothing, NoList, [])
    else Advance(cfg, s.requests[l.r], l, s.policy)
  }

  function NextRequests(cfg: Config, s: State, l: Label): map<ReqId, Record>
    requires Enabled(cfg, s, l)
  {
    if OfRequest(l) then s.requests[l.r := NextRecord(cfg, s, l)] else s.requests
  }

  /** Semaphore permits taken or given back by a step. */
  function NextAvailable(s: State, l: Label): int {
    match l
    case Acquire(_) => s.available - 1
    case DropPermit(_) => s.available + 1
    case PrefetchAnswers(_, prefetch) =>
      if prefetch.Buffering? && prefetch.result.Complete? then s.available else s.available + 1
    case ScanAnswers(_, result) => if result.Some? then s.available else s.available + 1
    case _ => s.available
  }

  function NextStored(cfg: Config, s: State, l: Label): set<Obtained>
    requires Enabled(cfg, s, l)
  {
    match l
    case CachePut(r, false) =>
      s.stored + {Obtained(s.requests[r].phase.key, s.requests[r].phase.target, s.requests[r].phase.list)}
    case _ => s.stored
  }

  function NextScanned(cfg: Config, s: State, l: Label): set<Obtained>
    requires Enabled(cfg, s, l)
  {
    match l
    case SourceAnswers(r, Found(list)) =>
      s.scanned + {Obtained(s.requests[r].phase.key, s.requests[r].phase.target, list)}
    case ScanAnswers(r, Some(list)) =>
      s.scanned + {Obtained(s.requests[r].phase.key, s.requests[r].phase.target, list)}
    case _ => s.scanned
  }

  function NextReports(cfg: Config, s: State, l: Label): seq<Report>
    requires Enabled(cfg, s, l)
  {
    match l
    case ReportAnswers(r, Some(url)) => s.reports + [Report(r, s.requests[r].phase.block, url)]
    case _ => s.reports
  }

  function NextDecisions(cfg: Config, s: State, l: Label): seq<Decision>
    requires Enabled(cfg, s, l)
  {
    match l
    case RecordDecision(r) =>
      s.decisions + [Decision(r, true, s.requests[r].phase.block, Some(s.requests[r].phase.url))]
    case Judge(r, now) =>
      var verdict := JudgedEvent(s.requests[r], s.policy, now).verdict;
      if verdict.ReportOnly? then s.decisions + [Decision(r, false, verdict.report, None)] else s.decisions
    case _ => s.decisions
  }

  function NextNotified(cfg: Config, s: State, l: Label): seq<Report>
    requires Enabled(cfg, s, l)
  {
    match l
    case Notify(r, true) => s.notified + [Report(r, s.requests[r].phase.block, s.requests[r].phase.url)]
    case _ => s.notified
  }

  function Step(cfg: Config, s: State, l: Label): State
    requires Enabled(cfg, s, l)
  {
    s.(policy := if l.ReloadPolicy? then ActivePolicy(l.policies, l.policies, s.policy.generation + 1) else s.policy,
       policies := if l.ReloadPolicy? then s.policies + [l.policies] else s.policies,
       stored := NextStored(cfg, s, l),
       available := NextAvailable(s, l),
       requests := NextRequests(cfg, s, l),
       scanned := NextScanned(cfg, s, l),
       reports := NextReports(cfg, s, l),
       decisions := NextDecisions(cfg, s, l),
       notified := NextNotified(cfg, s, l))
  }

  ghost predicate IsRun(cfg: Config, ps: PolicySet, states: seq<State>, labels: seq<Label>) {
    && |states| == |labels| + 1 && states[0] == Initial(cfg, ps)
    && forall i :: 0 <= i < |labels| ==>
         Enabled(cfg, states[i], labels[i]) && states[i + 1] == Step(cfg, states[i], labels[i])
  }
}
