/** Which bytes a request is answered with, and which bytes were scanned. */
module BodyLaws {
  import opened Text
  import opened Targets
  import opened Policy
  import opened Evaluator
  import opened Gateway
  import opened GatewayLaws
  import Docker

  // ---- What a request buffers ----

  /** The fetched manifest is a concrete one whose digest, as its header or the reference gives it, makes
      up the target. */
  ghost predicate ReadAs(q: Request, fetch: ManifestFetch, target: ScanTarget)
    requires q.ManifestRequest?
  {
    && fetch.Fetched? && Docker.ImageType(fetch.contentType) && !fetch.attestation
    && if fetch.digestHeader.Some? && Docker.IsDigest(Trim(fetch.digestHeader.value))
       then target == DockerDigestTarget(q.image, Trim(fetch.digestHeader.value))
       else Docker.IsDigest(q.reference) && target == DockerDigestTarget(q.image, q.reference)
  }

  predicate HasTarget(phase: Phase) {
    || phase.Lookup? || phase.Querying? || phase.AwaitingPermit? || phase.Prefetching? || phase.Scanning?
    || phase.Scanned? || phase.Caching? || phase.Judging?
  }

  ghost predicate ManifestBufferOk(c: Record)
    requires c.request.ManifestRequest?
  {
    HasTarget(c.phase) ==> c.buffer.ManifestBytes? && ReadAs(c.request, c.buffer.fetch, c.phase.target)
  }

  /** An artifact has a list from its own scan only after the scanner read the buffered file. */
  predicate ArtifactBufferOk(c: Record) {
    && (c.phase.Scanning? || c.phase.Scanned? || c.phase.Caching? ==> Prefetched(c.buffer))
    && (c.phase.Scanned? || c.phase.Caching? ==> c.origin.OwnScan?)
    && (c.phase.Judging? ==> c.origin.FromCache? || (c.origin.OwnScan? && Prefetched(c.buffer)))
  }

  predicate Prefetched(b: Buffer) {
    b.ArtifactBytes? && b.released == b.file
  }

  /** The judged list and what is answered after a favourable verdict. */
  ghost predicate AnsweredOk(c: Record) {
    c.phase.Answered? && JudgedFavourably(c.log) ==>
      match c.request
      case PackageRequest(_, _) => c.phase.answer == Forwarded
      case ArtifactRequest(_, _, _, _, _, _) =>
        if c.origin.FromCache? then c.phase.answer == Forwarded
        else c.origin.OwnScan? && Prefetched(c.buffer) && c.phase.answer == ReleasedBody(c.buffer.file)
      case ManifestRequest(_, _, _, _) =>
        && c.buffer.ManifestBytes? && c.buffer.fetch.Fetched? && c.phase.answer == ReleasedBody(c.buffer.fetch.body)
        && forall e :: e in c.log && e.Judged? ==> ReadAs(c.request, c.buffer.fetch, e.target)
  }

  ghost predicate BodyOk(c: Record) {
    && (c.request.ArtifactRequest? ==> ArtifactBufferOk(c))
    && (c.request.ManifestRequest? ==> ManifestBufferOk(c))
    && (c.phase.Answered? ==> AnsweredOk(c))
    && (BeingBlocked(c.phase) ==> !JudgedFavourably(c.log))
  }

  predicate BeingBlocked(phase: Phase) {
    phase.Verifying? || phase.Reporting? || phase.Recording? || phase.Notifying?
  }

  // ---- Each kind of step ----

  lemma StillUnjudged(log: seq<Event>, e: Event)
    requires NotJudged(log) && (e.Judged? ==> e.verdict.Blocked?)
    ensures !JudgedFavourably(log + [e]) && !JudgedFavourably(log)
  {
  }

  lemma FailBody(cfg: Config, c: Record, cause: FailReason, whenOpen: Response)
    requires NotJudged(c.log)
    ensures BodyOk(Fail(cfg, c, cause, whenOpen))
  {
    StillUnjudged(c.log, ScanFailure(cause));
  }

  lemma NotScannableBody(cfg: Config, c: Record, reason: UnsupportedReason, target: ScanTarget, whenAllowed: Response)
    requires NotJudged(c.log)
    ensures BodyOk(NotScannable(cfg, c, reason, target, whenAllowed))
  {
    StillUnjudged(c.log, Unsupported(reason));
  }

  lemma PassThroughBody(c: Record, why: PassReason, a: Response)
    requires NotJudged(c.log)
    ensures BodyOk(PassThrough(c, why, a))
  {
    StillUnjudged(c.log, PassedThrough(why));
  }

  lemma DispatchBody(cfg: Config, c: Record)
    requires WellFormed(cfg, c.request) && NotJudged(c.log)
    ensures BodyOk(DispatchRecord(cfg, c))
  {
    match c.request
    case PackageRequest(_, _) =>
    case ArtifactRequest(_, target, _, _, _, _) =>
      NotScannableBody(cfg, c, NoScanner, target, Forwarded);
      NotScannableBody(cfg, c, RangeRequested, target, Forwarded);
      PassThroughBody(c, HeadOfArtifact, Forwarded);
    case ManifestRequest(_, _, _, _) => PassThroughBody(c, NoDockerScanner, Forwarded);
  }

  lemma FetchBody(cfg: Config, c: Record, fetch: ManifestFetch)
    requires c.request.ManifestRequest? && NotJudged(c.log)
    ensures BodyOk(FetchRecord(cfg, c, fetch))
  {
    match fetch
    case FetchError => FailBody(cfg, c, ManifestFailed(fetch), Forwarded);
    case FetchedOther => StillUnjudged(c.log, Unsupported(NoScanner));
    case Fetched(body, contentType, attestation, digestHeader) =>
      Docker.KindMeaning(contentType);
      Docker.ManifestDigestMeaning(digestHeader, c.request.reference,
                                   Docker.ManifestDigest(digestHeader, c.request.reference));
      FailBody(cfg, c, ManifestFailed(fetch), ReleasedBody(body));
      PassThroughBody(c, ImageIndex(fetch), ReleasedBody(body));
      PassThroughBody(c, Attestation(fetch), ReleasedBody(body));
  }

  lemma SourceBody(cfg: Config, c: Record, source: SourceResult)
    requires c.phase.Querying? && c.request.PackageRequest? && NotJudged(c.log)
    ensures BodyOk(SourceRecord(cfg, c, source))
  {
    FailBody(cfg, c, SourceFailed, Forwarded);
    NotScannableBody(cfg, c, NotInSource, c.phase.target, Forwarded);
  }

  lemma PrefetchBody(cfg: Config, c: Record, prefetch: PrefetchAnswer)
    requires c.phase.Prefetching? && c.request.ArtifactRequest? && NotJudged(c.log)
    requires prefetch.Buffering? && prefetch.result.Complete? ==> prefetch.result.released == prefetch.result.file
    ensures BodyOk(PrefetchRecord(cfg, c, prefetch))
  {
    var freed := c.(permit := false);
    FailBody(cfg, freed, PrefetchFailed, Forwarded);
    NotScannableBody(cfg, freed, Oversized, c.phase.target, Forwarded);
    NotScannableBody(cfg, freed, Oversized, c.phase.target, Refused);
    StillUnjudged(c.log, Unsupported(Oversized));
  }

  lemma ScanBody(cfg: Config, c: Record, result: Option<Scan>)
    requires BodyOk(c) && c.phase.Scanning? && !c.request.PackageRequest? && NotJudged(c.log)
    ensures BodyOk(ScanRecord(cfg, c, result))
  {
    FailBody(cfg, c.(permit := false), ScannerFailed, ReleasedBody(c.buffer.Bytes()));
  }

  lemma JudgeBody(c: Record, e: Event)
    requires BodyOk(c) && c.phase.Judging? && NotJudged(c.log) && e.Judged? && e.target == c.phase.target
    ensures BodyOk(ApplyVerdict(c, e))
  {
    if e.verdict.Blocked? {
      StillUnjudged(c.log, e);
    }
  }

  /** Before its verdict a request has not been judged, and some phases are for one kind only. */
  ghost predicate Unjudged(c: Record) {
    && (HasTarget(c.phase) || c.phase.Arrived? || c.phase.Fetching? ==> NotJudged(c.log))
    && (c.phase.Querying? ==> c.request.PackageRequest?)
    && (c.phase.Prefetching? ==> c.request.ArtifactRequest?)
    && (c.phase.Scanning? || c.phase.AwaitingPermit? ==> !c.request.PackageRequest?)
  }

  lemma RecordsAreUnjudged(w: Known, c: Record)
    requires RecordOk(w, c)
    ensures Unjudged(c)
  {
  }

  lemma ObtainingBody(cfg: Config, c: Record, l: Label, p: ActivePolicy)
    requires BodyOk(c) && Unjudged(c) && Awaits(cfg, c, l) && Obtaining(l)
    ensures BodyOk(Advance(cfg, c, l, p))
  {
    match l
    case Dispatch(_) => DispatchBody(cfg, c);
    case FetchAnswers(_, fetch) => FetchBody(cfg, c, fetch);
    case CacheGet(_, _) =>
    case SourceAnswers(_, source) => SourceBody(cfg, c, source);
    case PrefetchAnswers(_, prefetch) => PrefetchBody(cfg, c, prefetch);
    case ScanAnswers(_, result) => ScanBody(cfg, c, result);
  }

  lemma BlockingBody(cfg: Config, c: Record, l: Label, p: ActivePolicy)
    requires BodyOk(c) && Awaits(cfg, c, l) && Blocking(l)
    ensures BodyOk(Advance(cfg, c, l, p))
  {
  }

  lemma SettlingBody(cfg: Config, c: Record, l: Label, p: ActivePolicy)
    requires BodyOk(c) && Unjudged(c) && Awaits(cfg, c, l) && !Obtaining(l) && !Blocking(l)
    ensures BodyOk(Advance(cfg, c, l, p))
  {
    match l
    case AcquireFails(_) =>
      FailBody(cfg, c, NoPermit, if c.request.ManifestRequest? then ReleasedBody(c.buffer.Bytes()) else Forwarded);
    case Judge(_, now) => JudgeBody(c, JudgedEvent(c, p, now));
    case _ =>
  }

  ghost predicate BodiesOk(requests: map<ReqId, Record>) {
    forall r :: r in requests ==> BodyOk(requests[r])
  }

  lemma NextBody(cfg: Config, s: State, l: Label)
    requires SafetyInvariant(cfg, s) && BodiesOk(s.requests) && Enabled(cfg, s, l) && OfRequest(l)
    ensures BodyOk(NextRecord(cfg, s, l))
  {
    if !l.Arrive? {
      var c := s.requests[l.r];
      RecordsAreUnjudged(KnownIn(cfg, s), c);
      if Obtaining(l) {
        ObtainingBody(cfg, c, l, s.policy);
      } else if Blocking(l) {
        BlockingBody(cfg, c, l, s.policy);
      } else {
        SettlingBody(cfg, c, l, s.policy);
      }
    }
  }

  lemma BodyStep(cfg: Config, s: State, l: Label, s': State)
    requires SafetyInvariant(cfg, s) && BodiesOk(s.requests) && Enabled(cfg, s, l)
    requires s'.requests == NextRequests(cfg, s, l)
    ensures BodiesOk(s'.requests)
  {
    if OfRequest(l) {
      NextBody(cfg, s, l);
    }
  }

  lemma {:induction false} BodiesHold(cfg: Config, ps: PolicySet, states: seq<State>, labels: seq<Label>, i: nat)
    requires IsRun(cfg, ps, states, labels) && i < |states|
    ensures BodiesOk(states[i].requests)
  {
    if i > 0 {
      BodiesHold(cfg, ps, states, labels, i - 1);
      SafetyHolds(cfg, ps, states, labels, i - 1);
      RunStep(cfg, ps, states, labels, i - 1);
      BodyStep(cfg, states[i - 1], labels[i - 1], states[i]);
    }
  }

  // ---- Artifacts ----

  /** The bytes answered are the bytes that this request's own scan read. */
  predicate AnswersScannedBytes(c: Record) {
    c.phase.Answered? && c.origin.OwnScan? && c.buffer.ArtifactBytes? && c.phase.answer == ReleasedBody(c.buffer.file)
  }

  /** In every run, an artifact let out by a verdict is answered with the very bytes that were scanned
      exactly when its list did not come from the cache. When it did, the artifact is fetched again and
      passed on unread: the verdict is about an earlier body. */
  lemma ScannedBytesAnsweredExactly(cfg: Config, ps: PolicySet, states: seq<State>, labels: seq<Label>, i: nat,
                                    r: ReqId)
    requires IsRun(cfg, ps, states, labels) && i < |states| && r in states[i].requests
    requires states[i].requests[r].request.ArtifactRequest? && states[i].requests[r].phase.Answered?
    requires JudgedFavourably(states[i].requests[r].log)
    ensures var c := states[i].requests[r];
            && (AnswersScannedBytes(c) <==> !c.origin.FromCache?)
            && (c.origin.FromCache? ==> c.phase.answer == Forwarded)
  {
    BodiesHold(cfg, ps, states, labels, i);
    assert BodyOk(states[i].requests[r]);
  }

  /** The input: an artifact about to be looked up, and any stored list under its key that the policy
      allows. It is answered without a byte having been read by this request. */
  lemma CachedArtifactIsFetchedAgain(cfg: Config, c: Record, hit: Obtained, p: ActivePolicy, r: ReqId, now: int)
    requires c.request.ArtifactRequest? && c.phase.Lookup? && hit.key == c.phase.key && c.buffer.Nothing?
    ensures var judging := Advance(cfg, c, CacheGet(r, Some(hit)), p);
            var answered := Advance(cfg, judging, Judge(r, now), p);
            !JudgedEvent(judging, p, now).verdict.Blocked? ==>
              answered.phase == Answered(Forwarded) && answered.buffer.Nothing? && !AnswersScannedBytes(answered)
  {
    var judging := Advance(cfg, c, CacheGet(r, Some(hit)), p);
    var e := JudgedEvent(judging, p, now);
    assert Advance(cfg, judging, Judge(r, now), p) == ApplyVerdict(judging, e);
  }

  // ---- Manifests ----

  /** In every run, a manifest let out by a verdict is answered with the bytes of its own fetch, and the
      verdict is about the digest that this fetch's header, or else the reference, names. */
  lemma JudgedManifestIsTheFetchedOne(cfg: Config, ps: PolicySet, states: seq<State>, labels: seq<Label>, i: nat,
                                      r: ReqId)
    requires IsRun(cfg, ps, states, labels) && i < |states| && r in states[i].requests
    requires states[i].requests[r].request.ManifestRequest? && states[i].requests[r].phase.Answered?
    requires JudgedFavourably(states[i].requests[r].log)
    ensures var c := states[i].requests[r];
            && c.buffer.ManifestBytes? && c.buffer.fetch.Fetched?
            && c.phase.answer == ReleasedBody(c.buffer.fetch.body)
            && forall e :: e in c.log && e.Judged? ==> ReadAs(c.request, c.buffer.fetch, e.target)
  {
    BodiesHold(cfg, ps, states, labels, i);
    assert BodyOk(states[i].requests[r]);
  }
}
