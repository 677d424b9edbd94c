/** What happens to a request, told from what the rest of the world answered: every answer has its step,
    every block ends in its report, and what the server remembers is what was said to it. */
module OutcomeLaws {
  import opened Text
  import opened Targets
  import opened Policy
  import opened PolicyMeaning
  import opened Evaluator
  import opened Gateway
  import opened GatewayLaws
  import opened LedgerLaws
  import Docker
  import Prefetch

  // ---- The labels of one request ----

  function Own(labels: seq<Label>, r: ReqId): seq<Label> {
    if labels == [] then []
    else
      var last := labels[|labels| - 1];
      Own(labels[..|labels| - 1], r) + if OfRequest(last) && last.r == r then [last] else []
  }

  lemma {:induction false} OwnMeaning(labels: seq<Label>, r: ReqId)
    ensures forall l :: l in Own(labels, r) <==> l in labels && OfRequest(l) && l.r == r
  {
    if labels != [] {
      var n := |labels| - 1;
      OwnMeaning(labels[..n], r);
      assert labels == labels[..n] + [labels[n]];
    }
  }

  lemma OwnStep(labels: seq<Label>, i: nat, r: ReqId)
    requires i < |labels|
    ensures Own(labels[..i + 1], r)
            == Own(labels[..i], r) + if OfRequest(labels[i]) && labels[i].r == r then [labels[i]] else []
  {
    assert labels[..i + 1][..i] == labels[..i];
  }

  // ---- What a request knows was said to it ----

  ghost predicate ListHeard(r: ReqId, origin: Origin, list: Scan, h: seq<Label>) {
    match origin
    case NoList => false
    case OwnScan => SourceAnswers(r, Found(list)) in h || ScanAnswers(r, Some(list)) in h
    case FromCache(o) => CacheGet(r, Some(o)) in h && list == o.list
  }

  predicate Broke(prefetch: PrefetchAnswer) {
    prefetch.NoResponse? || (prefetch.Buffering? && (prefetch.result.Overflow? || prefetch.result.Failed?))
  }

  ghost predicate CauseHeard(r: ReqId, cause: FailReason, h: seq<Label>) {
    match cause
    case ManifestFailed(fetch) => FetchAnswers(r, fetch) in h
    case SourceFailed => SourceAnswers(r, SourceError) in h
    case NoPermit => AcquireFails(r) in h
    case PrefetchFailed => exists p :: PrefetchAnswers(r, p) in h && Broke(p)
    case ScannerFailed => ScanAnswers(r, None) in h
  }

  ghost predicate ReasonHeard(r: ReqId, reason: UnsupportedReason, h: seq<Label>) {
    match reason
    case NoScanner => Dispatch(r) in h
    case RangeRequested => Dispatch(r) in h
    case NotInSource => SourceAnswers(r, SourceUnsupported) in h
    case Oversized => exists started, usable :: PrefetchAnswers(r, Buffering(Prefetch.TooLarge(started), usable)) in h
  }

  ghost predicate WhyHeard(r: ReqId, why: PassReason, h: seq<Label>) {
    match why
    case HeadOfArtifact => Dispatch(r) in h
    case NoDockerScanner => Dispatch(r) in h
    case ImageIndex(fetch) => FetchAnswers(r, fetch) in h
    case Attestation(fetch) => FetchAnswers(r, fetch) in h
  }

  /** A list of the request's own was offered to the cache. */
  predicate Offered(r: ReqId, origin: Origin, h: seq<Label>) {
    origin.OwnScan? ==> CachePut(r, true) in h || CachePut(r, false) in h
  }

  /** A hit is the list the request goes on with. */
  ghost predicate HitHeard(r: ReqId, origin: Origin, h: seq<Label>) {
    forall o :: CacheGet(r, Some(o)) in h ==> origin == FromCache(o)
  }

  ghost predicate EventHeard(r: ReqId, origin: Origin, e: Event, h: seq<Label>) {
    match e
    case Got(_, _, list) => ListHeard(r, origin, list, h)
    case Judged(_, _, _, list, now, _) => Judge(r, now) in h && ListHeard(r, origin, list, h) && Offered(r, origin, h)
    case ScanFailure(cause) => CauseHeard(r, cause, h)
    case Unsupported(reason) => ReasonHeard(r, reason, h)
    case PassedThrough(why) => WhyHeard(r, why, h)
  }

  ghost predicate LogHeard(r: ReqId, c: Record, h: seq<Label>) {
    forall e :: e in c.log ==> EventHeard(r, c.origin, e, h)
  }

  ghost predicate BufferHeard(r: ReqId, b: Buffer, h: seq<Label>) {
    match b
    case Nothing => true
    case ManifestBytes(fetch) => FetchAnswers(r, fetch) in h
    case ArtifactBytes(released, file) =>
      exists usable :: PrefetchAnswers(r, Buffering(Prefetch.Complete(released, file), usable)) in h
  }

  /** How far a request has come says what it has been told. */
  ghost predicate PhaseHeard(r: ReqId, c: Record, h: seq<Label>) {
    match c.phase
    case Arrived => c.log == [] && c.origin.NoList? && forall f :: FetchAnswers(r, f) !in h
    case Fetching => c.log == [] && c.origin.NoList? && forall f :: FetchAnswers(r, f) !in h
    case Lookup(_, _) => c.origin.NoList?
    case Querying(_, _) => c.origin.NoList?
    case AwaitingPermit(_, _) => c.origin.NoList?
    case Prefetching(_, _) => c.origin.NoList?
    case Scanning(_, _) => c.origin.NoList?
    case Scanned(_, _, list) => ListHeard(r, c.origin, list, h)
    case Caching(_, _, list) => ListHeard(r, c.origin, list, h)
    case Judging(_, _, list) => ListHeard(r, c.origin, list, h) && Offered(r, c.origin, h)
    case Verifying(_) => true
    case Reporting(_) => VerifyAnswers(r, true) in h
    case Recording(_, url) => VerifyAnswers(r, true) in h && ReportAnswers(r, Some(url)) in h
    case Notifying(_, url) => VerifyAnswers(r, true) in h && ReportAnswers(r, Some(url)) in h
    case Answered(Forbidden(_, url)) => VerifyAnswers(r, true) in h && ReportAnswers(r, Some(url)) in h
    case Answered(_) => true
  }

  predicate Denied(r: ReqId, h: seq<Label>) {
    VerifyAnswers(r, false) in h || ReportAnswers(r, None) in h
  }

  /** Judged Blocked, or unsupported while unsupported targets are blocked. */
  ghost predicate MustBlock(cfg: Config, log: seq<Event>) {
    || (exists e :: e in log && e.Judged? && e.verdict.Blocked?)
    || (!cfg.allowUnsupported && UnsupportedLog(log))
  }

  predicate BeingBlocked(phase: Phase) {
    phase.Verifying? || phase.Reporting? || phase.Recording? || phase.Notifying?
  }

  /** What must be blocked is on its way to a report, has it, or was denied; and only denial refuses it. */
  ghost predicate BlockHeard(cfg: Config, r: ReqId, c: Record, h: seq<Label>) {
    && (MustBlock(cfg, c.log) ==>
          || BeingBlocked(c.phase)
          || (c.phase.Answered? && c.phase.answer.Forbidden?)
          || (c.phase == Answered(Refused) && Denied(r, h)))
    && (Denied(r, h) ==> c.phase == Answered(Refused))
  }

  /** A concrete image manifest that is no attestation never passes through. */
  ghost predicate ImageHeard(r: ReqId, c: Record, h: seq<Label>) {
    forall f :: FetchAnswers(r, f) in h && f.Fetched? && Docker.ImageType(f.contentType) && !f.attestation ==>
      !PassedThroughLog(c.log)
  }

  ghost predicate Heard(cfg: Config, r: ReqId, c: Record, h: seq<Label>) {
    && Arrive(r, c.request) in h
    && LogHeard(r, c, h) && BufferHeard(r, c.buffer, h) && PhaseHeard(r, c, h)
    && BlockHeard(cfg, r, c, h) && ImageHeard(r, c, h) && HitHeard(r, c.origin, h)
  }

  // ---- Each step ----

  lemma ListHeardMore(r: ReqId, origin: Origin, list: Scan, h: seq<Label>, l: Label)
    requires ListHeard(r, origin, list, h)
    ensures ListHeard(r, origin, list, h + [l])
  {
  }

  lemma EventHeardMore(r: ReqId, origin: Origin, e: Event, h: seq<Label>, l: Label)
    requires EventHeard(r, origin, e, h)
    ensures EventHeard(r, origin, e, h + [l])
  {
    match e
    case Got(_, _, list) => ListHeardMore(r, origin, list, h, l);
    case Judged(_, _, _, list, _, _) => ListHeardMore(r, origin, list, h, l);
    case ScanFailure(cause) =>
      if cause.PrefetchFailed? {
        var p :| PrefetchAnswers(r, p) in h && Broke(p);
        assert PrefetchAnswers(r, p) in h + [l];
      }
    case Unsupported(reason) =>
      if reason.Oversized? {
        var started, usable :| PrefetchAnswers(r, Buffering(Prefetch.TooLarge(started), usable)) in h;
        assert PrefetchAnswers(r, Buffering(Prefetch.TooLarge(started), usable)) in h + [l];
      }
    case PassedThrough(_) =>
  }

  lemma BufferHeardMore(r: ReqId, b: Buffer, h: seq<Label>, l: Label)
    requires BufferHeard(r, b, h)
    ensures BufferHeard(r, b, h + [l])
  {
    if b.ArtifactBytes? {
      var usable :| PrefetchAnswers(r, Buffering(Prefetch.Complete(b.released, b.file), usable)) in h;
      assert PrefetchAnswers(r, Buffering(Prefetch.Complete(b.released, b.file), usable)) in h + [l];
    }
  }

  lemma HitHeardStep(cfg: Config, c: Record, l: Label, p: ActivePolicy, h: seq<Label>)
    requires Awaits(cfg, c, l) && PhaseHeard(l.r, c, h) && HitHeard(l.r, c.origin, h)
    ensures HitHeard(l.r, Advance(cfg, c, l, p).origin, h + [l])
  {
    var after := Advance(cfg, c, l, p);
    OriginStep(cfg, c, l, p, h);
    forall o | CacheGet(l.r, Some(o)) in h + [l]
      ensures after.origin == FromCache(o)
    {
      if l != CacheGet(l.r, Some(o)) {
        assert CacheGet(l.r, Some(o)) in h;
      }
    }
  }

  lemma OriginStep(cfg: Config, c: Record, l: Label, p: ActivePolicy, h: seq<Label>)
    requires Awaits(cfg, c, l) && PhaseHeard(l.r, c, h)
    ensures var after := Advance(cfg, c, l, p);
            && (after.origin == c.origin || c.origin.NoList?)
            && (l.CacheGet? && l.hit.Some? ==> c.origin.NoList? && after.origin == FromCache(l.hit.value))
  {
  }

  /** A request without a list has logged none. */
  lemma NoListYet(r: ReqId, c: Record, h: seq<Label>)
    requires LogHeard(r, c, h) && c.origin.NoList?
    ensures forall e :: e in c.log ==> !e.Got? && !e.Judged?
  {
    forall e | e in c.log
      ensures !e.Got? && !e.Judged?
    {
      assert EventHeard(r, c.origin, e, h);
    }
  }

  /** What a step appends to the log, if anything. */
  predicate Appends(before: seq<Event>, after: seq<Event>) {
    after == before || (|after| == |before| + 1 && after[..|before|] == before)
  }

  lemma AppendedMembers(before: seq<Event>, after: seq<Event>, e: Event)
    requires Appends(before, after) && e in after
    ensures e in before || (|after| == |before| + 1 && e == after[|before|])
  {
    if after != before {
      assert after == before + [after[|before|]];
    }
  }

  lemma DispatchAppends(cfg: Config, c: Record)
    requires WellFormed(cfg, c.request)
    ensures Appends(c.log, DispatchRecord(cfg, c).log)
  {
  }

  lemma FetchAppends(cfg: Config, c: Record, fetch: ManifestFetch)
    requires c.request.ManifestRequest?
    ensures Appends(c.log, FetchRecord(cfg, c, fetch).log)
  {
  }

  lemma PrefetchAppends(cfg: Config, c: Record, prefetch: PrefetchAnswer)
    requires c.phase.Prefetching?
    ensures Appends(c.log, PrefetchRecord(cfg, c, prefetch).log)
  {
  }

  lemma ListAppends(cfg: Config, c: Record, l: Label, p: ActivePolicy)
    requires Awaits(cfg, c, l) && (l.CacheGet? || l.SourceAnswers? || l.ScanAnswers?)
    ensures Appends(c.log, Advance(cfg, c, l, p).log) && Advance(cfg, c, l, p).request == c.request
  {
  }

  lemma SettlingAppends(cfg: Config, c: Record, l: Label, p: ActivePolicy)
    requires Awaits(cfg, c, l) && !Obtaining(l)
    ensures Appends(c.log, Advance(cfg, c, l, p).log) && Advance(cfg, c, l, p).request == c.request
  {
    hide JudgedEvent;
  }

  lemma AdvanceAppends(cfg: Config, c: Record, l: Label, p: ActivePolicy)
    requires Awaits(cfg, c, l)
    ensures Appends(c.log, Advance(cfg, c, l, p).log) && Advance(cfg, c, l, p).request == c.request
  {
    match l
    case Dispatch(_) => DispatchAppends(cfg, c);
    case FetchAnswers(_, fetch) => FetchAppends(cfg, c, fetch);
    case PrefetchAnswers(_, prefetch) => PrefetchAppends(cfg, c, prefetch);
    case CacheGet(_, _) => ListAppends(cfg, c, l, p);
    case SourceAnswers(_, _) => ListAppends(cfg, c, l, p);
    case ScanAnswers(_, _) => ListAppends(cfg, c, l, p);
    case _ => SettlingAppends(cfg, c, l, p);
  }

  /** If the step logged something, that was heard. */
  ghost predicate NewHeard(r: ReqId, before: seq<Event>, after: Record, h: seq<Label>) {
    |after.log| == |before| + 1 ==> EventHeard(r, after.origin, after.log[|before|], h)
  }

  lemma NewOfDispatch(cfg: Config, c: Record, r: ReqId, h: seq<Label>)
    requires WellFormed(cfg, c.request) && Dispatch(r) in h
    ensures NewHeard(r, c.log, DispatchRecord(cfg, c), h)
  {
  }

  lemma NewOfFetch(cfg: Config, c: Record, fetch: ManifestFetch, r: ReqId, h: seq<Label>)
    requires c.request.ManifestRequest? && FetchAnswers(r, fetch) in h
    ensures NewHeard(r, c.log, FetchRecord(cfg, c, fetch), h)
  {
  }

  lemma NewOfPrefetch(cfg: Config, c: Record, prefetch: PrefetchAnswer, r: ReqId, h: seq<Label>)
    requires c.phase.Prefetching? && PrefetchAnswers(r, prefetch) in h
    ensures NewHeard(r, c.log, PrefetchRecord(cfg, c, prefetch), h)
  {
  }

  lemma NewOfList(cfg: Config, c: Record, l: Label, p: ActivePolicy, h: seq<Label>)
    requires Awaits(cfg, c, l) && (l.CacheGet? || l.SourceAnswers? || l.ScanAnswers?) && l in h
    ensures NewHeard(l.r, c.log, Advance(cfg, c, l, p), h)
  {
  }

  lemma NewOfSettling(cfg: Config, c: Record, l: Label, p: ActivePolicy, h: seq<Label>)
    requires Awaits(cfg, c, l) && !Obtaining(l) && l in h
    requires l.Judge? ==> ListHeard(l.r, c.origin, c.phase.list, h) && Offered(l.r, c.origin, h)
    ensures NewHeard(l.r, c.log, Advance(cfg, c, l, p), h)
  {
    hide ListHeard, VerdictUnder;
  }

  /** The event a step appends was heard. */
  lemma NewEventHeard(cfg: Config, c: Record, l: Label, p: ActivePolicy, h: seq<Label>)
    requires Awaits(cfg, c, l) && PhaseHeard(l.r, c, h)
    ensures NewHeard(l.r, c.log, Advance(cfg, c, l, p), h + [l])
  {
    hide NewHeard, ListHeard, DispatchRecord, FetchRecord, PrefetchRecord;
    assert l in h + [l];
    match l
    case Dispatch(r) => NewOfDispatch(cfg, c, r, h + [l]);
    case FetchAnswers(r, fetch) => NewOfFetch(cfg, c, fetch, r, h + [l]);
    case PrefetchAnswers(r, prefetch) => NewOfPrefetch(cfg, c, prefetch, r, h + [l]);
    case CacheGet(_, _) => NewOfList(cfg, c, l, p, h + [l]);
    case SourceAnswers(_, _) => NewOfList(cfg, c, l, p, h + [l]);
    case ScanAnswers(_, _) => NewOfList(cfg, c, l, p, h + [l]);
    case Judge(r, _) =>
      ListHeardMore(r, c.origin, c.phase.list, h, l);
      NewOfSettling(cfg, c, l, p, h + [l]);
    case _ => NewOfSettling(cfg, c, l, p, h + [l]);
  }

  lemma OriginKept(cfg: Config, c: Record, l: Label, p: ActivePolicy, h: seq<Label>)
    requires Awaits(cfg, c, l) && PhaseHeard(l.r, c, h)
    ensures Advance(cfg, c, l, p).origin == c.origin || c.origin.NoList?
  {
  }

  lemma LogHeardStep(cfg: Config, c: Record, l: Label, p: ActivePolicy, h: seq<Label>)
    requires Awaits(cfg, c, l) && Heard(cfg, l.r, c, h)
    ensures LogHeard(l.r, Advance(cfg, c, l, p), h + [l])
  {
    hide Advance, PhaseHeard, BlockHeard, ImageHeard, BufferHeard;
    var after := Advance(cfg, c, l, p);
    AdvanceAppends(cfg, c, l, p);
    OriginKept(cfg, c, l, p, h);
    NewEventHeard(cfg, c, l, p, h);
    forall e | e in after.log
      ensures EventHeard(l.r, after.origin, e, h + [l])
    {
      if e in c.log {
        assert EventHeard(l.r, c.origin, e, h);
        if after.origin == c.origin {
          EventHeardMore(l.r, c.origin, e, h, l);
        } else {
          NoListYet(l.r, c, h);
          EventHeardOrigin(l.r, c.origin, after.origin, e, h, l);
        }
      } else {
        AppendedMembers(c.log, after.log, e);
      }
    }
  }

  lemma EventHeardOrigin(r: ReqId, origin: Origin, origin': Origin, e: Event, h: seq<Label>, l: Label)
    requires EventHeard(r, origin, e, h) && !e.Got? && !e.Judged?
    ensures EventHeard(r, origin', e, h + [l])
  {
    EventHeardMore(r, origin, e, h, l);
  }

  lemma BufferHeardStep(cfg: Config, c: Record, l: Label, p: ActivePolicy, h: seq<Label>)
    requires Awaits(cfg, c, l) && BufferHeard(l.r, c.buffer, h)
    ensures BufferHeard(l.r, Advance(cfg, c, l, p).buffer, h + [l])
  {
    BufferHeardMore(l.r, c.buffer, h, l);
    assert l in h + [l];
    if l.PrefetchAnswers? {
      assert PrefetchAnswers(l.r, l.prefetch) in h + [l];
    }
  }

  lemma PhaseOfDispatch(cfg: Config, c: Record, r: ReqId, h: seq<Label>)
    requires WellFormed(cfg, c.request) && c.phase.Arrived? && PhaseHeard(r, c, h)
    ensures PhaseHeard(r, DispatchRecord(cfg, c), h + [Dispatch(r)])
  {
  }

  lemma PhaseOfFetch(cfg: Config, c: Record, fetch: ManifestFetch, r: ReqId, h: seq<Label>)
    requires c.request.ManifestRequest? && c.phase.Fetching? && PhaseHeard(r, c, h)
    ensures PhaseHeard(r, FetchRecord(cfg, c, fetch), h + [FetchAnswers(r, fetch)])
  {
  }

  lemma PhaseOfPrefetch(cfg: Config, c: Record, prefetch: PrefetchAnswer, r: ReqId, h: seq<Label>)
    requires c.phase.Prefetching? && PhaseHeard(r, c, h)
    ensures PhaseHeard(r, PrefetchRecord(cfg, c, prefetch), h + [PrefetchAnswers(r, prefetch)])
  {
  }

  lemma PhaseOfList(cfg: Config, c: Record, l: Label, p: ActivePolicy, h: seq<Label>)
    requires Awaits(cfg, c, l) && PhaseHeard(l.r, c, h) && (l.CacheGet? || l.SourceAnswers? || l.ScanAnswers?)
    ensures PhaseHeard(l.r, Advance(cfg, c, l, p), h + [l])
  {
    assert l in h + [l];
  }

  lemma PhaseOfCaching(cfg: Config, c: Record, l: Label, p: ActivePolicy, h: seq<Label>)
    requires Awaits(cfg, c, l) && PhaseHeard(l.r, c, h) && (l.DropPermit? || l.CachePut?)
    ensures PhaseHeard(l.r, Advance(cfg, c, l, p), h + [l])
  {
    hide ListHeard, JudgedEvent;
    assert l in h + [l];
    ListHeardMore(l.r, c.origin, c.phase.list, h, l);
  }

  lemma PhaseOfJudge(c: Record, e: Event, r: ReqId, h: seq<Label>)
    requires c.phase.Judging? && e.Judged?
    ensures PhaseHeard(r, ApplyVerdict(c, e), h)
  {
  }

  lemma PhaseOfPermit(cfg: Config, c: Record, l: Label, p: ActivePolicy, h: seq<Label>)
    requires Awaits(cfg, c, l) && PhaseHeard(l.r, c, h) && (l.Acquire? || l.AcquireFails?)
    ensures PhaseHeard(l.r, Advance(cfg, c, l, p), h + [l])
  {
  }

  lemma PhaseOfSettling(cfg: Config, c: Record, l: Label, p: ActivePolicy, h: seq<Label>)
    requires Awaits(cfg, c, l) && PhaseHeard(l.r, c, h) && !Obtaining(l) && !Blocking(l)
    ensures PhaseHeard(l.r, Advance(cfg, c, l, p), h + [l])
  {
    hide PhaseHeard, ListHeard, VerdictUnder, ApplyVerdict;
    match l
    case DropPermit(_) => PhaseOfCaching(cfg, c, l, p, h);
    case CachePut(_, _) => PhaseOfCaching(cfg, c, l, p, h);
    case Judge(r, now) => PhaseOfJudge(c, JudgedEvent(c, p, now), r, h + [l]);
    case _ => PhaseOfPermit(cfg, c, l, p, h);
  }

  lemma PhaseOfBlocking(cfg: Config, c: Record, l: Label, p: ActivePolicy, h: seq<Label>)
    requires Awaits(cfg, c, l) && PhaseHeard(l.r, c, h) && Blocking(l)
    ensures PhaseHeard(l.r, Advance(cfg, c, l, p), h + [l])
  {
    assert l in h + [l];
  }

  lemma PhaseHeardStep(cfg: Config, c: Record, l: Label, p: ActivePolicy, h: seq<Label>)
    requires Awaits(cfg, c, l) && PhaseHeard(l.r, c, h)
    ensures PhaseHeard(l.r, Advance(cfg, c, l, p), h + [l])
  {
    hide PhaseHeard, DispatchRecord, FetchRecord, PrefetchRecord;
    if Blocking(l) {
      PhaseOfBlocking(cfg, c, l, p, h);
    } else {
      match l
      case Dispatch(r) => PhaseOfDispatch(cfg, c, r, h);
      case FetchAnswers(r, fetch) => PhaseOfFetch(cfg, c, fetch, r, h);
      case PrefetchAnswers(r, prefetch) => PhaseOfPrefetch(cfg, c, prefetch, r, h);
      case CacheGet(_, _) => PhaseOfList(cfg, c, l, p, h);
      case SourceAnswers(_, _) => PhaseOfList(cfg, c, l, p, h);
      case ScanAnswers(_, _) => PhaseOfList(cfg, c, l, p, h);
      case _ => PhaseOfSettling(cfg, c, l, p, h);
    }
  }

  lemma NothingToBlock(cfg: Config, c: Record, e: Event)
    requires !MustBlock(cfg, c.log) && !(e.Judged? && e.verdict.Blocked?) && !(e.Unsupported? && !cfg.allowUnsupported)
    ensures !MustBlock(cfg, c.log + [e])
  {
    forall d | d in c.log + [e]
      ensures !(d.Judged? && d.verdict.Blocked?) && !(d.Unsupported? && !cfg.allowUnsupported)
    {
      if d != e {
        assert d in c.log;
      }
    }
  }

  /** If the step logged something that calls for a block, a block has begun. */
  predicate BlockBegun(cfg: Config, before: seq<Event>, after: Record) {
    |after.log| == |before| + 1 && !BeingBlocked(after.phase) ==>
      var e := after.log[|before|];
      !(e.Judged? && e.verdict.Blocked?) && !(e.Unsupported? && !cfg.allowUnsupported)
  }

  lemma DispatchBegins(cfg: Config, c: Record)
    requires WellFormed(cfg, c.request)
    ensures BlockBegun(cfg, c.log, DispatchRecord(cfg, c))
  {
  }

  lemma FetchBegins(cfg: Config, c: Record, fetch: ManifestFetch)
    requires c.request.ManifestRequest?
    ensures BlockBegun(cfg, c.log, FetchRecord(cfg, c, fetch))
  {
  }

  lemma PrefetchBegins(cfg: Config, c: Record, prefetch: PrefetchAnswer)
    requires c.phase.Prefetching?
    ensures BlockBegun(cfg, c.log, PrefetchRecord(cfg, c, prefetch))
  {
  }

  lemma BlockCalled(cfg: Config, c: Record, l: Label, p: ActivePolicy)
    requires Awaits(cfg, c, l) && !Blocking(l)
    ensures BlockBegun(cfg, c.log, Advance(cfg, c, l, p))
  {
    hide DispatchRecord, FetchRecord, PrefetchRecord, VerdictUnder;
    match l
    case Dispatch(_) => DispatchBegins(cfg, c);
    case FetchAnswers(_, fetch) => FetchBegins(cfg, c, fetch);
    case PrefetchAnswers(_, prefetch) => PrefetchBegins(cfg, c, prefetch);
    case _ =>
  }

  lemma NotBlockingHeard(cfg: Config, c: Record, l: Label, p: ActivePolicy, h: seq<Label>)
    requires Awaits(cfg, c, l) && Heard(cfg, l.r, c, h) && !Blocking(l)
    ensures BlockHeard(cfg, l.r, Advance(cfg, c, l, p), h + [l])
  {
    hide Advance, LogHeard, PhaseHeard, ImageHeard, BufferHeard;
    var after := Advance(cfg, c, l, p);
    AdvanceAppends(cfg, c, l, p);
    BlockCalled(cfg, c, l, p);
    assert !Denied(l.r, h) && !MustBlock(cfg, c.log);
    if after.log != c.log && !BeingBlocked(after.phase) {
      var e := after.log[|c.log|];
      assert after.log == c.log + [e];
      NothingToBlock(cfg, c, e);
    }
  }

  lemma BlockingHeard(cfg: Config, c: Record, l: Label, p: ActivePolicy, h: seq<Label>)
    requires Awaits(cfg, c, l) && BlockHeard(cfg, l.r, c, h) && Blocking(l)
    ensures BlockHeard(cfg, l.r, Advance(cfg, c, l, p), h + [l])
  {
    hide MustBlock;
    assert l in h + [l];
  }

  lemma ImageHeardStep(cfg: Config, c: Record, l: Label, p: ActivePolicy, h: seq<Label>)
    requires Awaits(cfg, c, l) && Heard(cfg, l.r, c, h)
    ensures ImageHeard(l.r, Advance(cfg, c, l, p), h + [l])
  {
    var after := Advance(cfg, c, l, p);
    if l.FetchAnswers? {
      FetchPasses(cfg, c, l.fetch);
    } else {
      LaterNeverPasses(cfg, c, l, p);
      forall f | FetchAnswers(l.r, f) in h + [l] && f.Fetched? && Docker.ImageType(f.contentType) && !f.attestation
        ensures !PassedThroughLog(after.log)
      {
        assert FetchAnswers(l.r, f) in h;
      }
    }
  }

  lemma FetchPasses(cfg: Config, c: Record, fetch: ManifestFetch)
    requires c.request.ManifestRequest? && c.log == []
    ensures fetch.Fetched? && Docker.ImageType(fetch.contentType) && !fetch.attestation ==>
              !PassedThroughLog(FetchRecord(cfg, c, fetch).log)
  {
    if fetch.Fetched? {
      Docker.KindMeaning(fetch.contentType);
    }
  }

  /** After the dispatch only a fetched manifest can pass through. */
  lemma LaterNeverPasses(cfg: Config, c: Record, l: Label, p: ActivePolicy)
    requires Awaits(cfg, c, l) && !l.FetchAnswers?
    ensures !l.Dispatch? && !PassedThroughLog(c.log) ==> !PassedThroughLog(Advance(cfg, c, l, p).log)
  {
    var after := Advance(cfg, c, l, p);
    AdvanceAppends(cfg, c, l, p);
    if !l.Dispatch? {
      NewNeverPasses(cfg, c, l, p);
      forall e | e in after.log && e !in c.log
        ensures !e.PassedThrough?
      {
        AppendedMembers(c.log, after.log, e);
      }
    }
  }

  lemma NewNeverPasses(cfg: Config, c: Record, l: Label, p: ActivePolicy)
    requires Awaits(cfg, c, l) && !l.FetchAnswers? && !l.Dispatch?
    ensures var after := Advance(cfg, c, l, p);
            |after.log| == |c.log| + 1 ==> !after.log[|c.log|].PassedThrough?
  {
  }

  lemma HeardStep(cfg: Config, c: Record, l: Label, p: ActivePolicy, h: seq<Label>)
    requires Awaits(cfg, c, l) && Heard(cfg, l.r, c, h)
    ensures Heard(cfg, l.r, Advance(cfg, c, l, p), h + [l])
  {
    hide Advance, LogHeard, BufferHeard, PhaseHeard, BlockHeard, ImageHeard, HitHeard;
    AdvanceAppends(cfg, c, l, p);
    LogHeardStep(cfg, c, l, p, h);
    BufferHeardStep(cfg, c, l, p, h);
    PhaseHeardStep(cfg, c, l, p, h);
    HitHeardStep(cfg, c, l, p, h);
    if Blocking(l) {
      BlockingHeard(cfg, c, l, p, h);
    } else {
      NotBlockingHeard(cfg, c, l, p, h);
    }
    ImageHeardStep(cfg, c, l, p, h);
  }

  /** A request that has not arrived has no labels. */
  lemma {:induction false} NothingBeforeArrival(cfg: Config, ps: PolicySet, states: seq<State>, labels: seq<Label>,
                                                i: nat, r: ReqId)
    requires IsRun(cfg, ps, states, labels) && i < |states| && r !in states[i].requests
    ensures Own(labels[..i], r) == []
  {
    if i > 0 {
      RunStep(cfg, ps, states, labels, i - 1);
      OwnStep(labels, i - 1, r);
      NothingBeforeArrival(cfg, ps, states, labels, i - 1, r);
    }
  }

  lemma HeardNext(cfg: Config, s: State, l: Label, s': State, r: ReqId, h: seq<Label>)
    requires Enabled(cfg, s, l) && s' == Step(cfg, s, l) && r in s'.requests
    requires if r in s.requests then Heard(cfg, r, s.requests[r], h) else h == []
    ensures Heard(cfg, r, s'.requests[r], h + if OfRequest(l) && l.r == r then [l] else [])
  {
    if r in s.requests {
      hide Heard, Advance;
      if OfRequest(l) && l.r == r {
        HeardStep(cfg, s.requests[r], l, s.policy, h);
      } else {
        assert h + [] == h;
      }
    } else {
      assert h + [l] == [l];
    }
  }

  /** In every run, whatever a request holds, has logged or was answered, it was told by its own labels. */
  lemma {:induction false} HeardHolds(cfg: Config, ps: PolicySet, states: seq<State>, labels: seq<Label>, i: nat,
                                      r: ReqId)
    requires IsRun(cfg, ps, states, labels) && i < |states| && r in states[i].requests
    ensures Heard(cfg, r, states[i].requests[r], Own(labels[..i], r))
  {
    hide Heard, Step, Enabled, Own;
    if i > 0 {
      RunStep(cfg, ps, states, labels, i - 1);
      OwnStep(labels, i - 1, r);
      if r in states[i - 1].requests {
        HeardHolds(cfg, ps, states, labels, i - 1, r);
      } else {
        NothingBeforeArrival(cfg, ps, states, labels, i - 1, r);
      }
      HeardNext(cfg, states[i - 1], labels[i - 1], states[i], r, Own(labels[..i - 1], r));
    }
  }

  // ---- Every block ends in its report ----

  /** In every run, an answered request that was judged Blocked, or is unsupported under Block, is refused
      exactly when its requester could not be verified or its report could not be created; otherwise it is
      answered 403 with the link of its created report, and the report and its Blocked entry exist. */
  lemma BlocksEndInReports(cfg: Config, ps: PolicySet, states: seq<State>, labels: seq<Label>, i: nat, r: ReqId)
    requires IsRun(cfg, ps, states, labels) && i < |states| && r in states[i].requests
    requires states[i].requests[r].phase.Answered? && MustBlock(cfg, states[i].requests[r].log)
    ensures var a := states[i].requests[r].phase.answer;
            && (a == Refused <==> VerifyAnswers(r, false) in labels[..i] || ReportAnswers(r, None) in labels[..i])
            && (a != Refused ==>
                  && a.Forbidden? && ReportAnswers(r, Some(a.url)) in labels[..i]
                  && Report(r, a.block, a.url) in states[i].reports
                  && Decision(r, true, a.block, Some(a.url)) in states[i].decisions)
  {
    hide LedgerOk, Own;
    HeardHolds(cfg, ps, states, labels, i, r);
    HeardBlock(cfg, r, states[i].requests[r], Own(labels[..i], r));
    OwnMeaning(labels[..i], r);
    LedgerHolds(cfg, ps, states, labels, i);
    FiledAnswer(states[i], r);
  }

  lemma HeardBlock(cfg: Config, r: ReqId, c: Record, h: seq<Label>)
    requires Heard(cfg, r, c, h) && c.phase.Answered? && MustBlock(cfg, c.log)
    ensures c.phase.answer == Refused <==> Denied(r, h)
    ensures c.phase.answer != Refused ==> c.phase.answer.Forbidden? && ReportAnswers(r, Some(c.phase.answer.url)) in h
  {
    hide LogHeard, BufferHeard, ImageHeard, HitHeard;
  }

  lemma FiledAnswer(s: State, r: ReqId)
    requires LedgerOk(s) && r in s.requests && s.requests[r].phase.Answered?
    ensures var a := s.requests[r].phase.answer;
            a.Forbidden? ==>
              Report(r, a.block, a.url) in s.reports && Decision(r, true, a.block, Some(a.url)) in s.decisions
  {
    var a := s.requests[r].phase.answer;
    if a.Forbidden? {
      assert EntryShown(Decision(r, true, a.block, Some(a.url)), s.requests);
      assert Report(r, a.block, a.url).r == r;
    }
  }

  // ---- Nothing beyond the limits gets out ----

  lemma {:induction false} SameIncreasing(a: seq<nat>, b: seq<nat>)
    requires forall j, k :: 0 <= j < k < |a| ==> a[j] < a[k]
    requires forall j, k :: 0 <= j < k < |b| ==> b[j] < b[k]
    requires forall i: nat :: i in a <==> i in b
    ensures a == b
    decreases |a|
  {
    HeadIn(a);
    HeadIn(b);
    if a != [] {
      assert a[0] in b && b[0] in a;
      assert a[0] == b[0];
      TailMembersOf(a);
      TailMembersOf(b);
      SameIncreasing(a[1..], b[1..]);
      assert a == [a[0]] + a[1..] && b == [b[0]] + b[1..];
    }
  }

  lemma HeadIn(a: seq<nat>)
    ensures a != [] ==> a[0] in a
  {
  }

  lemma TailMembersOf(a: seq<nat>)
    requires a != [] && forall j, k :: 0 <= j < k < |a| ==> a[j] < a[k]
    ensures forall i: nat :: i in a[1..] <==> i in a && i != a[0]
  {
    assert a == [a[0]] + a[1..];
    forall i: nat | i in a[1..]
      ensures i != a[0]
    {
      var k :| 0 <= k < |a[1..]| && a[1..][k] == i;
      assert a[k + 1] == i;
    }
  }

  /** The counted vulnerabilities are determined by the list, so the verdict fits all there is to count. */
  lemma VerdictFits(ps: PolicySet, c: Context, t: ScanTarget, vs: seq<Vulnerability>, now: int, idx: seq<nat>,
                    counted: seq<Vulnerability>)
    requires Countables(ps, c, t, vs, now, idx) && Picks(counted, vs, idx)
    ensures Fits(Verdict(ps, c, t, vs, now), ps.Select(c), t, counted)
  {
    hide Verdict, Fits, Countable;
    VerdictMeaning(ps, c, t, vs, now);
    var idx', counted' :| Countables(ps, c, t, vs, now, idx') && Picks(counted', vs, idx')
                          && Fits(Verdict(ps, c, t, vs, now), ps.Select(c), t, counted');
    SameIncreasing(idx, idx');
    assert counted == counted';
  }

  /** In every run: whatever was judged and got out was, under the policy set of its judgement and at its
      instant, within the limits of the selected rule, unless that rule only reports. */
  lemma NothingBeyondLimitsGetsOut(cfg: Config, ps: PolicySet, states: seq<State>, labels: seq<Label>, i: nat, r: ReqId,
                                   e: Event, idx: seq<nat>, counted: seq<Vulnerability>)
    requires IsRun(cfg, ps, states, labels) && i < |states| && r in states[i].requests
    requires states[i].requests[r].phase.Answered? && LetThrough(states[i].requests[r].phase.answer)
    requires e in states[i].requests[r].log && e.Judged? && 1 <= e.generation <= |states[i].policies|
    requires var chosen := states[i].policies[e.generation - 1];
             var q := states[i].requests[r].request;
             var context := chosen.ContextFor(q.repository.name, q.repository.format);
             Countables(chosen, context, e.target, e.list, e.now, idx) && Picks(counted, e.list, idx)
    ensures var chosen := states[i].policies[e.generation - 1];
            var q := states[i].requests[r].request;
            var rule := chosen.Select(chosen.ContextFor(q.repository.name, q.repository.format));
            rule.mode == Enforce ==> Holds(rule.policy, counted)
  {
    hide Countables, Picks, Verdict, ReleaseExplained, PhaseOk, LogOk, ScannedOk, Holds, Step, Enabled;
    var c := states[i].requests[r];
    ReleaseSafety(cfg, ps, states, labels, i, r);
    SafetyHolds(cfg, ps, states, labels, i);
    JudgedAsSaid(KnownIn(cfg, states[i]), c, e);
    var chosen := states[i].policies[e.generation - 1];
    var context := chosen.ContextFor(c.request.repository.name, c.request.repository.format);
    VerdictFits(chosen, context, e.target, e.list, e.now, idx, counted);
  }

  lemma JudgedAsSaid(w: Known, c: Record, e: Event)
    requires RecordOk(w, c) && e in c.log && e.Judged?
    ensures FairVerdict(w.policies, c.request, e)
  {
    assert EventOk(w, c.request, c.log, e);
  }

  // ---- Images ----

  /** With `fail_open` off and unsupported targets blocked, a fetched manifest with an image's media type
      that is no attestation gets out on a favourable verdict only. */
  lemma ImagesNeedAVerdict(cfg: Config, ps: PolicySet, states: seq<State>, labels: seq<Label>, i: nat, r: ReqId,
                           fetch: ManifestFetch)
    requires IsRun(cfg, ps, states, labels) && i < |states| && r in states[i].requests
    requires !cfg.failOpen && !cfg.allowUnsupported
    requires states[i].requests[r].phase.Answered? && LetThrough(states[i].requests[r].phase.answer)
    requires FetchAnswers(r, fetch) in labels[..i] && fetch.Fetched?
    requires Docker.ImageType(fetch.contentType) && !fetch.attestation
    ensures var c := states[i].requests[r];
            exists e :: e in c.log && JudgedByOnePolicy(states[i], c.request, e) && !e.verdict.Blocked?
  {
    hide JudgedByOnePolicy, LogHeard, BufferHeard, PhaseHeard, BlockHeard, ReleaseExplained;
    HeardHolds(cfg, ps, states, labels, i, r);
    OwnMeaning(labels[..i], r);
    StrictReleaseSafety(cfg, ps, states, labels, i, r);
    var c := states[i].requests[r];
    assert !PassedThroughLog(c.log);
    if why :| PassedThrough(why) in c.log {
      assert PassedThrough(why).PassedThrough?;
    }
    FetchedOnly(cfg, ps, states, labels, i, r, fetch);
  }

  /** Only manifests are fetched first. */
  lemma {:induction false} FetchedOnly(cfg: Config, ps: PolicySet, states: seq<State>, labels: seq<Label>, i: nat,
                                       r: ReqId, fetch: ManifestFetch)
    requires IsRun(cfg, ps, states, labels) && i < |states| && FetchAnswers(r, fetch) in labels[..i]
    ensures r in states[i].requests && states[i].requests[r].request.ManifestRequest?
  {
    hide Step, Enabled;
    RunStep(cfg, ps, states, labels, i - 1);
    if labels[i - 1] != FetchAnswers(r, fetch) {
      assert labels[..i] == labels[..i - 1] + [labels[i - 1]];
      FetchedOnly(cfg, ps, states, labels, i - 1, r, fetch);
    }
    FetchersStay(cfg, states[i - 1], labels[i - 1], states[i], r, fetch);
  }

  lemma FetchersStay(cfg: Config, s: State, l: Label, s': State, r: ReqId, fetch: ManifestFetch)
    requires Enabled(cfg, s, l) && s' == Step(cfg, s, l)
    requires l == FetchAnswers(r, fetch) || (r in s.requests && s.requests[r].request.ManifestRequest?)
    ensures r in s'.requests && s'.requests[r].request.ManifestRequest?
  {
    RequestStays(cfg, s, l, r);
  }

  lemma RequestStays(cfg: Config, s: State, l: Label, r: ReqId)
    requires Enabled(cfg, s, l) && r in s.requests
    ensures r in NextRequests(cfg, s, l) && NextRequests(cfg, s, l)[r].request == s.requests[r].request
  {
    if OfRequest(l) && l.r == r {
      AdvanceAppends(cfg, s.requests[r], l, s.policy);
    }
  }

  // ---- Every answer has its step ----

  /** Which answers a step can end a request with, from the configuration, the request and what was said:
      the whole decision table of the proxy. */
  ghost predicate Ends(cfg: Config, s: State, l: Label, a: Response)
    requires Enabled(cfg, s, l) && OfRequest(l) && !l.Arrive?
  {
    var c := s.requests[l.r];
    match l
    case Dispatch(_) =>
      (match c.request
       case PackageRequest(_, _) => false
       case ArtifactRequest(_, _, _, head, range, scannerMapped) =>
         a == Forwarded && if scannerMapped && head then true else (!scannerMapped || range) && cfg.allowUnsupported
       case ManifestRequest(_, _, _, scannerMapped) => a == Forwarded && !scannerMapped)
    case FetchAnswers(_, FetchError) => a == if cfg.failOpen then Forwarded else Refused
    case FetchAnswers(_, FetchedOther) => a == OtherUpstream
    case FetchAnswers(_, Fetched(body, contentType, attestation, header)) =>
      if Docker.IndexType(contentType) || (Docker.ImageType(contentType) && attestation) then a == ReleasedBody(body)
      else
        && (!Docker.ImageType(contentType) || NoDigest(header, c.request.reference))
        && a == if cfg.failOpen then ReleasedBody(body) else Refused
    case SourceAnswers(_, SourceUnsupported) => cfg.allowUnsupported && a == Forwarded
    case SourceAnswers(_, SourceError) => a == if cfg.failOpen then Forwarded else Refused
    case AcquireFails(_) =>
      a == if !cfg.failOpen then Refused
           else if c.request.ManifestRequest? then ReleasedBody(c.buffer.Bytes()) else Forwarded
    case PrefetchAnswers(_, OtherStatus) => a == OtherUpstream
    case PrefetchAnswers(_, Buffering(TooLarge(streamStarted), usable)) =>
      cfg.allowUnsupported && a == if streamStarted || usable then Forwarded else Refused
    case PrefetchAnswers(_, prefetch) => Broke(prefetch) && a == if cfg.failOpen then Forwarded else Refused
    case ScanAnswers(_, None) => a == if cfg.failOpen then ReleasedBody(c.buffer.Bytes()) else Refused
    case Judge(_, now) =>
      && !VerdictUnder(s.policy.policySet, s.policy.evaluatorSet, c.request.repository, c.phase.target, c.phase.list,
                       now).Blocked?
      && a == if c.request.ManifestRequest? || (c.request.ArtifactRequest? && !c.origin.FromCache?)
              then ReleasedBody(c.buffer.Bytes()) else Forwarded
    case VerifyAnswers(_, ok) => !ok && a == Refused
    case ReportAnswers(_, created) => created.None? && a == Refused
    case Notify(_, _) => a == Forbidden(c.phase.block, c.phase.url)
    case _ => false
  }

  lemma DispatchEnds(cfg: Config, s: State, l: Label, a: Response)
    requires Enabled(cfg, s, l) && l.Dispatch?
    ensures NextRecord(cfg, s, l).phase == Answered(a) <==> Ends(cfg, s, l, a)
  {
  }

  lemma FetchEnds(cfg: Config, s: State, l: Label, a: Response)
    requires Enabled(cfg, s, l) && l.FetchAnswers?
    ensures NextRecord(cfg, s, l).phase == Answered(a) <==> Ends(cfg, s, l, a)
  {
    if l.fetch.Fetched? {
      Docker.KindMeaning(l.fetch.contentType);
      Docker.ManifestDigestMeaning(l.fetch.digestHeader, s.requests[l.r].request.reference, None);
    }
  }

  lemma PrefetchEnds(cfg: Config, s: State, l: Label, a: Response)
    requires Enabled(cfg, s, l) && l.PrefetchAnswers?
    ensures NextRecord(cfg, s, l).phase == Answered(a) <==> Ends(cfg, s, l, a)
  {
  }

  lemma ListEnds(cfg: Config, s: State, l: Label, a: Response)
    requires Enabled(cfg, s, l) && (l.CacheGet? || l.SourceAnswers? || l.ScanAnswers?)
    ensures NextRecord(cfg, s, l).phase == Answered(a) <==> Ends(cfg, s, l, a)
  {
  }

  lemma JudgeEnds(cfg: Config, s: State, l: Label, a: Response)
    requires Enabled(cfg, s, l) && l.Judge?
    ensures NextRecord(cfg, s, l).phase == Answered(a) <==> Ends(cfg, s, l, a)
  {
    hide VerdictUnder;
  }

  lemma PermitEnds(cfg: Config, s: State, l: Label, a: Response)
    requires Enabled(cfg, s, l) && (l.Acquire? || l.AcquireFails? || l.DropPermit? || l.CachePut?)
    ensures NextRecord(cfg, s, l).phase == Answered(a) <==> Ends(cfg, s, l, a)
  {
  }

  lemma BlockingEnds(cfg: Config, s: State, l: Label, a: Response)
    requires Enabled(cfg, s, l) && Blocking(l)
    ensures NextRecord(cfg, s, l).phase == Answered(a) <==> Ends(cfg, s, l, a)
  {
  }

  lemma StepEnds(cfg: Config, s: State, l: Label, a: Response)
    requires Enabled(cfg, s, l) && OfRequest(l) && !l.Arrive?
    ensures NextRecord(cfg, s, l).phase == Answered(a) <==> Ends(cfg, s, l, a)
  {
    hide Ends, NextRecord, Advance;
    if Blocking(l) {
      BlockingEnds(cfg, s, l, a);
    } else {
      match l
      case Dispatch(_) => DispatchEnds(cfg, s, l, a);
      case FetchAnswers(_, _) => FetchEnds(cfg, s, l, a);
      case PrefetchAnswers(_, _) => PrefetchEnds(cfg, s, l, a);
      case CacheGet(_, _) => ListEnds(cfg, s, l, a);
      case SourceAnswers(_, _) => ListEnds(cfg, s, l, a);
      case ScanAnswers(_, _) => ListEnds(cfg, s, l, a);
      case Judge(_, _) => JudgeEnds(cfg, s, l, a);
      case _ => PermitEnds(cfg, s, l, a);
    }
  }

  ghost predicate EndedAt(cfg: Config, states: seq<State>, labels: seq<Label>, k: nat, r: ReqId, a: Response)
    requires k < |labels| && k < |states|
  {
    && OfRequest(labels[k]) && !labels[k].Arrive? && labels[k].r == r
    && Enabled(cfg, states[k], labels[k]) && Ends(cfg, states[k], labels[k], a)
  }

  /** In every run, a request is answered with `a` exactly when one of its steps so far ends it so. */
  lemma AnswersExactly(cfg: Config, ps: PolicySet, states: seq<State>, labels: seq<Label>, i: nat, r: ReqId,
                       a: Response)
    requires IsRun(cfg, ps, states, labels) && i < |states|
    ensures AnsweredWith(states[i], r, a) <==>
            exists k: nat :: k < i && k < |labels| && EndedAt(cfg, states, labels, k, r, a)
  {
    if AnsweredWith(states[i], r, a) {
      var k := AnswerHasItsStep(cfg, ps, states, labels, i, r, a);
    }
    if k: nat :| k < i && k < |labels| && EndedAt(cfg, states, labels, k, r, a) {
      StepAnswers(cfg, ps, states, labels, k, r, a);
      AnswersAreFinal(cfg, ps, states, labels, k + 1, i, r, a);
    }
  }

  lemma StepAnswers(cfg: Config, ps: PolicySet, states: seq<State>, labels: seq<Label>, k: nat, r: ReqId, a: Response)
    requires IsRun(cfg, ps, states, labels) && k < |labels| && EndedAt(cfg, states, labels, k, r, a)
    ensures AnsweredWith(states[k + 1], r, a)
  {
    hide Ends;
    RunStep(cfg, ps, states, labels, k);
    StepEnds(cfg, states[k], labels[k], a);
  }

  lemma {:induction false} AnswerHasItsStep(cfg: Config, ps: PolicySet, states: seq<State>, labels: seq<Label>, i: nat,
                                            r: ReqId, a: Response) returns (k: nat)
    requires IsRun(cfg, ps, states, labels) && i < |states| && AnsweredWith(states[i], r, a)
    ensures k < i && k < |labels| && EndedAt(cfg, states, labels, k, r, a)
  {
    hide Ends, Step, Enabled, AnsweredWith;
    if i == 0 {
      NoneAnsweredYet(cfg, ps, r, a);
    }
    RunStep(cfg, ps, states, labels, i - 1);
    if AnsweredWith(states[i - 1], r, a) {
      k := AnswerHasItsStep(cfg, ps, states, labels, i - 1, r, a);
    } else {
      k := i - 1;
      AnswerComesFrom(cfg, states[k], labels[k], states[i], r, a);
    }
  }

  lemma NoneAnsweredYet(cfg: Config, ps: PolicySet, r: ReqId, a: Response)
    ensures !AnsweredWith(Initial(cfg, ps), r, a)
  {
  }

  lemma AnswerComesFrom(cfg: Config, s: State, l: Label, s': State, r: ReqId, a: Response)
    requires Enabled(cfg, s, l) && s' == Step(cfg, s, l) && AnsweredWith(s', r, a) && !AnsweredWith(s, r, a)
    ensures OfRequest(l) && !l.Arrive? && l.r == r && Ends(cfg, s, l, a)
  {
    hide Ends;
    assert OfRequest(l) && l.r == r && !l.Arrive?;
    StepEnds(cfg, s, l, a);
  }

  // ---- What the server remembers ----

  function Reloads(labels: seq<Label>): seq<PolicySet> {
    if labels == [] then []
    else
      var last := labels[|labels| - 1];
      Reloads(labels[..|labels| - 1]) + if last.ReloadPolicy? then [last.policies] else []
  }

  /** The installed policy sets are the first one and every one reloaded, in order; the last is active. */
  lemma {:induction false} PoliciesExactly(cfg: Config, ps: PolicySet, states: seq<State>, labels: seq<Label>, i: nat)
    requires IsRun(cfg, ps, states, labels) && i < |states|
    ensures states[i].policies == [ps] + Reloads(labels[..i])
    ensures var last := states[i].policies[|states[i].policies| - 1];
            states[i].policy == ActivePolicy(last, last, |states[i].policies|)
  {
    if i > 0 {
      hide Step, Enabled;
      PoliciesExactly(cfg, ps, states, labels, i - 1);
      RunStep(cfg, ps, states, labels, i - 1);
      StepReloads(cfg, states[i - 1], labels[i - 1], states[i]);
      assert labels[..i][..i - 1] == labels[..i - 1];
    }
  }

  lemma StepReloads(cfg: Config, s: State, l: Label, s': State)
    requires Enabled(cfg, s, l) && s' == Step(cfg, s, l)
    ensures if l.ReloadPolicy?
            then s'.policies == s.policies + [l.policies]
                 && s'.policy == ActivePolicy(l.policies, l.policies, s.policy.generation + 1)
            else s'.policies == s.policies && s'.policy == s.policy
  {
  }

  /** The step finished writing this list into the cache. */
  predicate PutAt(s: State, l: Label, o: Obtained) {
    && l.CachePut? && !l.error && l.r in s.requests
    && s.requests[l.r].phase == Caching(o.key, o.target, o.list)
  }

  /** The step obtained this list from the source or a scanner. */
  predicate ObtainedAt(s: State, l: Label, o: Obtained) {
    && ((l.SourceAnswers? && l.source == Found(o.list)) || (l.ScanAnswers? && l.result == Some(o.list)))
    && l.r in s.requests
    && (s.requests[l.r].phase == Querying(o.key, o.target) || s.requests[l.r].phase == Scanning(o.key, o.target))
  }

  /** The step queued this notification. */
  predicate NotifiedAt(s: State, l: Label, x: Report) {
    l == Notify(x.r, true) && x.r in s.requests && s.requests[x.r].phase == Notifying(x.block, x.url)
  }

  /** The step judged a list ReportOnly. */
  predicate ReportedAt(s: State, l: Label, d: Decision) {
    && l.Judge? && l.r == d.r && d.r in s.requests && s.requests[d.r].phase.Judging?
    && JudgedEvent(s.requests[d.r], s.policy, l.now).verdict == ReportOnly(d.block) && d.url.None?
  }

  lemma StoredStep(cfg: Config, s: State, l: Label, o: Obtained)
    requires Enabled(cfg, s, l)
    ensures o in NextStored(cfg, s, l) <==> o in s.stored || PutAt(s, l, o)
    ensures o in NextScanned(cfg, s, l) <==> o in s.scanned || ObtainedAt(s, l, o)
  {
  }

  lemma NotifiedStepExactly(cfg: Config, s: State, l: Label, x: Report)
    requires Enabled(cfg, s, l)
    ensures x in NextNotified(cfg, s, l) <==> x in s.notified || NotifiedAt(s, l, x)
  {
  }

  lemma ReportedStep(cfg: Config, s: State, l: Label, d: Decision)
    requires Enabled(cfg, s, l) && !d.blocked
    ensures d in NextDecisions(cfg, s, l) <==> d in s.decisions || ReportedAt(s, l, d)
  {
    hide VerdictUnder;
  }

  /** A list is on record exactly when a step obtained it from the source or a scanner. */
  lemma {:induction false} ScannedExactly(cfg: Config, ps: PolicySet, states: seq<State>, labels: seq<Label>, i: nat,
                                          o: Obtained)
    requires IsRun(cfg, ps, states, labels) && i < |states|
    ensures o in states[i].scanned <==> exists k :: 0 <= k < i && ObtainedAt(states[k], labels[k], o)
  {
    if i > 0 {
      hide Step, Enabled, PutAt, ObtainedAt;
      ScannedExactly(cfg, ps, states, labels, i - 1, o);
      RunStep(cfg, ps, states, labels, i - 1);
      StoredStep(cfg, states[i - 1], labels[i - 1], o);
      StepStores(cfg, states[i - 1], labels[i - 1], states[i]);
    }
  }

  /** A list is in the cache's reach exactly when a step finished writing it. */
  lemma {:induction false} StoredExactly(cfg: Config, ps: PolicySet, states: seq<State>, labels: seq<Label>, i: nat,
                                         o: Obtained)
    requires IsRun(cfg, ps, states, labels) && i < |states|
    ensures o in states[i].stored <==> exists k :: 0 <= k < i && PutAt(states[k], labels[k], o)
  {
    if i > 0 {
      hide Step, Enabled, PutAt, ObtainedAt;
      StoredExactly(cfg, ps, states, labels, i - 1, o);
      RunStep(cfg, ps, states, labels, i - 1);
      StoredStep(cfg, states[i - 1], labels[i - 1], o);
      StepStores(cfg, states[i - 1], labels[i - 1], states[i]);
    }
  }

  lemma StepStores(cfg: Config, s: State, l: Label, s': State)
    requires Enabled(cfg, s, l) && s' == Step(cfg, s, l)
    ensures s'.stored == NextStored(cfg, s, l) && s'.scanned == NextScanned(cfg, s, l)
    ensures s'.notified == NextNotified(cfg, s, l) && s'.decisions == NextDecisions(cfg, s, l)
  {
  }

  /** A notification was queued exactly by the step that had a recipient for it. */
  lemma {:induction false} NotifiedExactly(cfg: Config, ps: PolicySet, states: seq<State>, labels: seq<Label>, i: nat,
                                           x: Report)
    requires IsRun(cfg, ps, states, labels) && i < |states|
    ensures x in states[i].notified <==> exists k :: 0 <= k < i && NotifiedAt(states[k], labels[k], x)
  {
    if i > 0 {
      hide Step, Enabled, NotifiedAt;
      NotifiedExactly(cfg, ps, states, labels, i - 1, x);
      RunStep(cfg, ps, states, labels, i - 1);
      NotifiedStepExactly(cfg, states[i - 1], labels[i - 1], x);
      StepStores(cfg, states[i - 1], labels[i - 1], states[i]);
    }
  }

  /** A ReportOnly entry was pushed exactly by the step that judged so. */
  lemma {:induction false} ReportOnlyExactly(cfg: Config, ps: PolicySet, states: seq<State>, labels: seq<Label>, i: nat,
                                             d: Decision)
    requires IsRun(cfg, ps, states, labels) && i < |states| && !d.blocked
    ensures d in states[i].decisions <==> exists k :: 0 <= k < i && ReportedAt(states[k], labels[k], d)
  {
    if i > 0 {
      hide Step, Enabled, ReportedAt;
      ReportOnlyExactly(cfg, ps, states, labels, i - 1, d);
      RunStep(cfg, ps, states, labels, i - 1);
      ReportedStep(cfg, states[i - 1], labels[i - 1], d);
      StepStores(cfg, states[i - 1], labels[i - 1], states[i]);
    }
  }

  // ---- No answer of the world is refused ----

  /** Every package coordinate, every artifact path outside Docker repositories and every manifest of the
      Docker repository can be asked for, under any new number. */
  lemma AnyRequestCanArrive(cfg: Config, s: State, r: ReqId, repository: Repository, ecosystem: string, name: string,
                            version: string, image: string, reference: string, stripped: string, path: string,
                            head: bool, range: bool, mapped: bool)
    requires r !in s.requests
    ensures var target := Package(ecosystem, Osv(ecosystem, name), Some(version));
            Enabled(cfg, s, Arrive(r, PackageRequest(repository, target)))
    ensures repository.format != "docker" && '\n' !in path && StrippedPath(path) == Some(stripped) ==>
              Enabled(cfg, s, Arrive(r, ArtifactRequest(repository, Artifact(repository.format, stripped, None), path,
                                                        head, range, mapped)))
    ensures repository.name == cfg.dockerRepository ==>
              Enabled(cfg, s, Arrive(r, ManifestRequest(repository, image, reference, mapped)))
  {
  }

  /** The model takes whatever the world answers. While a list is looked for, each foreign outcome is a
      step, a lookup may miss and may hit with anything stored under its key, and a permit may be taken
      whenever one is free. */
  lemma EveryListIsPossible(cfg: Config, s: State, r: ReqId)
    requires r in s.requests && WellFormed(cfg, s.requests[r].request)
    ensures var phase := s.requests[r].phase;
            && (phase.Arrived? ==> Enabled(cfg, s, Dispatch(r)))
            && (phase.Fetching? && s.requests[r].request.ManifestRequest? ==>
                  forall f :: Enabled(cfg, s, FetchAnswers(r, f)))
            && (phase.Lookup? ==> Enabled(cfg, s, CacheGet(r, None)))
            && (phase.Lookup? ==>
                  forall o :: o in s.stored && o.key == phase.key ==> Enabled(cfg, s, CacheGet(r, Some(o))))
            && (phase.Querying? ==> forall x :: Enabled(cfg, s, SourceAnswers(r, x)))
            && (phase.AwaitingPermit? ==> Enabled(cfg, s, AcquireFails(r)))
            && (phase.AwaitingPermit? && s.available > 0 ==> Enabled(cfg, s, Acquire(r)))
  {
    hide WellFormed;
  }

  /** The same while it is scanned for, cached and judged. */
  lemma EveryScanIsPossible(cfg: Config, s: State, r: ReqId)
    requires r in s.requests
    ensures var phase := s.requests[r].phase;
            && (phase.Prefetching? ==>
                  forall p: PrefetchAnswer ::
                    (p.Buffering? ==> Prefetch.Agreeing(p.result)) ==> Enabled(cfg, s, PrefetchAnswers(r, p)))
            && (phase.Scanning? ==> forall x :: Enabled(cfg, s, ScanAnswers(r, x)))
            && (phase.Scanned? ==> Enabled(cfg, s, DropPermit(r)))
            && (phase.Caching? ==> forall error :: Enabled(cfg, s, CachePut(r, error)))
            && (phase.Judging? ==> forall now :: Enabled(cfg, s, Judge(r, now)))
  {
  }

  /** And while it is blocked. */
  lemma EveryReportIsPossible(cfg: Config, s: State, r: ReqId)
    requires r in s.requests
    ensures var phase := s.requests[r].phase;
            && (phase.Verifying? ==> forall ok :: Enabled(cfg, s, VerifyAnswers(r, ok)))
            && (phase.Reporting? ==> forall x :: Enabled(cfg, s, ReportAnswers(r, x)))
            && (phase.Recording? ==> Enabled(cfg, s, RecordDecision(r)))
            && (phase.Notifying? ==> forall b :: Enabled(cfg, s, Notify(r, b)))
  {
  }
}
