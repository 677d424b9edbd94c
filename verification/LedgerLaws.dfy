/** What every run of the gateway conserves: scanner permits, and for every block its report, its
    decision entry and its notification. */
module LedgerLaws {
  import opened Text
  import opened Policy
  import opened Evaluator
  import opened Gateway
  import opened GatewayLaws

  // ---- Counting requests ----

  ghost function Where(requests: map<ReqId, Record>, f: Record -> bool): set<ReqId> {
    set r | r in requests && f(requests[r])
  }

  function One(b: bool): nat {
    if b then 1 else 0
  }

  lemma WhereUpdate(requests: map<ReqId, Record>, r: ReqId, c: Record, f: Record -> bool)
    ensures |Where(requests[r := c], f)| == |Where(requests, f)| + One(f(c)) - One(r in requests && f(requests[r]))
  {
    var before, after := Where(requests, f), Where(requests[r := c], f);
    assert after == if f(c) then before + {r} else before - {r};
  }

  // ---- Permit conservation ----

  predicate HasPermit(c: Record) {
    c.permit
  }

  ghost predicate PermitsConserved(cfg: Config, available: int, requests: map<ReqId, Record>) {
    available >= 0 && available + |Where(requests, HasPermit)| == if cfg.concurrency < 1 then 1 else cfg.concurrency
  }

  /** A step takes from the semaphore exactly what it gives the request, and the reverse. */
  lemma PermitMoves(cfg: Config, s: State, l: Label)
    requires Enabled(cfg, s, l) && OfRequest(l)
    requires !l.Arrive? ==> s.requests[l.r].permit == HoldsPermit(s.requests[l.r].phase)
    ensures NextAvailable(s, l) + One(NextRecord(cfg, s, l).permit)
            == s.available + One(!l.Arrive? && s.requests[l.r].permit)
    ensures s.available >= 0 ==> NextAvailable(s, l) >= 0
  {
  }

  lemma PermitStep(cfg: Config, s: State, l: Label)
    requires SafetyInvariant(cfg, s) && PermitsConserved(cfg, s.available, s.requests) && Enabled(cfg, s, l)
    ensures PermitsConserved(cfg, NextAvailable(s, l), NextRequests(cfg, s, l))
  {
    if OfRequest(l) {
      HoldersAreScanning(cfg, s);
      PermitMoves(cfg, s, l);
      WhereUpdate(s.requests, l.r, NextRecord(cfg, s, l), HasPermit);
    }
  }

  ghost predicate OnlyScannersHold(requests: map<ReqId, Record>) {
    forall r :: r in requests ==> (requests[r].permit <==> HoldsPermit(requests[r].phase))
  }

  lemma HoldersAreScanning(cfg: Config, s: State)
    requires SafetyInvariant(cfg, s)
    ensures OnlyScannersHold(s.requests)
  {
    forall r | r in s.requests
      ensures s.requests[r].permit <==> HoldsPermit(s.requests[r].phase)
    {
      assert RecordOk(KnownIn(cfg, s), s.requests[r]);
    }
  }

  lemma {:induction false} PermitsHold(cfg: Config, ps: PolicySet, states: seq<State>, labels: seq<Label>, i: nat)
    requires IsRun(cfg, ps, states, labels) && i < |states|
    ensures PermitsConserved(cfg, states[i].available, states[i].requests)
  {
    if i == 0 {
      assert Where(states[0].requests, HasPermit) == {};
    } else {
      PermitsHold(cfg, ps, states, labels, i - 1);
      SafetyHolds(cfg, ps, states, labels, i - 1);
      RunStep(cfg, ps, states, labels, i - 1);
      PermitStep(cfg, states[i - 1], labels[i - 1]);
    }
  }

  /** Free permits plus holders is always the configured concurrency (at least one); exactly the
      requests that are prefetching, scanning or just scanned hold one; none is held while a report is
      created or after the answer. */
  lemma PermitConservation(cfg: Config, ps: PolicySet, states: seq<State>, labels: seq<Label>, i: nat)
    requires IsRun(cfg, ps, states, labels) && i < |states|
    ensures PermitsConserved(cfg, states[i].available, states[i].requests) && OnlyScannersHold(states[i].requests)
  {
    PermitsHold(cfg, ps, states, labels, i);
    SafetyHolds(cfg, ps, states, labels, i);
    HoldersAreScanning(cfg, states[i]);
  }

  // ---- Block accounting ----

  /** A report and the link it was created under. */
  datatype Filed = Filed(block: BlockReport, url: string)

  /** The report a request has been given, and the one its decision entry shows. */
  function ReportOf(c: Record): Option<Filed> {
    match c.phase
    case Recording(block, url) => Some(Filed(block, url))
    case Notifying(block, url) => Some(Filed(block, url))
    case Answered(Forbidden(block, url)) => Some(Filed(block, url))
    case _ => None
  }

  function EntryOf(c: Record): Option<Filed> {
    if c.phase.Recording? then None else ReportOf(c)
  }

  predicate HasReport(c: Record) {
    ReportOf(c).Some?
  }

  predicate HasEntry(c: Record) {
    EntryOf(c).Some?
  }

  function BlockedEntries(decisions: seq<Decision>): nat {
    if decisions == [] then 0
    else BlockedEntries(decisions[..|decisions| - 1]) + One(decisions[|decisions| - 1].blocked)
  }

  ghost predicate ReportsMatch(reports: seq<Report>, requests: map<ReqId, Record>) {
    && |reports| == |Where(requests, HasReport)|
    && forall x: Report ::
         x in reports <==> x.r in requests && ReportOf(requests[x.r]) == Some(Filed(x.block, x.url))
  }

  /** What a Blocked entry must show. */
  ghost predicate EntryShown(d: Decision, requests: map<ReqId, Record>) {
    d.url.Some? && d.r in requests && EntryOf(requests[d.r]) == Some(Filed(d.block, d.url.value))
  }

  ghost predicate EntriesMatch(decisions: seq<Decision>, requests: map<ReqId, Record>) {
    && BlockedEntries(decisions) == |Where(requests, HasEntry)|
    && forall d: Decision :: d.blocked ==> (d in decisions <==> EntryShown(d, requests))
  }

  ghost predicate NotifiedMatch(notified: seq<Report>, requests: map<ReqId, Record>) {
    forall x: Report :: x in notified ==> x.r in requests && requests[x.r].phase == Answered(Forbidden(x.block, x.url))
  }

  ghost predicate LedgerOk(s: State) {
    && ReportsMatch(s.reports, s.requests)
    && EntriesMatch(s.decisions, s.requests)
    && NotifiedMatch(s.notified, s.requests)
  }

  predicate BeforeReport(l: Label) {
    OfRequest(l) && !l.ReportAnswers? && !l.RecordDecision? && !l.Notify?
  }

  lemma DispatchNoReport(cfg: Config, c: Record)
    requires WellFormed(cfg, c.request)
    ensures ReportOf(DispatchRecord(cfg, c)).None?
  {
  }

  lemma FetchNoReport(cfg: Config, c: Record, fetch: ManifestFetch)
    requires c.request.ManifestRequest?
    ensures ReportOf(FetchRecord(cfg, c, fetch)).None?
  {
  }

  lemma PrefetchNoReport(cfg: Config, c: Record, prefetch: PrefetchAnswer)
    requires c.phase.Prefetching?
    ensures ReportOf(PrefetchRecord(cfg, c, prefetch)).None?
  {
  }

  /** No step before the report is created gives a request one. */
  lemma NoReportYet(cfg: Config, c: Record, l: Label, p: ActivePolicy)
    requires Awaits(cfg, c, l) && BeforeReport(l)
    ensures ReportOf(Advance(cfg, c, l, p)).None? && ReportOf(c).None?
  {
    match l
    case Dispatch(_) => DispatchNoReport(cfg, c);
    case FetchAnswers(_, fetch) => FetchNoReport(cfg, c, fetch);
    case PrefetchAnswers(_, prefetch) => PrefetchNoReport(cfg, c, prefetch);
    case _ =>
  }

  /** The report of the request that takes the step: before it, and after it. */
  function ReportBefore(s: State, l: Label): Option<Filed>
    requires OfRequest(l)
  {
    if l.r in s.requests then ReportOf(s.requests[l.r]) else None
  }

  function EntryBefore(s: State, l: Label): Option<Filed>
    requires OfRequest(l)
  {
    if l.r in s.requests then EntryOf(s.requests[l.r]) else None
  }

  function ReportAfter(cfg: Config, s: State, l: Label): Option<Filed>
    requires Enabled(cfg, s, l) && OfRequest(l)
  {
    match l
    case ReportAnswers(r, created) =>
      if created.Some? then Some(Filed(s.requests[r].phase.block, created.value)) else None
    case _ => ReportBefore(s, l)
  }

  function EntryAfter(cfg: Config, s: State, l: Label): Option<Filed>
    requires Enabled(cfg, s, l) && OfRequest(l)
  {
    match l
    case RecordDecision(r) => Some(Filed(s.requests[r].phase.block, s.requests[r].phase.url))
    case _ => EntryBefore(s, l)
  }

  /** How a step changes the report of its request: only its creation adds one, only the decision entry
      confirms it, and no other step touches either. */
  lemma LinkStep(cfg: Config, s: State, l: Label)
    requires Enabled(cfg, s, l) && OfRequest(l)
    ensures ReportOf(NextRecord(cfg, s, l)) == ReportAfter(cfg, s, l)
    ensures EntryOf(NextRecord(cfg, s, l)) == EntryAfter(cfg, s, l)
    ensures l.ReportAnswers? ==> ReportBefore(s, l).None?
    ensures l.RecordDecision? ==> EntryBefore(s, l).None?
  {
    if BeforeReport(l) && !l.Arrive? {
      NoReportYet(cfg, s.requests[l.r], l, s.policy);
    }
  }

  lemma ReportsKept(reports: seq<Report>, requests: map<ReqId, Record>, r: ReqId, c: Record)
    requires ReportsMatch(reports, requests)
    requires ReportOf(c) == if r in requests then ReportOf(requests[r]) else None
    ensures ReportsMatch(reports, requests[r := c])
  {
    WhereUpdate(requests, r, c, HasReport);
  }

  lemma ReportsAdd(reports: seq<Report>, requests: map<ReqId, Record>, r: ReqId, c: Record, filed: Filed)
    requires ReportsMatch(reports, requests) && r in requests
    requires ReportOf(requests[r]).None? && ReportOf(c) == Some(filed)
    ensures ReportsMatch(reports + [Report(r, filed.block, filed.url)], requests[r := c])
  {
    WhereUpdate(requests, r, c, HasReport);
  }

  lemma EntriesKept(decisions: seq<Decision>, requests: map<ReqId, Record>, r: ReqId, c: Record)
    requires EntriesMatch(decisions, requests)
    requires EntryOf(c) == if r in requests then EntryOf(requests[r]) else None
    ensures EntriesMatch(decisions, requests[r := c])
  {
    WhereUpdate(requests, r, c, HasEntry);
    forall d: Decision
      ensures EntryShown(d, requests[r := c]) <==> EntryShown(d, requests)
    {
    }
  }

  lemma EntriesAdd(decisions: seq<Decision>, requests: map<ReqId, Record>, r: ReqId, c: Record, filed: Filed)
    requires EntriesMatch(decisions, requests) && r in requests
    requires EntryOf(requests[r]).None? && EntryOf(c) == Some(filed)
    ensures EntriesMatch(decisions + [Decision(r, true, filed.block, Some(filed.url))], requests[r := c])
  {
    WhereUpdate(requests, r, c, HasEntry);
    var added := Decision(r, true, filed.block, Some(filed.url));
    assert (decisions + [added])[..|decisions|] == decisions;
    forall d: Decision | d.blocked
      ensures EntryShown(d, requests[r := c]) <==> EntryShown(d, requests) || d == added
    {
    }
  }

  lemma EntriesIgnoreAllowed(decisions: seq<Decision>, requests: map<ReqId, Record>, d: Decision)
    requires EntriesMatch(decisions, requests) && !d.blocked
    ensures EntriesMatch(decisions + [d], requests)
  {
    assert (decisions + [d])[..|decisions|] == decisions;
  }

  lemma ReportsStep(cfg: Config, s: State, l: Label, c: Record)
    requires ReportsMatch(s.reports, s.requests) && Enabled(cfg, s, l) && OfRequest(l)
    requires ReportOf(c) == ReportAfter(cfg, s, l) && (l.ReportAnswers? ==> ReportBefore(s, l).None?)
    ensures ReportsMatch(NextReports(cfg, s, l), s.requests[l.r := c])
  {
    if l.ReportAnswers? && l.created.Some? {
      ReportsAdd(s.reports, s.requests, l.r, c, Filed(s.requests[l.r].phase.block, l.created.value));
    } else {
      ReportsKept(s.reports, s.requests, l.r, c);
    }
  }

  lemma EntriesStep(cfg: Config, s: State, l: Label, c: Record)
    requires EntriesMatch(s.decisions, s.requests) && Enabled(cfg, s, l) && OfRequest(l)
    requires EntryOf(c) == EntryAfter(cfg, s, l) && (l.RecordDecision? ==> EntryBefore(s, l).None?)
    ensures EntriesMatch(NextDecisions(cfg, s, l), s.requests[l.r := c])
  {
    if l.RecordDecision? {
      EntriesAdd(s.decisions, s.requests, l.r, c, Filed(s.requests[l.r].phase.block, s.requests[l.r].phase.url));
    } else {
      EntriesKept(s.decisions, s.requests, l.r, c);
      if NextDecisions(cfg, s, l) != s.decisions {
        var last := NextDecisions(cfg, s, l)[|s.decisions|];
        EntriesIgnoreAllowed(s.decisions, s.requests[l.r := c], last);
      }
    }
  }

  lemma NotifiedStep(cfg: Config, s: State, l: Label)
    requires NotifiedMatch(s.notified, s.requests) && Enabled(cfg, s, l) && OfRequest(l)
    ensures NotifiedMatch(NextNotified(cfg, s, l), s.requests[l.r := NextRecord(cfg, s, l)])
  {
    assert !l.Arrive? ==> !s.requests[l.r].phase.Answered?;
  }

  lemma LedgerStep(cfg: Config, s: State, l: Label)
    requires LedgerOk(s) && Enabled(cfg, s, l)
    ensures LedgerOk(Step(cfg, s, l))
  {
    if OfRequest(l) {
      var c := NextRecord(cfg, s, l);
      LinkStep(cfg, s, l);
      ReportsStep(cfg, s, l, c);
      EntriesStep(cfg, s, l, c);
      NotifiedStep(cfg, s, l);
    }
  }

  lemma {:induction false} LedgerHolds(cfg: Config, ps: PolicySet, states: seq<State>, labels: seq<Label>, i: nat)
    requires IsRun(cfg, ps, states, labels) && i < |states|
    ensures LedgerOk(states[i])
  {
    if i == 0 {
      assert Where(states[0].requests, HasReport) == {} && Where(states[0].requests, HasEntry) == {};
    } else {
      LedgerHolds(cfg, ps, states, labels, i - 1);
      RunStep(cfg, ps, states, labels, i - 1);
      LedgerStep(cfg, states[i - 1], labels[i - 1]);
    }
  }

  ghost predicate AllAnswered(s: State) {
    forall r :: r in s.requests ==> s.requests[r].phase.Answered?
  }

  ghost predicate Accounted(s: State) {
    && |s.reports| == BlockedEntries(s.decisions)
    && (forall x: Report ::
          x in s.reports <==> x.r in s.requests && s.requests[x.r].phase == Answered(Forbidden(x.block, x.url)))
    && (forall x: Report :: x in s.reports <==> Decision(x.r, true, x.block, Some(x.url)) in s.decisions)
    && (forall d :: d in s.decisions && d.blocked ==> d.url.Some?)
    && (forall x :: x in s.notified ==> x in s.reports)
  }

  lemma LedgerSettled(s: State)
    requires LedgerOk(s) && AllAnswered(s)
    ensures Accounted(s)
  {
    assert Where(s.requests, HasReport) == Where(s.requests, HasEntry);
    forall x: Report
      ensures x in s.reports <==> x.r in s.requests && s.requests[x.r].phase == Answered(Forbidden(x.block, x.url))
      ensures x in s.reports <==> Decision(x.r, true, x.block, Some(x.url)) in s.decisions
    {
      assert EntryShown(Decision(x.r, true, x.block, Some(x.url)), s.requests)
        <==> x.r in s.requests && ReportOf(s.requests[x.r]) == Some(Filed(x.block, x.url));
    }
  }

  /** Once every request is answered, as many reports were created as Blocked entries pushed, and for
      every request, report and link the three agree: the report created, the entry and the 403 body.
      Only such requests were notified. */
  lemma BlockAccounting(cfg: Config, ps: PolicySet, states: seq<State>, labels: seq<Label>, i: nat)
    requires IsRun(cfg, ps, states, labels) && i < |states| && AllAnswered(states[i])
    ensures Accounted(states[i])
  {
    LedgerHolds(cfg, ps, states, labels, i);
    LedgerSettled(states[i]);
  }

  lemma ReportGrounds(w: Known, c: Record, filed: Filed)
    requires RecordOk(w, c) && ReportOf(c) == Some(filed)
    ensures Grounds(w.cfg, c.request, c.log, filed.block)
  {
  }

  lemma ReportHasGrounds(cfg: Config, s: State, x: Report)
    requires SafetyInvariant(cfg, s) && ReportsMatch(s.reports, s.requests) && x in s.reports
    ensures x.r in s.requests && BlockExplained(cfg, s, s.requests[x.r], x.block)
  {
    hide LogOk, PhaseOk, Grounds, BlockExplained, ScannedOk;
    ReportGrounds(KnownIn(cfg, s), s.requests[x.r], Filed(x.block, x.url));
    GroundsExplained(cfg, s, s.requests[x.r], x.block);
  }

  /** At every moment, every report ever created holds the report of its own request's Blocked verdict,
      or is about its own request's unsupported target. */
  lemma ReportsAreOfTheirVerdicts(cfg: Config, ps: PolicySet, states: seq<State>, labels: seq<Label>, i: nat, x: Report)
    requires IsRun(cfg, ps, states, labels) && i < |states| && x in states[i].reports
    ensures x.r in states[i].requests && BlockExplained(cfg, states[i], states[i].requests[x.r], x.block)
  {
    SafetyHolds(cfg, ps, states, labels, i);
    LedgerHolds(cfg, ps, states, labels, i);
    ReportHasGrounds(cfg, states[i], x);
  }

  // ---- Denied requests ----

  ghost predicate LeavesNothing(s: State, r: ReqId) {
    && (forall x :: x in s.reports ==> x.r != r)
    && (forall d :: d in s.decisions && d.blocked ==> d.r != r)
    && (forall x :: x in s.notified ==> x.r != r)
  }

  predicate AnsweredWith(s: State, r: ReqId, a: Response) {
    r in s.requests && s.requests[r].phase == Answered(a)
  }

  lemma AnswerKept(cfg: Config, s: State, l: Label, s': State, r: ReqId, a: Response)
    requires Enabled(cfg, s, l) && s' == Step(cfg, s, l) && AnsweredWith(s, r, a)
    ensures AnsweredWith(s', r, a)
  {
    assert OfRequest(l) && !l.Arrive? ==> Awaits(cfg, s.requests[l.r], l);
  }

  /** An answer is final. */
  lemma {:induction false} AnswersAreFinal(cfg: Config, ps: PolicySet, states: seq<State>, labels: seq<Label>,
                                           i: nat, j: nat, r: ReqId, a: Response)
    requires IsRun(cfg, ps, states, labels) && i <= j < |states| && AnsweredWith(states[i], r, a)
    ensures AnsweredWith(states[j], r, a)
    decreases j
  {
    if i < j {
      hide Step, Enabled;
      AnswersAreFinal(cfg, ps, states, labels, i, j - 1, r, a);
      RunStep(cfg, ps, states, labels, j - 1);
      AnswerKept(cfg, states[j - 1], labels[j - 1], states[j], r, a);
    }
  }

  lemma OnlyForbiddenLeaves(s: State, r: ReqId, a: Response)
    requires LedgerOk(s) && AnsweredWith(s, r, a) && !a.Forbidden?
    ensures LeavesNothing(s, r)
  {
    forall d | d in s.decisions && d.blocked
      ensures d.r != r
    {
      assert EntryShown(d, s.requests);
    }
  }

  predicate Denies(l: Label, r: ReqId) {
    l == VerifyAnswers(r, false) || l == ReportAnswers(r, None)
  }

  lemma DenialRefuses(cfg: Config, s: State, l: Label, r: ReqId)
    requires Enabled(cfg, s, l) && Denies(l, r)
    ensures AnsweredWith(Step(cfg, s, l), r, Refused)
  {
  }

  /** A failed requester verification or a failed report creation refuses the request for good, and at
      no later point is there a report, a Blocked entry or a notification for it. */
  lemma DenialLeavesNothing(cfg: Config, ps: PolicySet, states: seq<State>, labels: seq<Label>, i: nat, j: nat,
                            r: ReqId)
    requires IsRun(cfg, ps, states, labels) && i < |labels| && i < j < |states| && Denies(labels[i], r)
    ensures AnsweredWith(states[j], r, Refused) && LeavesNothing(states[j], r)
  {
    RunStep(cfg, ps, states, labels, i);
    DenialRefuses(cfg, states[i], labels[i], r);
    AnswersAreFinal(cfg, ps, states, labels, i + 1, j, r, Refused);
    LedgerHolds(cfg, ps, states, labels, j);
    OnlyForbiddenLeaves(states[j], r, Refused);
  }
}
