/** The notification queue and its delivery worker (crates/yandex-messenger/src/lib.rs). */
module Notifier {

  const QUEUE_CAPACITY: nat := 256
  const MAX_SEND_ATTEMPTS: nat := 3

  /** A notification is known by the number of the call that brought it. */
  datatype Command = Notification(n: nat) | Shutdown

  datatype Worker =
    | Idle
    | Rendering(n: nat)
    | Sending(n: nat, payload: nat, attempt: nat)
    | Sleeping(n: nat, payload: nat, attempt: nat)
    | Stopped

  datatype Result = Delivered | Transient | Permanent

  datatype Attempt = Attempt(n: nat, payload: nat, result: Result)

  datatype Ended = Ended(n: nat, sent: bool)

  /** The counters, plus what happened: the calls accepted into the queue and the deliveries begun, in order,
      the attempts made, and the deliveries ended. */
  datatype State = State(queue: seq<Command>, worker: Worker, calls: nat, sent: nat, failed: nat, retried: nat,
                         queueFull: nat, workerClosed: nat, discarded: nat, nextPayload: nat,
                         accepted: seq<nat>, begun: seq<nat>, attempts: seq<Attempt>, ended: seq<Ended>)

  const INITIAL: State := State([], Idle, 0, 0, 0, 0, 0, 0, 0, 1, [], [], [], [])

  datatype Label =
    | Notify
    | RequestShutdown
    | Receive
    | RenderFails
    | Rendered
    | SendAnswers(result: Result)
    | Wake
    | AbortWorker

  /** The receiver is dropped when the worker ends, and with it the channel closes. */
  predicate Closed(s: State) {
    s.worker.Stopped?
  }

  /** The notifications waiting in the queue, in order. */
  function Waiting(queue: seq<Command>): seq<nat> {
    if queue == [] then []
    else Waiting(queue[..|queue| - 1])
         + if queue[|queue| - 1].Notification? then [queue[|queue| - 1].n] else []
  }

  function InFlight(w: Worker): seq<nat> {
    if w.Idle? || w.Stopped? then [] else [w.n]
  }

  predicate Enabled(s: State, l: Label) {
    match l
    case Notify => true
    case RequestShutdown => !Closed(s) && |s.queue| < QUEUE_CAPACITY
    case Receive => s.worker.Idle? && s.queue != []
    case RenderFails => s.worker.Rendering?
    case Rendered => s.worker.Rendering?
    case SendAnswers(_) => s.worker.Sending?
    case Wake => s.worker.Sleeping?
    case AbortWorker => !Closed(s)
  }

  function Stop(s: State, lost: nat): State {
    s.(worker := Stopped, queue := [], discarded := s.discarded + lost)
  }

  function Finish(s: State, n: nat, ok: bool): State {
    s.(worker := Idle, ended := s.ended + [Ended(n, ok)],
       sent := if ok then s.sent + 1 else s.sent, failed := if ok then s.failed else s.failed + 1)
  }

  function Tried(s: State, result: Result): State
    requires s.worker.Sending?
  {
    s.(attempts := s.attempts + [Attempt(s.worker.n, s.worker.payload, result)])
  }

  function Step(s: State, l: Label): State
    requires Enabled(s, l)
  {
    match l
    case Notify =>
      var called := s.(calls := s.calls + 1);
      if Closed(s) then called.(workerClosed := s.workerClosed + 1)
      else if |s.queue| >= QUEUE_CAPACITY then called.(queueFull := s.queueFull + 1)
      else called.(queue := s.queue + [Notification(s.calls)], accepted := s.accepted + [s.calls])
    case RequestShutdown => s.(queue := s.queue + [Shutdown])
    case Receive =>
      if s.queue[0].Shutdown? then Stop(s, |Waiting(s.queue[1..])|)
      else s.(queue := s.queue[1..], worker := Rendering(s.queue[0].n), begun := s.begun + [s.queue[0].n])
    case RenderFails => Finish(s, s.worker.n, false)
    case Rendered => s.(worker := Sending(s.worker.n, s.nextPayload, 1), nextPayload := s.nextPayload + 1)
    case SendAnswers(result) =>
      if result.Delivered? then Finish(Tried(s, result), s.worker.n, true)
      else if result.Transient? && s.worker.attempt < MAX_SEND_ATTEMPTS then
        Tried(s, result).(worker := Sleeping(s.worker.n, s.worker.payload, s.worker.attempt), retried := s.retried + 1)
      else Finish(Tried(s, result), s.worker.n, false)
    case Wake => s.(worker := Sending(s.worker.n, s.worker.payload, s.worker.attempt + 1))
    case AbortWorker => Stop(s, |Waiting(s.queue)| + |InFlight(s.worker)|)
  }

  ghost predicate IsRun(states: seq<State>, labels: seq<Label>) {
    && |states| == |labels| + 1 && states[0] == INITIAL
    && forall i :: 0 <= i < |labels| ==> Enabled(states[i], labels[i]) && states[i + 1] == Step(states[i], labels[i])
  }

  // ---- The queue ----

  lemma WaitingSnoc(queue: seq<Command>, c: Command)
    ensures Waiting(queue + [c]) == Waiting(queue) + if c.Notification? then [c.n] else []
  {
    assert (queue + [c])[..|queue|] == queue;
  }

  lemma WaitingNone()
    ensures Waiting([]) == []
  {
  }

  lemma {:induction false} WaitingCons(queue: seq<Command>)
    requires queue != []
    ensures Waiting(queue) == (if queue[0].Notification? then [queue[0].n] else []) + Waiting(queue[1..])
  {
    hide Waiting;
    var n := |queue| - 1;
    var init, last := queue[..n], queue[n];
    assert queue == init + [last];
    WaitingSnoc(init, last);
    WaitingNone();
    if n == 0 {
      assert init == [] && queue[1..] == [];
    } else {
      WaitingCons(init);
      assert queue[1..] == init[1..] + [last];
      WaitingSnoc(init[1..], last);
      MoveLast(if queue[0].Notification? then [queue[0].n] else [], Waiting(init[1..]),
               if last.Notification? then [last.n] else []);
    }
  }

  lemma MoveLast(a: seq<nat>, b: seq<nat>, c: seq<nat>)
    ensures a + b + c == a + (b + c)
  {
  }

  /** First in, first out: what was accepted has been begun, in that order, or still waits in that order. */
  ghost predicate InOrder(s: State) {
    if s.worker.Stopped? then s.queue == [] && s.begun <= s.accepted
    else s.accepted == s.begun + Waiting(s.queue)
  }

  lemma InOrderStep(s: State, l: Label)
    requires InOrder(s) && Enabled(s, l)
    ensures InOrder(Step(s, l))
  {
    hide Waiting;
    match l
    case Notify =>
      WaitingSnoc(s.queue, Notification(s.calls));
      MoveLast(s.begun, Waiting(s.queue), [s.calls]);
    case RequestShutdown =>
      WaitingSnoc(s.queue, Shutdown);
      assert Waiting(s.queue) + [] == Waiting(s.queue);
    case Receive =>
      WaitingCons(s.queue);
      if s.queue[0].Notification? {
        MoveLast(s.begun, [s.queue[0].n], Waiting(s.queue[1..]));
      } else {
        assert [] + Waiting(s.queue[1..]) == Waiting(s.queue[1..]);
      }
    case _ =>
  }

  // ---- Accounting ----

  function SentAmong(ended: seq<Ended>): nat {
    if ended == [] then 0 else SentAmong(ended[..|ended| - 1]) + if ended[|ended| - 1].sent then 1 else 0
  }

  /** Every call is in exactly one place. */
  ghost predicate Conserved(s: State) {
    && s.calls ==
       s.sent + s.failed + s.queueFull + s.workerClosed + |Waiting(s.queue)| + |InFlight(s.worker)| + s.discarded
    && |s.queue| <= 256
    && s.calls == |s.accepted| + s.queueFull + s.workerClosed
    && s.sent == SentAmong(s.ended) && |s.ended| == s.sent + s.failed
  }

  lemma SentAmongSnoc(ended: seq<Ended>, e: Ended)
    ensures SentAmong(ended + [e]) == SentAmong(ended) + if e.sent then 1 else 0
  {
    assert (ended + [e])[..|ended|] == ended;
  }

  lemma ConservedStep(s: State, l: Label)
    requires Conserved(s) && Enabled(s, l)
    ensures Conserved(Step(s, l))
  {
    hide Waiting, SentAmong;
    match l
    case Notify => WaitingSnoc(s.queue, Notification(s.calls));
    case RequestShutdown => WaitingSnoc(s.queue, Shutdown);
    case Receive =>
      WaitingCons(s.queue);
      WaitingNone();
    case AbortWorker => WaitingNone();
    case RenderFails => SentAmongSnoc(s.ended, Ended(s.worker.n, false));
    case SendAnswers(result) => SentAmongSnoc(s.ended, Ended(s.worker.n, result.Delivered?));
    case _ =>
  }

  /** A call is turned away only by a stopped worker or by 256 waiting commands, and is counted as such. */
  lemma NotifyExactly(s: State)
    ensures var s' := Step(s, Notify);
            && (s.worker.Stopped? ==> s' == s.(calls := s.calls + 1, workerClosed := s.workerClosed + 1))
            && (!s.worker.Stopped? && |s.queue| >= 256 ==> s' == s.(calls := s.calls + 1, queueFull := s.queueFull + 1))
            && (!s.worker.Stopped? && |s.queue| < 256 ==>
                  s'.accepted == s.accepted + [s.calls] && s'.queue == s.queue + [Notification(s.calls)])
  {
  }

  // ---- Deliveries ----

  function EndedOnes(ended: seq<Ended>): seq<nat> {
    seq(|ended|, i requires 0 <= i < |ended| => ended[i].n)
  }

  /** Deliveries end in the order in which they began; only the last one begun can be in flight, or be cut
      off when the worker is aborted. */
  ghost predicate EndsInOrder(s: State) {
    if s.worker.Stopped? then EndedOnes(s.ended) <= s.begun && |s.begun| <= |s.ended| + 1
    else s.begun == EndedOnes(s.ended) + InFlight(s.worker)
  }

  lemma EndsInOrderStep(s: State, l: Label)
    requires EndsInOrder(s) && Enabled(s, l)
    ensures EndsInOrder(Step(s, l))
  {
    var s' := Step(s, l);
    if s'.ended != s.ended {
      assert EndedOnes(s'.ended) == EndedOnes(s.ended) + [s.worker.n];
    }
  }

  /** The calls are numbered, so no notification is delivered twice. */
  ghost predicate Numbered(s: State) {
    && (forall i :: 0 <= i < |s.accepted| ==> s.accepted[i] < s.calls)
    && (forall i, j :: 0 <= i < j < |s.accepted| ==> s.accepted[i] < s.accepted[j])
  }

  lemma NumberedStep(s: State, l: Label)
    requires Numbered(s) && Enabled(s, l)
    ensures Numbered(Step(s, l))
  {
  }

  /** The results of the attempts for one notification, in order. */
  function Results(attempts: seq<Attempt>, n: nat): seq<Result> {
    if attempts == [] then []
    else
      var last := attempts[|attempts| - 1];
      Results(attempts[..|attempts| - 1], n) + if last.n == n then [last.result] else []
  }

  ghost predicate AllTransient(results: seq<Result>) {
    forall i :: 0 <= i < |results| ==> results[i] == Transient
  }

  /** A delivery is sent when an attempt gets through, after at most two transient failures. */
  ghost predicate SentStory(results: seq<Result>) {
    1 <= |results| <= 3 && results[|results| - 1] == Delivered && AllTransient(results[..|results| - 1])
  }

  /** It fails without an attempt when there is no text, at once on a permanent failure, and otherwise only
      after three transient ones. */
  ghost predicate FailedStory(results: seq<Result>) {
    || results == []
    || (1 <= |results| <= 3 && results[|results| - 1] == Permanent && AllTransient(results[..|results| - 1]))
    || (|results| == 3 && AllTransient(results))
  }

  /** What has been tried for the delivery in flight. */
  ghost predicate CurrentStory(w: Worker, attempts: seq<Attempt>) {
    match w
    case Idle => true
    case Stopped => true
    case Rendering(n) => Results(attempts, n) == []
    case Sending(n, _, k) => 1 <= k <= 3 && |Results(attempts, n)| == k - 1 && AllTransient(Results(attempts, n))
    case Sleeping(n, _, k) => 1 <= k <= 2 && |Results(attempts, n)| == k && AllTransient(Results(attempts, n))
  }

  ghost predicate EndStory(e: Ended, attempts: seq<Attempt>) {
    if e.sent then SentStory(Results(attempts, e.n)) else FailedStory(Results(attempts, e.n))
  }

  /** Every ended delivery has its story, attempts belong to deliveries begun, and nothing was tried for
      those not begun. */
  ghost predicate Stories(s: State) {
    && (forall i :: 0 <= i < |s.ended| ==> EndStory(s.ended[i], s.attempts))
    && (forall i :: 0 <= i < |s.attempts| ==> s.attempts[i].n in s.begun)
    && CurrentStory(s.worker, s.attempts)
  }

  lemma ResultsSnoc(attempts: seq<Attempt>, a: Attempt, n: nat)
    ensures Results(attempts + [a], n) == Results(attempts, n) + if a.n == n then [a.result] else []
  {
    assert (attempts + [a])[..|attempts|] == attempts;
  }

  lemma {:induction false} NotTried(attempts: seq<Attempt>, n: nat)
    requires forall i :: 0 <= i < |attempts| ==> attempts[i].n != n
    ensures Results(attempts, n) == []
  {
    if attempts != [] {
      NotTried(attempts[..|attempts| - 1], n);
    }
  }

  /** The delivery in flight has not ended. */
  ghost predicate Separate(s: State) {
    forall i :: 0 <= i < |s.ended| && InFlight(s.worker) != [] ==> s.ended[i].n != s.worker.n
  }

  /** What comes next in the queue has not been begun. */
  ghost predicate NextIsNew(s: State) {
    s.worker.Idle? && s.queue != [] && s.queue[0].Notification? ==> s.queue[0].n !in s.begun
  }

  lemma FollowsFromOrder(s: State)
    requires InOrder(s) && EndsInOrder(s) && Numbered(s)
    ensures Separate(s) && NextIsNew(s)
  {
    if InFlight(s.worker) != [] {
      forall i | 0 <= i < |s.ended|
        ensures s.ended[i].n != s.worker.n
      {
        assert s.begun[i] == EndedOnes(s.ended)[i] == s.ended[i].n;
        assert s.begun[|s.ended|] == s.worker.n;
        assert s.accepted[i] == s.begun[i] && s.accepted[|s.ended|] == s.begun[|s.ended|];
      }
    }
    if s.worker.Idle? && s.queue != [] && s.queue[0].Notification? {
      WaitingCons(s.queue);
      var n := s.queue[0].n;
      assert s.accepted[|s.begun|] == n;
      forall i | 0 <= i < |s.begun|
        ensures s.begun[i] != n
      {
        assert s.accepted[i] == s.begun[i];
      }
    }
  }

  /** How one more result continues a delivery that has only failed transiently so far. */
  lemma NextResult(before: seq<Result>, result: Result)
    requires AllTransient(before) && |before| <= 2
    ensures var after := before + [result];
            && (result.Delivered? ==> SentStory(after))
            && (result.Permanent? ==> FailedStory(after))
            && (result.Transient? ==> AllTransient(after) && (|before| == 2 ==> FailedStory(after)))
  {
    assert (before + [result])[..|before|] == before;
  }

  /** An attempt for one delivery does not touch the story of another. */
  lemma OtherStories(ended: seq<Ended>, attempts: seq<Attempt>, a: Attempt)
    requires forall i :: 0 <= i < |ended| ==> EndStory(ended[i], attempts) && ended[i].n != a.n
    ensures forall i :: 0 <= i < |ended| ==> EndStory(ended[i], attempts + [a])
  {
    hide SentStory, FailedStory;
    forall i | 0 <= i < |ended|
      ensures EndStory(ended[i], attempts + [a])
    {
      ResultsSnoc(attempts, a, ended[i].n);
      assert Results(attempts, ended[i].n) + [] == Results(attempts, ended[i].n);
    }
  }

  lemma SendStories(s: State, result: Result)
    requires Stories(s) && Separate(s) && s.worker.Sending? && s.worker.n in s.begun
    ensures Stories(Step(s, SendAnswers(result)))
  {
    hide SentStory, FailedStory, Results;
    var a := Attempt(s.worker.n, s.worker.payload, result);
    ResultsSnoc(s.attempts, a, s.worker.n);
    NextResult(Results(s.attempts, s.worker.n), result);
    OtherStories(s.ended, s.attempts, a);
  }

  lemma ReceiveStories(s: State)
    requires Stories(s) && NextIsNew(s) && Enabled(s, Receive)
    ensures Stories(Step(s, Receive))
  {
    if s.queue[0].Notification? {
      assert forall i :: 0 <= i < |s.attempts| ==> s.attempts[i].n != s.queue[0].n;
      NotTried(s.attempts, s.queue[0].n);
    }
  }

  lemma StoriesStep(s: State, l: Label)
    requires Stories(s) && InOrder(s) && EndsInOrder(s) && Numbered(s) && Enabled(s, l)
    ensures Stories(Step(s, l))
  {
    FollowsFromOrder(s);
    match l
    case Receive => ReceiveStories(s);
    case SendAnswers(result) =>
      assert s.begun[|s.ended|] == s.worker.n;
      SendStories(s, result);
    case _ =>
  }

  // ---- Payloads and retries ----

  /** One payload id for all attempts of a delivery, and for no other. */
  ghost predicate SamePayload(s: State) {
    && (forall i, j :: 0 <= i < |s.attempts| && 0 <= j < |s.attempts| ==>
          (s.attempts[i].n == s.attempts[j].n <==> s.attempts[i].payload == s.attempts[j].payload))
    && (forall i :: 0 <= i < |s.attempts| ==> s.attempts[i].payload < s.nextPayload)
    && (s.worker.Sending? || s.worker.Sleeping? ==> PayloadOf(s, s.worker.n, s.worker.payload))
  }

  ghost predicate PayloadOf(s: State, n: nat, payload: nat) {
    payload < s.nextPayload
    && forall i :: 0 <= i < |s.attempts| ==> (s.attempts[i].n == n <==> s.attempts[i].payload == payload)
  }

  lemma {:induction false} TriedMeaning(attempts: seq<Attempt>, n: nat)
    ensures Results(attempts, n) == [] ==> forall i :: 0 <= i < |attempts| ==> attempts[i].n != n
  {
    if attempts != [] {
      TriedMeaning(attempts[..|attempts| - 1], n);
      assert forall i :: 0 <= i < |attempts| - 1 ==> attempts[..|attempts| - 1][i] == attempts[i];
    }
  }

  lemma SendPayload(s: State, result: Result)
    requires SamePayload(s) && s.worker.Sending?
    ensures SamePayload(Step(s, SendAnswers(result)))
  {
    assert PayloadOf(s, s.worker.n, s.worker.payload);
  }

  lemma RenderedPayload(s: State)
    requires SamePayload(s) && s.worker.Rendering? && Results(s.attempts, s.worker.n) == []
    ensures SamePayload(Step(s, Rendered))
  {
    TriedMeaning(s.attempts, s.worker.n);
  }

  lemma SamePayloadStep(s: State, l: Label)
    requires SamePayload(s) && Stories(s) && Enabled(s, l)
    ensures SamePayload(Step(s, l))
  {
    hide Results, Waiting, EndStory;
    match l
    case SendAnswers(result) => SendPayload(s, result);
    case Rendered => RenderedPayload(s);
    case _ =>
  }

  /** How often an attempt was followed by another. */
  function Retries(attempts: seq<Attempt>): nat {
    if attempts == [] then 0
    else
      var n := |attempts| - 1;
      var last := attempts[n];
      Retries(attempts[..n]) + if last.result.Transient? && |Results(attempts, last.n)| < 3 then 1 else 0
  }

  /** Exactly the transient failures of a first or second attempt are retried, so at most two per delivery. */
  ghost predicate RetriesCounted(s: State) {
    && s.retried == Retries(s.attempts)
    && s.retried <= 2 * |s.begun|
    && match s.worker
       case Rendering(_) => s.begun != [] && s.retried <= 2 * (|s.begun| - 1)
       case Sending(_, _, k) => s.begun != [] && s.retried <= 2 * (|s.begun| - 1) + k - 1
       case Sleeping(_, _, k) => s.begun != [] && s.retried <= 2 * (|s.begun| - 1) + k
       case _ => true
  }

  lemma RetriesCountedStep(s: State, l: Label)
    requires RetriesCounted(s) && Stories(s) && Enabled(s, l)
    ensures RetriesCounted(Step(s, l))
  {
    if l.SendAnswers? {
      hide Results, Retries, EndStory;
      var a := Attempt(s.worker.n, s.worker.payload, l.result);
      ResultsSnoc(s.attempts, a, s.worker.n);
      RetriesSnoc(s.attempts, a);
    } else {
      hide Results, Retries, EndStory, CurrentStory, Waiting;
    }
  }

  lemma RetriesSnoc(attempts: seq<Attempt>, a: Attempt)
    ensures Retries(attempts + [a])
            == Retries(attempts) + if a.result.Transient? && |Results(attempts + [a], a.n)| < 3 then 1 else 0
  {
    hide Results;
    assert (attempts + [a])[..|attempts|] == attempts;
  }

  // ---- Every run ----

  ghost predicate Invariant(s: State) {
    && InOrder(s) && Conserved(s) && EndsInOrder(s) && Numbered(s)
    && Stories(s) && SamePayload(s) && RetriesCounted(s)
  }

  lemma InvariantStep(s: State, l: Label)
    requires Invariant(s) && Enabled(s, l)
    ensures Invariant(Step(s, l))
  {
    hide Step, InOrder, Conserved, EndsInOrder, Numbered, Stories, SamePayload, RetriesCounted;
    InOrderStep(s, l);
    ConservedStep(s, l);
    EndsInOrderStep(s, l);
    NumberedStep(s, l);
    StoriesStep(s, l);
    SamePayloadStep(s, l);
    RetriesCountedStep(s, l);
  }

  lemma InitialOrder(s: State)
    requires s.queue == [] && s.accepted == [] && s.begun == [] && s.worker.Idle?
    ensures InOrder(s)
  {
    hide Waiting;
    WaitingNone();
  }

  lemma InitialEnds(s: State)
    requires s.ended == [] && s.begun == [] && s.worker.Idle?
    ensures EndsInOrder(s)
  {
    assert |EndedOnes(s.ended)| == 0;
  }

  lemma InitialAccount(s: State)
    requires s.queue == [] && s.worker.Idle? && s.accepted == [] && s.ended == []
    requires s.calls == s.sent == s.failed == s.queueFull == s.workerClosed == s.discarded == 0
    ensures Conserved(s) && Numbered(s)
  {
    hide Waiting, SentAmong;
    WaitingNone();
    NoneSent();
  }

  lemma NoneSent()
    ensures SentAmong([]) == 0 && Retries([]) == 0
  {
  }

  lemma InitialStories()
    ensures Stories(INITIAL) && SamePayload(INITIAL) && RetriesCounted(INITIAL)
  {
    hide Results, Retries;
    NoneSent();
  }

  lemma InitialInvariant()
    ensures Invariant(INITIAL)
  {
    hide InOrder, Conserved, EndsInOrder, Numbered, Stories, SamePayload, RetriesCounted;
    InitialOrder(INITIAL);
    InitialEnds(INITIAL);
    InitialAccount(INITIAL);
    InitialStories();
  }

  /** In every run: every call is accounted for exactly once; the queue never exceeds 256 and is first in,
      first out; each delivery ends once and in order, as sent exactly when an attempt got through, as failed
      without a text, on a permanent failure or after three transient ones; all its attempts share one
      payload id of its own; and exactly the first and second transient failures are retried. */
  lemma {:induction false} NotifierSafety(states: seq<State>, labels: seq<Label>, i: nat)
    requires IsRun(states, labels) && i < |states|
    ensures Invariant(states[i])
  {
    if i == 0 {
      InitialInvariant();
    } else {
      hide Step, Invariant;
      NotifierSafety(states, labels, i - 1);
      assert states[i - 1 + 1] == Step(states[i - 1], labels[i - 1]);
      InvariantStep(states[i - 1], labels[i - 1]);
    }
  }
}
