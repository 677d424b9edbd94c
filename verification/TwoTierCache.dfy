/** The scan cache: two tiers with their own lifetimes. Every operation of the cache is two awaited
    halves, so operations on one key can overlap (crates/cache/src/moka.rs). */
module TwoTierCache {
  import opened Text
  import opened Targets
  import opened Policy

  type Scan = seq<Vulnerability>

  datatype Tier = CleanTier | VulnerableTier

  function TierOf(scan: Scan): Tier {
    if scan != [] then VulnerableTier else CleanTier
  }

  datatype Stamped = Stamped(scan: Scan, at: int)

  datatype Tiers = Tiers(clean: map<CacheKey, Stamped>, vulnerable: map<CacheKey, Stamped>)
  {
    function In(t: Tier): map<CacheKey, Stamped> {
      if t.CleanTier? then clean else vulnerable
    }

    function With(t: Tier, k: CacheKey, e: Stamped): Tiers {
      if t.CleanTier? then this.(clean := clean[k := e]) else this.(vulnerable := vulnerable[k := e])
    }

    function Without(t: Tier, k: CacheKey): Tiers {
      if t.CleanTier? then this.(clean := clean - {k}) else this.(vulnerable := vulnerable - {k})
    }
  }

  /** Lifetimes of the two tiers. */
  datatype Lifetimes = Lifetimes(allowed: nat, blocked: nat)
  {
    function Of(t: Tier): nat {
      if t.CleanTier? then allowed else blocked
    }
  }

  function Other(t: Tier): Tier {
    if t.CleanTier? then VulnerableTier else CleanTier
  }

  /** One tier asked for a key. */
  function Ask(c: Tiers, t: Tier, ttl: Lifetimes, k: CacheKey, now: int): Option<Scan> {
    if k in c.In(t) && now < c.In(t)[k].at + ttl.Of(t) then Some(c.In(t)[k].scan) else None
  }

  /** The vulnerable tier answers first. */
  function Lookup(c: Tiers, ttl: Lifetimes, k: CacheKey, now: int): Option<Scan> {
    var first := Ask(c, VulnerableTier, ttl, k, now);
    if first.Some? then first else Ask(c, CleanTier, ttl, k, now)
  }

  class MokaScanCache {
    var clean: map<CacheKey, Stamped>
    var vulnerable: map<CacheKey, Stamped>
    const ttl: Lifetimes

    constructor (allowed: nat, blocked: nat)
      ensures Contents() == Tiers(map[], map[]) && ttl == Lifetimes(allowed, blocked)
    {
      clean, vulnerable := map[], map[];
      ttl := Lifetimes(allowed, blocked);
    }

    function Contents(): Tiers
      reads this
    {
      Tiers(clean, vulnerable)
    }

    method Get(key: CacheKey, now: int) returns (r: Option<Scan>)
      ensures r == Lookup(Contents(), ttl, key, now)
    {
      if key in vulnerable && now < vulnerable[key].at + ttl.blocked {
        return Some(vulnerable[key].scan);
      }
      if key in clean && now < clean[key].at + ttl.allowed {
        return Some(clean[key].scan);
      }
      return None;
    }

    /** First awaited half of a put: clear the other tier. */
    method BeginPut(op: OpId, key: CacheKey, scan: Scan, now: int)
      modifies this
      ensures Contents() == Effect(old(Contents()), Begin(op, key, scan), now)
    {
      if scan != [] {
        clean := clean - {key};
      } else {
        vulnerable := vulnerable - {key};
      }
    }

    /** Second awaited half: insert into the scan's own tier. */
    method FinishPut(op: OpId, key: CacheKey, scan: Scan, now: int)
      modifies this
      ensures Contents() == Effect(old(Contents()), Finish(op, key, scan), now)
    {
      if scan != [] {
        vulnerable := vulnerable[key := Stamped(scan, now)];
      } else {
        clean := clean[key := Stamped(scan, now)];
      }
    }

    /** The two awaited halves of an invalidation. */
    method DropFrom(tier: Tier, key: CacheKey, now: int)
      modifies this
      ensures Contents() == Effect(old(Contents()), Drop(key, tier), now)
    {
      if tier.CleanTier? {
        clean := clean - {key};
      } else {
        vulnerable := vulnerable - {key};
      }
    }
  }

  // ---- Runs of half-steps ----

  type OpId = nat

  /** The halves of a put carry the number of the put. `Drop` is half of an invalidation, `Lose` is
      eviction or removal of an expired entry, at any moment. */
  datatype Event =
    | Begin(op: OpId, key: CacheKey, scan: Scan)
    | Finish(op: OpId, key: CacheKey, scan: Scan)
    | Drop(key: CacheKey, tier: Tier)
    | Lose(key: CacheKey, tier: Tier)
    | Pass(time: nat)

  function Effect(c: Tiers, e: Event, now: int): Tiers {
    match e
    case Begin(_, k, scan) => c.Without(Other(TierOf(scan)), k)
    case Finish(_, k, scan) => c.With(TierOf(scan), k, Stamped(scan, now))
    case Drop(k, t) => c.Without(t, k)
    case Lose(k, t) => c.Without(t, k)
    case Pass(_) => c
  }

  function Clock(events: seq<Event>): int {
    if events == [] then 0
    else
      var last := events[|events| - 1];
      Clock(events[..|events| - 1]) + if last.Pass? then last.time else 0
  }

  function Run(events: seq<Event>): Tiers {
    if events == [] then Tiers(map[], map[])
    else
      var before := events[..|events| - 1];
      Effect(Run(before), events[|events| - 1], Clock(before))
  }

  // ---- What a tier holds ----

  predicate Writes(e: Event, k: CacheKey, t: Tier) {
    e.Finish? && e.key == k && TierOf(e.scan) == t
  }

  predicate Removes(e: Event, k: CacheKey, t: Tier) {
    match e
    case Begin(_, key, scan) => key == k && TierOf(scan) != t
    case Drop(key, tier) => key == k && tier == t
    case Lose(key, tier) => key == k && tier == t
    case _ => false
  }

  /** The `i`-th event wrote the entry and nothing has overwritten or removed it since. */
  ghost predicate Stands(events: seq<Event>, k: CacheKey, t: Tier, i: nat) {
    && i < |events| && Writes(events[i], k, t)
    && forall j :: i < j < |events| ==> !Writes(events[j], k, t) && !Removes(events[j], k, t)
  }

  function EntryOf(events: seq<Event>, i: nat): Stamped
    requires i < |events| && events[i].Finish?
  {
    Stamped(events[i].scan, Clock(events[..i]))
  }

  lemma EffectOnTier(c: Tiers, e: Event, now: int, k: CacheKey, t: Tier)
    ensures Writes(e, k, t) ==> k in Effect(c, e, now).In(t) && Effect(c, e, now).In(t)[k] == Stamped(e.scan, now)
    ensures Removes(e, k, t) ==> k !in Effect(c, e, now).In(t)
    ensures !Writes(e, k, t) && !Removes(e, k, t) ==>
              (k in Effect(c, e, now).In(t) <==> k in c.In(t))
              && (k in c.In(t) ==> Effect(c, e, now).In(t)[k] == c.In(t)[k])
  {
  }

  lemma StandsSnoc(before: seq<Event>, e: Event, k: CacheKey, t: Tier, i: nat)
    requires i < |before|
    ensures Stands(before + [e], k, t, i) <==> Stands(before, k, t, i) && !Writes(e, k, t) && !Removes(e, k, t)
  {
    var all := before + [e];
    assert all[|before|] == e;
    assert forall j :: 0 <= j < |before| ==> all[j] == before[j];
  }

  /** However the halves interleave: a tier holds exactly the scans whose writing stands, stamped with
      the time of their writing. */
  lemma {:induction false} TierExactly(events: seq<Event>, k: CacheKey, t: Tier)
    ensures k in Run(events).In(t) <==> exists i: nat :: Stands(events, k, t, i)
    ensures forall i: nat :: Stands(events, k, t, i) ==> Run(events).In(t)[k] == EntryOf(events, i)
  {
    if events != [] {
      var n := |events| - 1;
      var before, e := events[..n], events[n];
      assert events == before + [e];
      TierExactly(before, k, t);
      EffectOnTier(Run(before), e, Clock(before), k, t);
      forall i: nat | i < n
        ensures Stands(events, k, t, i) <==> Stands(before, k, t, i) && !Writes(e, k, t) && !Removes(e, k, t)
        ensures events[..i] == before[..i]
      {
        StandsSnoc(before, e, k, t, i);
      }
      if Writes(e, k, t) {
        assert Stands(events, k, t, n);
      }
      if i: nat :| Stands(before, k, t, i) && !Writes(e, k, t) && !Removes(e, k, t) {
        assert Stands(events, k, t, i);
      }
    }
  }

  /** The clean tier holds only empty scans, the vulnerable tier only scans with findings. */
  lemma TiersHoldTheirKind(events: seq<Event>, k: CacheKey)
    ensures k in Run(events).clean ==> Run(events).clean[k].scan == []
    ensures k in Run(events).vulnerable ==> Run(events).vulnerable[k].scan != []
  {
    TierExactly(events, k, CleanTier);
    TierExactly(events, k, VulnerableTier);
  }

  /** Both tiers hold a key exactly when a clean scan and one with findings both stand. */
  lemma BothTiersExactly(events: seq<Event>, k: CacheKey)
    ensures k in Run(events).clean && k in Run(events).vulnerable <==>
            exists i: nat, j: nat :: Stands(events, k, CleanTier, i) && Stands(events, k, VulnerableTier, j)
  {
    TierExactly(events, k, CleanTier);
    TierExactly(events, k, VulnerableTier);
  }

  // ---- Overlapping puts ----

  /** The two halves of one put of `k`. */
  predicate Halves(events: seq<Event>, k: CacheKey, b: nat, f: nat) {
    b < f < |events| && events[f].Finish? && events[f].key == k && events[b] == Begin(events[f].op, k, events[f].scan)
  }

  /** A put never finishes before it has begun. */
  ghost predicate Begun(events: seq<Event>) {
    forall f :: 0 <= f < |events| && events[f].Finish? ==> exists b: nat :: Halves(events, events[f].key, b, f)
  }

  /** A put of the other kind finishes, at `m`, between the halves of a put of `k`. */
  predicate Crossed(events: seq<Event>, k: CacheKey, b: nat, m: nat, f: nat) {
    Halves(events, k, b, f) && b < m < f && Writes(events[m], k, Other(TierOf(events[f].scan)))
  }

  ghost predicate Overlap(events: seq<Event>, k: CacheKey) {
    exists b: nat, m: nat, f: nat :: Crossed(events, k, b, m, f)
  }

  /** If an older entry of one kind survives a finished put of the other kind, it was written between
      that put's halves. */
  lemma SurvivorCrosses(events: seq<Event>, k: CacheKey, t: Tier, i: nat, f: nat) returns (b: nat)
    requires Begun(events) && Stands(events, k, t, i) && i < f < |events| && Writes(events[f], k, Other(t))
    ensures Crossed(events, k, b, i, f)
  {
    b :| Halves(events, k, b, f);
    assert Removes(events[b], k, t);
  }

  /** Only overlapping puts can leave a key in both tiers. */
  lemma BothTiersNeedOverlap(events: seq<Event>, k: CacheKey)
    requires Begun(events) && k in Run(events).clean && k in Run(events).vulnerable
    ensures Overlap(events, k)
  {
    BothTiersExactly(events, k);
    var i: nat, j: nat :| Stands(events, k, CleanTier, i) && Stands(events, k, VulnerableTier, j);
    if i < j {
      var b := SurvivorCrosses(events, k, CleanTier, i, j);
    } else {
      var b := SurvivorCrosses(events, k, VulnerableTier, j, i);
    }
  }

  // ---- Lookups ----

  /** A lookup asks the vulnerable tier after `events` and, if that misses, the clean tier after
      `later` as well: anything may happen between its two awaits. */
  function SplitLookup(events: seq<Event>, later: seq<Event>, ttl: Lifetimes, k: CacheKey): Option<Scan> {
    var first := Ask(Run(events), VulnerableTier, ttl, k, Clock(events));
    if first.Some? then first else Ask(Run(events + later), CleanTier, ttl, k, Clock(events + later))
  }

  /** Whether a standing entry is still within its lifetime. */
  ghost predicate Live(events: seq<Event>, ttl: Lifetimes, k: CacheKey, t: Tier, i: nat) {
    Stands(events, k, t, i) && Clock(events) < Clock(events[..i]) + if t == CleanTier then ttl.allowed else ttl.blocked
  }

  /** One tier answers exactly with the scan that stands and lives there. */
  lemma AskExactly(events: seq<Event>, ttl: Lifetimes, k: CacheKey, t: Tier, scan: Scan)
    ensures Ask(Run(events), t, ttl, k, Clock(events)) == Some(scan) <==>
            exists i: nat :: Live(events, ttl, k, t, i) && events[i].scan == scan
  {
    TierExactly(events, k, t);
    if Ask(Run(events), t, ttl, k, Clock(events)) == Some(scan) {
      var i: nat :| Stands(events, k, t, i);
      assert Live(events, ttl, k, t, i);
    }
  }

  ghost predicate PutOf(events: seq<Event>, k: CacheKey, scan: Scan) {
    exists i :: 0 <= i < |events| && events[i].Finish? && events[i].key == k && events[i].scan == scan
  }

  /** In every run and for every split lookup, a hit is the scan of some finished put of that key. This
      is all that the request protocol relies on. */
  lemma HitIsSomePut(events: seq<Event>, later: seq<Event>, ttl: Lifetimes, k: CacheKey, scan: Scan)
    requires SplitLookup(events, later, ttl, k) == Some(scan)
    ensures PutOf(events + later, k, scan)
  {
    var all := events + later;
    AskExactly(events, ttl, k, VulnerableTier, scan);
    AskExactly(all, ttl, k, CleanTier, scan);
    if Ask(Run(events), VulnerableTier, ttl, k, Clock(events)) == Some(scan) {
      var i: nat :| Live(events, ttl, k, VulnerableTier, i) && events[i].scan == scan;
      assert all[i] == events[i];
    }
  }

  /** The latest finished put of a key, with nothing since that clears its tier, within its lifetime. */
  ghost predicate LatestPut(events: seq<Event>, ttl: Lifetimes, k: CacheKey, scan: Scan, i: nat) {
    && Live(events, ttl, k, TierOf(scan), i) && events[i].scan == scan
    && forall j :: i < j < |events| ==> !(events[j].Finish? && events[j].key == k)
  }

  lemma LiveIsLatest(events: seq<Event>, ttl: Lifetimes, k: CacheKey, scan: Scan, i: nat)
    requires Begun(events) && !Overlap(events, k) && Live(events, ttl, k, TierOf(scan), i) && events[i].scan == scan
    ensures LatestPut(events, ttl, k, scan, i)
  {
    forall j | i < j < |events|
      ensures !(events[j].Finish? && events[j].key == k)
    {
      if events[j].Finish? && events[j].key == k {
        var b := SurvivorCrosses(events, k, TierOf(scan), i, j);
      }
    }
  }

  /** When puts of a key do not overlap, a hit is exactly its latest put, still within its own tier's
      lifetime and not invalidated or lost since. */
  lemma HitIsLatestPut(events: seq<Event>, ttl: Lifetimes, k: CacheKey, scan: Scan)
    requires Begun(events) && !Overlap(events, k)
    ensures SplitLookup(events, [], ttl, k) == Some(scan) <==> exists i: nat :: LatestPut(events, ttl, k, scan, i)
  {
    assert events + [] == events;
    AskExactly(events, ttl, k, VulnerableTier, scan);
    AskExactly(events, ttl, k, CleanTier, scan);
    if SplitLookup(events, [], ttl, k) == Some(scan) {
      AnswerIsLive(events, ttl, k, scan);
      var i: nat :| Live(events, ttl, k, TierOf(scan), i) && events[i].scan == scan;
      LiveIsLatest(events, ttl, k, scan, i);
    }
    if i: nat :| LatestPut(events, ttl, k, scan, i) {
      LatestIsFirstAnswer(events, ttl, k, scan, i);
    }
  }

  lemma AnswerIsLive(events: seq<Event>, ttl: Lifetimes, k: CacheKey, scan: Scan)
    requires Lookup(Run(events), ttl, k, Clock(events)) == Some(scan)
    ensures exists i: nat :: Live(events, ttl, k, TierOf(scan), i) && events[i].scan == scan
  {
    AskExactly(events, ttl, k, VulnerableTier, scan);
    AskExactly(events, ttl, k, CleanTier, scan);
  }

  /** Without overlap a latest clean put is not hidden by an entry with findings. */
  lemma LatestIsFirstAnswer(events: seq<Event>, ttl: Lifetimes, k: CacheKey, scan: Scan, i: nat)
    requires Begun(events) && !Overlap(events, k) && LatestPut(events, ttl, k, scan, i)
    ensures Lookup(Run(events), ttl, k, Clock(events)) == Some(scan)
  {
    hide Run, Clock;
    AskExactly(events, ttl, k, TierOf(scan), scan);
    if scan == [] && Ask(Run(events), VulnerableTier, ttl, k, Clock(events)).Some? {
      var findings := Ask(Run(events), VulnerableTier, ttl, k, Clock(events)).value;
      AskExactly(events, ttl, k, VulnerableTier, findings);
      var j: nat :| Live(events, ttl, k, VulnerableTier, j) && events[j].scan == findings;
      var b := SurvivorCrosses(events, k, VulnerableTier, j, i);
    }
  }

  /** Without overlap, a lookup split by other steps hits with what an undivided lookup at one of its
      two awaits hits with. */
  lemma SplitHitsAreHits(events: seq<Event>, later: seq<Event>, ttl: Lifetimes, k: CacheKey, scan: Scan)
    requires Begun(events + later) && !Overlap(events + later, k) && SplitLookup(events, later, ttl, k) == Some(scan)
    ensures || Lookup(Run(events), ttl, k, Clock(events)) == Some(scan)
            || Lookup(Run(events + later), ttl, k, Clock(events + later)) == Some(scan)
  {
    var all := events + later;
    if Ask(Run(events), VulnerableTier, ttl, k, Clock(events)).None? {
      AskExactly(all, ttl, k, CleanTier, scan);
      var i: nat :| Live(all, ttl, k, CleanTier, i) && all[i].scan == scan;
      LiveIsLatest(all, ttl, k, scan, i);
      LatestIsFirstAnswer(all, ttl, k, scan, i);
    }
  }

  // ---- Clean answers after findings ----

  /** However operations interleave: from the moment a put with findings begins, the key is not
      answered as clean, by any lookup ending later, unless a clean put finishes after that moment. */
  lemma NoCleanAnswerAfterFindings(events: seq<Event>, later: seq<Event>, ttl: Lifetimes, k: CacheKey, b: nat)
    requires b < |events + later|
    requires var e := (events + later)[b]; e.Begin? && e.key == k && e.scan != []
    requires forall i :: b < i < |events + later| ==> !Writes((events + later)[i], k, CleanTier)
    ensures SplitLookup(events, later, ttl, k) != Some([])
  {
    var all := events + later;
    AskExactly(events, ttl, k, VulnerableTier, []);
    AskExactly(all, ttl, k, CleanTier, []);
    if i: nat :| Live(all, ttl, k, CleanTier, i) {
      assert i != b && !(b < i);
      assert Removes(all[b], k, CleanTier);
    }
  }

  predicate OnlyLosses(later: seq<Event>) {
    forall i :: 0 <= i < |later| ==> later[i].Lose? || later[i].Pass?
  }

  lemma {:induction false} ClockGrows(events: seq<Event>, later: seq<Event>)
    ensures Clock(events) <= Clock(events + later)
  {
    if later == [] {
      assert events + later == events;
    } else {
      var n := |later| - 1;
      assert (events + later)[..|events + later| - 1] == events + later[..n];
      ClockGrows(events, later[..n]);
    }
  }

  lemma StandsEarlier(events: seq<Event>, later: seq<Event>, ttl: Lifetimes, k: CacheKey, t: Tier, i: nat)
    requires OnlyLosses(later) && Live(events + later, ttl, k, t, i)
    ensures Live(events, ttl, k, t, i)
  {
    var all := events + later;
    assert forall j :: |events| <= j < |all| ==> all[j] == later[j - |events|];
    assert forall j :: 0 <= j < |events| ==> all[j] == events[j];
    assert all[..i] == events[..i];
    ClockGrows(events, later);
  }

  ghost predicate CanTurnClean(events: seq<Event>, ttl: Lifetimes, k: CacheKey) {
    exists later :: OnlyLosses(later) && Lookup(Run(events + later), ttl, k, Clock(events + later)) == Some([])
  }

  /** Expiry and eviction alone can make a key answered as clean exactly when a clean entry stands and
      lives. */
  lemma TurnsCleanExactly(events: seq<Event>, ttl: Lifetimes, k: CacheKey)
    ensures CanTurnClean(events, ttl, k) <==> exists i: nat :: Live(events, ttl, k, CleanTier, i)
  {
    if CanTurnClean(events, ttl, k) {
      var later :| OnlyLosses(later) && Lookup(Run(events + later), ttl, k, Clock(events + later)) == Some([]);
      AnswerIsLive(events + later, ttl, k, []);
      var i: nat :| Live(events + later, ttl, k, CleanTier, i);
      StandsEarlier(events, later, ttl, k, CleanTier, i);
    }
    if i: nat :| Live(events, ttl, k, CleanTier, i) {
      var later := [Lose(k, VulnerableTier)];
      LosingFindings(events, ttl, k, i);
      assert OnlyLosses(later);
    }
  }

  lemma LosingFindings(events: seq<Event>, ttl: Lifetimes, k: CacheKey, i: nat)
    requires Live(events, ttl, k, CleanTier, i)
    ensures var all := events + [Lose(k, VulnerableTier)]; Lookup(Run(all), ttl, k, Clock(all)) == Some([])
  {
    var all := events + [Lose(k, VulnerableTier)];
    assert all[..|all| - 1] == events;
    AskExactly(events, ttl, k, CleanTier, []);
  }

  /** The latest finished put of `k` has findings. */
  ghost predicate FindingsLatest(events: seq<Event>, k: CacheKey, f: nat) {
    && f < |events| && Writes(events[f], k, VulnerableTier)
    && forall j :: f < j < |events| ==> !(events[j].Finish? && events[j].key == k)
  }

  /** An older clean scan can resurface after a finished put with findings exactly when it was written
      between that put's two halves and still stands and lives. */
  lemma ReexposedExactly(events: seq<Event>, ttl: Lifetimes, k: CacheKey, f: nat)
    requires Begun(events) && FindingsLatest(events, k, f)
    ensures CanTurnClean(events, ttl, k) <==>
            exists b: nat, i: nat :: Crossed(events, k, b, i, f) && Live(events, ttl, k, CleanTier, i)
  {
    TurnsCleanExactly(events, ttl, k);
    if i: nat :| Live(events, ttl, k, CleanTier, i) {
      assert i != f;
      var b := SurvivorCrosses(events, k, CleanTier, i, f);
    }
  }

  /** The input on which it does: a clean put runs inside a put with findings. The findings are answered
      first, but once they are lost the key is answered as clean. */
  lemma CleanPutInsideFindings(k: CacheKey, findings: Scan, ttl: Lifetimes)
    requires findings != [] && ttl.allowed > 0 && ttl.blocked > 0
    ensures var events := [Begin(1, k, findings), Begin(2, k, []), Finish(2, k, []), Finish(1, k, findings)];
            && SplitLookup(events, [], ttl, k) == Some(findings)
            && SplitLookup(events + [Lose(k, VulnerableTier)], [], ttl, k) == Some([])
  {
    hide Run, Clock;
    var events := [Begin(1, k, findings), Begin(2, k, []), Finish(2, k, []), Finish(1, k, findings)];
    assert forall n :: 0 <= n <= 4 ==> events[..n] + events[n..] == events;
    ClockStill(events);
    assert Stands(events, k, CleanTier, 2) && Stands(events, k, VulnerableTier, 3);
    ClockStill(events[..2]);
    ClockStill(events[..3]);
    assert Live(events, ttl, k, CleanTier, 2) && Live(events, ttl, k, VulnerableTier, 3);
    AskExactly(events, ttl, k, VulnerableTier, findings);
    LosingFindings(events, ttl, k, 2);
    var lost := events + [Lose(k, VulnerableTier)];
    assert lost + [] == lost;
  }

  predicate NoTime(events: seq<Event>) {
    forall i :: 0 <= i < |events| ==> !events[i].Pass?
  }

  lemma {:induction false} ClockStill(events: seq<Event>)
    requires NoTime(events)
    ensures Clock(events) == 0
  {
    if events != [] {
      ClockStill(events[..|events| - 1]);
    }
  }

  /** Once both halves of an invalidation are done, nothing put before it is answered. */
  lemma InvalidationHolds(events: seq<Event>, later: seq<Event>, ttl: Lifetimes, k: CacheKey, i: nat, j: nat)
    requires i < j < |events| && events[i] == Drop(k, CleanTier) && events[j] == Drop(k, VulnerableTier)
    requires forall n :: i < n < |events + later| ==> !((events + later)[n].Finish? && (events + later)[n].key == k)
    ensures SplitLookup(events, later, ttl, k) == None
  {
    var all := events + later;
    assert all[i] == events[i] && all[j] == events[j];
    if n: nat :| Live(events, ttl, k, VulnerableTier, n) {
      assert all[n] == events[n];
      assert Removes(events[j], k, VulnerableTier);
    }
    if n: nat :| Live(all, ttl, k, CleanTier, n) {
      assert Removes(all[i], k, CleanTier);
    }
    AskNothing(events, ttl, k, VulnerableTier);
    AskNothing(all, ttl, k, CleanTier);
  }

  lemma AskNothing(events: seq<Event>, ttl: Lifetimes, k: CacheKey, t: Tier)
    requires forall i: nat :: !Live(events, ttl, k, t, i)
    ensures Ask(Run(events), t, ttl, k, Clock(events)) == None
  {
    var answer := Ask(Run(events), t, ttl, k, Clock(events));
    if answer.Some? {
      AskExactly(events, ttl, k, t, answer.value);
    }
  }
}
