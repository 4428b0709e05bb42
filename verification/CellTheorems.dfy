/** What holds in every reachable state of one cell, under every interleaving and whatever the RPCs return. */
module CellTheorems {
  import opened Int64
  import opened Encoding
  import opened TokenBucket
  import opened Options
  import opened LeaseCell
  import opened CellProtocol
  import opened CellLedger
  import opened CellInvariant
  import opened CellSteps
  import opened CellTiming
  import opened CellPacing

  /** Every draw names one of the four ids that follow the latest installed lease. */
  predicate Redraws(log: Log) {
    forall k | 0 <= k < |log| && log[k].Drew? ::
      NextNonce(log[..k]) <= NonceOf(log[k].id) < NextNonce(log[..k]) + 4
  }

  ghost predicate Invariant(s: Node) {
    0 < s.mono && Core(s) && Clock(s) && Bounds(s) && Redraws(s.log)
  }

  /** A reachable state whose run has made fewer than 2^64 draws, so the uint64 nonce has not wrapped. */
  ghost predicate Lived(s: Node) {
    Reachable(s) && Total(Draws, s.log) < TWO64
  }

  // ----- the invariant over runs -----

  lemma InitHolds(s: Node)
    requires Init(s)
    ensures Invariant(s)
  {
    assert 0 in s.bodies && 0 < s.cell.chunk;
    assert CacheOk(s.cell, s.log) && Minting(s.cell, s.log) && Conserved(s.cell, s.log);
    if 0 < s.cell.rate {
      FullBucketPaces(s.cell.rate, s.cell.burst, s.mono);
    }
  }

  lemma FullBucketPaces(rate: int64, burst: int64, now: int64)
    requires 0 < rate && 0 < burst && 0 < now
    ensures PaceLog(rate, burst, burst, now, [])
  {
    forall t: int | t <= now
      ensures Roomy(rate, burst, burst, now, [], t)
    {
      EarnedNonNegative(rate, now - t);
    }
    forall t1: int, t2: int | t1 <= t2
      ensures WindowOk(rate, burst, [], t1, t2)
    {
      EarnedNonNegative(rate, t2 - t1);
    }
  }

  lemma StepExtends(s: Node, act: Act) returns (events: Log)
    requires Core(s) && 0 < s.mono && Enabled(s, act) && Total(Draws, s.log) < TWO64
    ensures Step(s, act).log == s.log + events
    ensures (forall e | e in events :: !e.Drew?)
            || (act.lab.Refiller? && |events| == 1 && Drawn(Step(s, act), act.lab.b, events[0]))
  {
    var s1 := s.(mono := act.now);
    TickKeeps(s, act.now);
    match act.lab
    case Spender(t, call) =>
      events := SpendNews(s1, t, call, act.now);
    case Refiller(b, call) =>
      events := RefillNews(s1, b, call, act.now);
    case Closer(r, call) =>
      events := CloseEvents(s1, r, call);
  }

  /** The draw event of a body that just entered its draw. */
  predicate Drawn(s: Node, b: nat, e: Event) {
    b in s.bodies && s.bodies[b].Drawing? && e == Drew(MakeLeaseID(s.cell.holder, s.bodies[b].nonce), s.cell.chunk)
  }

  lemma SpendNews(s: Node, t: nat, call: SpendCall, now: int64) returns (events: Log)
    requires SpendEnabled(s, t, call)
    ensures SpendStep(s, t, call, now).log == s.log + events && forall e | e in events :: !e.Drew?
  {
    events := [];
    if call.LockSpend? {
      var pc := s.spends[t];
      SpendHasShape(s.cell, pc.n, now);
      SpendEventKinds(s.cell, SpendLocked(s.cell, pc.n, now), pc.n, now, pc.late);
      events := SpendEvents(s.cell, SpendLocked(s.cell, pc.n, now), pc.n, now, pc.late);
    }
  }

  lemma RefillNews(s: Node, b: nat, call: RefillCall, now: int64) returns (events: Log)
    requires Core(s) && RefillEnabled(s, b, call) && Total(Draws, s.log) < TWO64
    ensures RefillStep(s, b, call, now).log == s.log + events
    ensures (forall e | e in events :: !e.Drew?) || (|events| == 1 && Drawn(RefillStep(s, b, call, now), b, events[0]))
  {
    var pc, s' := s.bodies[b], RefillStep(s, b, call, now);
    if call.LockInstall? {
      var drawn := FreshChunk(s.cell.holder, pc.nonce, pc.grant, now);
      events := [Installed(drawn, pc.grant, pc.wall, pc.gateNow, now)]
                + Departures(s.cell.(next := Some(drawn)), s'.cell, false);
    } else if s'.log == s.log {
      events := [];
    } else {
      events := [s'.log[|s.log|]];
      assert s'.log == s.log + events;
    }
  }

  lemma StepKeepsRedraws(s: Node, act: Act, events: Log)
    requires Redraws(s.log) && Enabled(s, act) && Core(Step(s, act)) && Step(s, act).log == s.log + events
    requires (forall e | e in events :: !e.Drew?)
             || (act.lab.Refiller? && |events| == 1 && Drawn(Step(s, act), act.lab.b, events[0]))
    ensures Redraws(Step(s, act).log)
  {
    if !(forall e | e in events :: !e.Drew?) {
      OneEvent(events);
      DrawNames(Step(s, act), act.lab.b, s.log, events[0]);
    }
    RedrawsExtend(s.log, events);
  }

  lemma OneEvent(events: Log)
    requires |events| == 1
    ensures events == [events[0]]
  {
  }

  lemma DrawNames(s: Node, b: nat, log: Log, e: Event)
    requires Core(s) && s.log == log + [e] && Drawn(s, b, e)
    ensures NextNonce(log) <= NonceOf(e.id) < NextNonce(log) + MAX_REFILL_ATTEMPTS
  {
    assert BodyOk(s.bodies[b], s.cell, s.log, s.mono);
    LeaseIDDecodes(s.cell.holder, s.bodies[b].nonce);
    Appended(log, e);
  }

  lemma RedrawsExtend(log: Log, events: Log)
    requires Redraws(log)
    requires (forall e | e in events :: !e.Drew?)
             || (|events| == 1 && events[0].Drew?
                && NextNonce(log) <= NonceOf(events[0].id) < NextNonce(log) + MAX_REFILL_ATTEMPTS)
    ensures Redraws(log + events)
  {
    var log' := log + events;
    forall k | 0 <= k < |log'| && log'[k].Drew?
      ensures NextNonce(log'[..k]) <= NonceOf(log'[k].id) < NextNonce(log'[..k]) + MAX_REFILL_ATTEMPTS
    {
      if k < |log| {
        assert log'[..k] == log[..k] && log'[k] == log[k];
      } else {
        assert log'[k] in events && log'[..|log|] == log;
      }
    }
  }

  lemma StepKeepsInvariant(s: Node, act: Act) returns (events: Log)
    requires Invariant(s) && Enabled(s, act) && Total(Draws, s.log) < TWO64
    ensures Invariant(Step(s, act)) && Step(s, act).log == s.log + events
  {
    StepKeepsCore(s, act);
    StepKeepsClock(s, act);
    StepKeepsBounds(s, act);
    events := StepExtends(s, act);
    StepKeepsRedraws(s, act, events);
  }

  lemma {:induction false} RunKeepsInvariant(s0: Node, acts: seq<Act>)
    requires Init(s0) && Run(s0, acts).Some? && Total(Draws, Run(s0, acts).value.log) < TWO64
    ensures Invariant(Run(s0, acts).value)
  {
    if acts == [] {
      InitHolds(s0);
    } else {
      var before := acts[..|acts| - 1];
      var s := Run(s0, before).value;
      DrawsOnlyGrow(s0, before, acts[|acts| - 1]);
      RunKeepsInvariant(s0, before);
      var _ := StepKeepsInvariant(s, acts[|acts| - 1]);
    }
  }

  lemma DrawsOnlyGrow(s0: Node, before: seq<Act>, act: Act)
    requires Run(s0, before).Some? && Enabled(Run(s0, before).value, act)
    ensures var s := Run(s0, before).value; Total(Draws, s.log) <= Total(Draws, Step(s, act).log)
  {
    var s := Run(s0, before).value;
    var events := Step(s, act).log[|s.log|..];
    assert Step(s, act).log == s.log + events;
    DrawsGrow(s.log, events);
  }

  lemma LivedHolds(s: Node)
    requires Lived(s)
    ensures Invariant(s)
  {
    var s0: Node, acts: seq<Act> :| Init(s0) && Run(s0, acts) == Some(s);
    RunKeepsInvariant(s0, acts);
  }

  // ----- theorems -----

  /** At most one refill body runs; its install always finds the second buffer free; the buffers fill in order. */
  lemma SingleFlight(s: Node)
    requires Lived(s)
    ensures forall b, b' | b in s.bodies && b' in s.bodies :: b == b'
    ensures !s.acquiring ==> (s.cell.refilling <==> s.bodies != map[])
    ensures forall b | b in s.bodies && s.bodies[b].Accepted? :: s.cell.next.None?
    ensures s.cell.cur.None? ==> s.cell.next.None?
    ensures s.cell.next.Some? ==>
              var ch := s.cell.next.value;
              ch.spent == 0 && ch.reported == 0 && ch.remaining == ch.amount && 0 < ch.amount
  {
    LivedHolds(s);
    assert forall b | b in s.bodies :: BodyOk(s.bodies[b], s.cell, s.log, s.mono);
  }

  /** Installed leases have strictly increasing nonces, the committed nonce is the one after the latest of them, and
      each draw names one of the four ids from there on: a refill that installs nothing is redrawn under the same
      ids. */
  lemma InstalledOnce(s: Node)
    requires Lived(s)
    ensures forall i, j | 0 <= i < j < |s.log| && s.log[i].Installed? && s.log[j].Installed? ::
              && NonceOf(s.log[i].chunk.leaseID) < NonceOf(s.log[j].chunk.leaseID)
              && s.log[i].chunk.leaseID != s.log[j].chunk.leaseID
    ensures s.cell.nonce == NextNonce(s.log)
    ensures Redraws(s.log)
  {
    LivedHolds(s);
  }

  /** Every installed unit is served, still cached, forfeited, or handed to Return; per chunk the counters add up. */
  lemma CellConservation(s: Node)
    requires Lived(s)
    ensures Total(InstalledUnits, s.log)
            == Total(ServedUnits, s.log) + Cached(s.cell) + Total(ForfeitedUnits, s.log) + Total(HandedUnits, s.log)
    ensures forall ch | ch in Held(s.cell) ::
              && ch.remaining + ch.spent == ch.amount && 0 <= ch.remaining && 0 <= ch.reported <= ch.spent
              && ch.spent == Total(ServedFrom(ch.leaseID), s.log) && ch.amount == Total(InstalledFor(ch.leaseID), s.log)
    ensures forall k | 0 <= k < |s.log| && s.log[k].Served? ::
              Total(ServedFrom(s.log[k].id), s.log) <= Total(InstalledFor(s.log[k].id), s.log)
  {
    LivedHolds(s);
  }

  /** Each settlement carries all the units its lease serves in the whole run, and no lease is settled twice. */
  lemma ReturnTellsTheTruth(s: Node)
    requires Lived(s)
    ensures forall k | 0 <= k < |s.log| && s.log[k].Settled? :: s.log[k].spent == Total(ServedFrom(s.log[k].id), s.log)
    ensures forall j, k | 0 <= j < k < |s.log| && s.log[j].Settled? && s.log[k].Settled? :: s.log[j].id != s.log[k].id
  {
    LivedHolds(s);
  }

  /** A Spend called after the close is never served. */
  lemma NoServiceAfterClose(s: Node)
    requires Lived(s)
    ensures forall k | 0 <= k < |s.log| && s.log[k].Served? :: !s.log[k].late
    ensures forall t | t in s.spends && s.spends[t].Called? && s.spends[t].late :: s.cell.closed
  {
    LivedHolds(s);
  }

  /** A lease that left the cache by drain, expiry, fence or Return never serves again. */
  lemma NeverServedAgain(s: Node)
    requires Lived(s)
    ensures forall i, j | 0 <= i < j < |s.log| && s.log[i].Left? && s.log[j].Served? :: s.log[i].id != s.log[j].id
  {
    LivedHolds(s);
  }

  /** Every serve is before its lease's deadline. */
  lemma DeadlineAndFence(s: Node)
    requires Lived(s)
    ensures forall i, j | 0 <= i < j < |s.log| && s.log[i].Installed? && s.log[j].Served?
              && s.log[i].chunk.leaseID == s.log[j].id :: s.log[j].now < s.log[i].chunk.deadlineMon
    ensures FencedExactly(s.log)
  {
    LivedHolds(s);
    FencesFit(s.log);
  }

  /** With a budget of at most 2^63 ns echoed by the grants, no serve follows the latest serve, fence or install by more
      than the budget, and every fence does; without an echoed budget or an anchor there is no fence. */
  predicate FencedExactly(log: Log) {
    && (forall j | 0 <= j < |log| && log[j].Served? && 0 < PauseMs(log[..j]) <= 9_223_372_036_854
          && LastAnchor(log[..j]) != 0 ::
          log[j].now - LastAnchor(log[..j]) <= PauseMs(log[..j]) * 1_000_000)
    && (forall j | 0 <= j < |log| && log[j].Fenced? && 0 <= PauseMs(log[..j]) <= 9_223_372_036_854 ::
          && 0 < PauseMs(log[..j]) && LastAnchor(log[..j]) != 0
          && log[j].now - LastAnchor(log[..j]) > PauseMs(log[..j]) * 1_000_000)
  }

  lemma FencesFit(log: Log)
    requires WithinPause(log) && FencedLate(log)
    ensures FencedExactly(log)
  {
  }

  /** Units requested by the draw in flight. */
  function InFlight(s: Node): int {
    if exists b | b in s.bodies :: !s.bodies[b].Starting? && !s.bodies[b].Done? then s.cell.chunk else 0
  }

  /** While no grant exceeds its request, a cell caches at most two chunks, the units of the draw in flight included. */
  lemma BoundedExposure(s: Node)
    requires Lived(s) && GrantsWithin(s.log, s.cell.chunk)
    ensures Cached(s.cell) + InFlight(s) <= 2 * s.cell.chunk
    ensures Wrap(Cached(s.cell)) <= 2 * s.cell.chunk
  {
    LivedHolds(s);
    assert forall b | b in s.bodies :: BodyOk(s.bodies[b], s.cell, s.log, s.mono);
  }

  /** In every window of the run, paced spends serve at most a burst plus what the window earns. */
  lemma RateBound(s: Node, t1: int, t2: int)
    requires Lived(s) && 0 < s.cell.rate && t1 <= t2
    requires GapFits(s.cell.rate, s.cell.burst)
    ensures Total(ServedWithin(t1, t2), s.log) <= s.cell.burst + s.cell.rate * (t2 - t1) / 1_000_000_000
  {
    LivedHolds(s);
    assert WindowOk(s.cell.rate, s.cell.burst, s.log, t1, t2);
  }

  /** The bucket never exceeds its ceiling, and never goes negative when LevelFits. */
  lemma TokensInRange(s: Node)
    requires Lived(s) && 0 < s.cell.rate
    ensures s.cell.tokens <= s.cell.burst
    ensures LevelFits(s.cell.rate, s.cell.burst) ==> 0 <= s.cell.tokens
  {
    LivedHolds(s);
  }
}
