/** The clocks of one cell: the self-fence, the deadlines and the freshness gate, read off the log. */
module CellTiming {
  import opened Int64
  import opened Options
  import opened LeaseCell
  import opened CellProtocol
  import opened CellLedger
  import opened CellInvariant
  import opened CellSteps

  /** The instant of an event that moves the fence's anchor. */
  function AnchorOf(e: Event): Option<int64> {
    match e
    case Installed(_, _, _, _, now) => Some(now)
    case Served(_, _, now, _) => Some(now)
    case Fenced(now) => Some(now)
    case _ => None
  }

  /** The latest serve, fence or install; 0 when there was none. */
  function LastAnchor(log: Log): int64 {
    if log == [] then 0
    else if AnchorOf(log[|log| - 1]).Some? then AnchorOf(log[|log| - 1]).value
    else LastAnchor(log[..|log| - 1])
  }

  /** The pause budget, in ms, echoed by the latest install that set one; 0 when none did. */
  function PauseMs(log: Log): int64 {
    if log == [] then 0
    else if log[|log| - 1].Installed? && log[|log| - 1].grant.maxPauseMs > 0 then log[|log| - 1].grant.maxPauseMs
    else PauseMs(log[..|log| - 1])
  }

  /** The same in ns, as the int64 product leaves it. */
  function PauseBudget(log: Log): int64 {
    Wrap(PauseMs(log) * 1_000_000)
  }

  /** With a pause budget set and an anchor present, no serve follows its anchor by more than the budget. */
  predicate WithinPause(log: Log) {
    forall j | 0 <= j < |log| && log[j].Served? && PauseBudget(log[..j]) > 0 && LastAnchor(log[..j]) != 0 ::
      log[j].now - LastAnchor(log[..j]) <= PauseBudget(log[..j])
  }

  /** A fence fires only over a pause beyond the budget since its anchor. */
  predicate FencedLate(log: Log) {
    forall j | 0 <= j < |log| && log[j].Fenced? ::
      && 0 < PauseBudget(log[..j]) && LastAnchor(log[..j]) != 0
      && log[j].now - LastAnchor(log[..j]) > PauseBudget(log[..j])
  }

  predicate Ordered(log: Log, mono: int64) {
    && (forall i | 0 <= i < |log| && AnchorOf(log[i]).Some? :: 0 < AnchorOf(log[i]).value <= mono)
    && (forall i, j | 0 <= i < j < |log| && AnchorOf(log[i]).Some? && AnchorOf(log[j]).Some? ::
          AnchorOf(log[i]).value <= AnchorOf(log[j]).value)
  }

  /** An install is backed by a fresh positive grant, and its deadline is stamped from the install's reading. */
  predicate GateOk(e: Event)
    requires e.Installed?
  {
    && 0 < e.gateNow <= e.now && !Stale(e.grant, e.wall)
    && 0 < e.grant.granted == e.chunk.amount && e.chunk.deadlineMon == Deadline(e.grant, e.now)
  }

  predicate TimeLog(log: Log, mono: int64) {
    && WithinPause(log) && FencedLate(log) && Ordered(log, mono)
    && forall i | 0 <= i < |log| && log[i].Installed? :: GateOk(log[i])
  }

  predicate Clock(s: Node) {
    && s.cell.lastSeenMon == LastAnchor(s.log) && 0 <= s.cell.lastSeenMon <= s.mono
    && s.cell.maxPauseNs == PauseBudget(s.log)
    && TimeLog(s.log, s.mono)
  }

  lemma AppendEvent(log: Log, e: Event, mono: int64)
    requires TimeLog(log, mono)
    requires AnchorOf(e).Some? ==> AnchorOf(e).value == mono && 0 < mono
    requires e.Installed? ==> GateOk(e)
    requires e.Served? && PauseBudget(log) > 0 && LastAnchor(log) != 0 ==> e.now - LastAnchor(log) <= PauseBudget(log)
    requires e.Fenced? ==> 0 < PauseBudget(log) && LastAnchor(log) != 0 && e.now - LastAnchor(log) > PauseBudget(log)
    ensures TimeLog(log + [e], mono)
    ensures LastAnchor(log + [e]) == if AnchorOf(e).Some? then mono else LastAnchor(log)
    ensures PauseBudget(log + [e])
            == if e.Installed? && e.grant.maxPauseMs > 0 then Wrap(e.grant.maxPauseMs * 1_000_000) else PauseBudget(log)
  {
    var log' := log + [e];
    assert log'[..|log|] == log;
    assert FencedLate(log') by {
      forall j | 0 <= j < |log'| && log'[j].Fenced?
        ensures 0 < PauseBudget(log'[..j]) && LastAnchor(log'[..j]) != 0
        ensures log'[j].now - LastAnchor(log'[..j]) > PauseBudget(log'[..j])
      {
        assert log'[..j] == log[..j];
        assert j < |log| ==> log'[j] == log[j];
        assert log[..|log|] == log;
      }
    }
    forall j | 0 <= j < |log'| && log'[j].Served? && PauseBudget(log'[..j]) > 0 && LastAnchor(log'[..j]) != 0
      ensures log'[j].now - LastAnchor(log'[..j]) <= PauseBudget(log'[..j])
    {
      assert log'[..j] == log[..j];
      assert j < |log| ==> log'[j] == log[j];
      assert log[..|log|] == log;
    }
  }

  lemma {:induction false} AppendQuiet(log: Log, events: Log, mono: int64)
    requires TimeLog(log, mono) && forall e | e in events :: AnchorOf(e).None?
    ensures TimeLog(log + events, mono)
    ensures LastAnchor(log + events) == LastAnchor(log) && PauseBudget(log + events) == PauseBudget(log)
  {
    if events == [] {
      assert log + events == log;
    } else {
      var front, e := events[..|events| - 1], events[|events| - 1];
      assert log + events == log + front + [e];
      AppendQuiet(log, front, mono);
      AppendEvent(log + front, e, mono);
    }
  }

  lemma DeparturesQuiet(before: Cell, after: Cell, handed: bool)
    ensures forall e | e in Departures(before, after, handed) :: AnchorOf(e).None?
  {
  }

  lemma LockSpendKeepsClock(s: Node, t: nat, now: int64)
    requires CellOk(s.cell) && Clock(s) && 0 < s.mono == now
    requires t in s.spends && s.spends[t].Checked? && 0 < s.spends[t].n
    ensures Clock(AfterSpend(s, t, now))
  {
    var pc := s.spends[t];
    SpendHasShape(s.cell, pc.n, now);
    SpendKeepsClock(s.cell, SpendLocked(s.cell, pc.n, now), pc.n, pc.late, s.log, now);
  }

  lemma SpendKeepsClock(c: Cell, o: Outcome, n: int64, late: bool, log: Log, now: int64)
    requires 0 < n && CellOk(c) && SpendShape(c, n, now, o) && 0 < now
    requires TimeLog(log, now) && c.lastSeenMon == LastAnchor(log) && 0 <= c.lastSeenMon <= now
    requires c.maxPauseNs == PauseBudget(log)
    ensures var log' := log + SpendEvents(c, o, n, now, late);
            TimeLog(log', now) && o.cell.lastSeenMon == LastAnchor(log') && PauseBudget(log') == PauseBudget(log)
  {
    SpendEventsAre(c, o, n, now, late);
    DeparturesQuiet(c, o.cell, false);
    DeparturesQuiet(c, Promote(c, now), false);
    if Fences(c, now) {
      ClockAfter(c, log, Departures(c, o.cell, false), Fenced(now), now);
    } else if o.verdict == Success {
      ClockAfter(c, log, Departures(c, Promote(c, now), false), ServeOf(c, n, now, late), now);
    } else {
      AppendQuiet(log, SpendEvents(c, o, n, now, late), now);
    }
  }

  /** Chunks leaving, then a fence or a serve. */
  lemma ClockAfter(c: Cell, log: Log, left: Log, e: Event, now: int64)
    requires TimeLog(log, now) && 0 < now && (forall x | x in left :: AnchorOf(x).None?)
    requires c.lastSeenMon == LastAnchor(log) && 0 <= c.lastSeenMon <= now && c.maxPauseNs == PauseBudget(log)
    requires AnchorOf(e) == Some(now) && !e.Installed?
    requires e.Served? ==> !Fences(c, now)
    requires e.Fenced? ==> Fences(c, now)
    ensures var log' := log + (left + [e]);
            TimeLog(log', now) && LastAnchor(log') == now && PauseBudget(log') == PauseBudget(log)
  {
    FenceGap(c, now);
    AppendQuiet(log, left, now);
    AppendEvent(log + left, e, now);
    assert log + (left + [e]) == log + left + [e];
  }

  /** The fence's gap does not wrap. */
  lemma FenceGap(c: Cell, now: int64)
    requires 0 <= c.lastSeenMon <= now
    ensures Fences(c, now) <==> 0 < c.maxPauseNs && c.lastSeenMon != 0 && now - c.lastSeenMon > c.maxPauseNs
  {
  }

  lemma InstallKeepsClock(s: Node, b: nat, now: int64)
    requires Clock(s) && 0 < s.mono == now && b in s.bodies && s.bodies[b].Accepted?
    requires BodyOk(s.bodies[b], s.cell, s.log, s.mono)
    ensures Clock(AfterInstall(s, b, now))
  {
    var pc := s.bodies[b];
    var drawn := FreshChunk(s.cell.holder, pc.nonce, pc.grant, now);
    var c' := Install(s.cell, pc.nonce, pc.grant, now);
    var e := Installed(drawn, pc.grant, pc.wall, pc.gateNow, now);
    var left := Departures(s.cell.(next := Some(drawn)), c', false);
    AppendEvent(s.log, e, s.mono);
    DeparturesQuiet(s.cell.(next := Some(drawn)), c', false);
    AppendQuiet(s.log + [e], left, s.mono);
  }

  lemma QuietKeepsClock(s: Node, s': Node, events: Log)
    requires Clock(s) && s'.log == s.log + events && (forall e | e in events :: AnchorOf(e).None?)
    requires s'.mono == s.mono && s'.cell.lastSeenMon == s.cell.lastSeenMon && s'.cell.maxPauseNs == s.cell.maxPauseNs
    ensures Clock(s')
  {
    AppendQuiet(s.log, events, s.mono);
  }

  lemma SpendStepKeepsClock(s: Node, t: nat, call: SpendCall, now: int64)
    requires Core(s) && Clock(s) && SpendEnabled(s, t, call) && 0 < s.mono == now
    ensures Clock(SpendStep(s, t, call, now))
  {
    match call
    case LockSpend => LockSpendKeepsClock(s, t, now);
    case _ =>
      UnlockedSpend(s, t, call, now);
      assert s.log == s.log + [];
      QuietKeepsClock(s, SpendStep(s, t, call, now), []);
  }

  lemma UnlockedSpend(s: Node, t: nat, call: SpendCall, now: int64)
    requires SpendEnabled(s, t, call) && !call.LockSpend?
    ensures var s' := SpendStep(s, t, call, now);
            && s'.log == s.log && s'.mono == s.mono
            && s'.cell.lastSeenMon == s.cell.lastSeenMon && s'.cell.maxPauseNs == s.cell.maxPauseNs
  {
  }

  lemma RefillStepKeepsClock(s: Node, b: nat, call: RefillCall, now: int64)
    requires Core(s) && Clock(s) && RefillEnabled(s, b, call) && 0 < s.mono == now
    ensures Clock(RefillStep(s, b, call, now))
  {
    match call
    case LockInstall =>
      assert BodyOk(s.bodies[b], s.cell, s.log, s.mono);
      InstallKeepsClock(s, b, now);
    case _ =>
      var events := PaperEvents(s, b, call, now);
      QuietKeepsClock(s, RefillStep(s, b, call, now), events);
  }

  lemma CloseStepKeepsClock(s: Node, r: nat, call: CloseCall)
    requires Clock(s) && CloseEnabled(s, r, call)
    ensures Clock(CloseStep(s, r, call))
  {
    var events := CloseEvents(s, r, call);
    QuietKeepsClock(s, CloseStep(s, r, call), events);
  }

  lemma CloseEvents(s: Node, r: nat, call: CloseCall) returns (events: Log)
    requires CloseEnabled(s, r, call)
    ensures CloseStep(s, r, call).log == s.log + events && forall e | e in events :: e.Left? || e.Settled?
  {
    var s' := CloseStep(s, r, call);
    events := match call
      case LockTake => Departures(s.cell, s'.cell, true)
      case SendReturn =>
        var ch := s.closers[r].chunks[0];
        if |ch.leaseID| > 0 then [Settled(ch.leaseID, ch.spent)] else []
      case _ => [];
  }

  lemma StepKeepsClock(s: Node, act: Act)
    requires Core(s) && Clock(s) && 0 < s.mono && Enabled(s, act)
    ensures Clock(Step(s, act))
  {
    var s1 := s.(mono := act.now);
    TickKeeps(s, act.now);
    assert Clock(s1);
    match act.lab {
      case Spender(t, call) => SpendStepKeepsClock(s1, t, call, act.now);
      case Refiller(b, call) => RefillStepKeepsClock(s1, b, call, act.now);
      case Closer(r, call) => CloseStepKeepsClock(s1, r, call);
    }
  }
}
