/** What a close stops: a Spend that has passed its closed check is still served, nothing else is. */
module CellShutdown {
  import opened Int64
  import opened Options
  import opened LeaseCell
  import opened CellProtocol
  import opened CellLedger
  import opened CellInvariant
  import opened CellSteps
  import opened CellTiming
  import opened CellTheorems
  import opened CellRuns

  /** log' extends log and serves nothing more. */
  predicate ServesNothing(log: Log, log': Log) {
    && |log| <= |log'| && log == log'[..|log|]
    && forall i | |log| <= i < |log'| :: !log'[i].Served?
  }

  /** Some continuation of s serves. */
  ghost predicate MayServe(s: Node) {
    exists acts: seq<Act> :: Run(s, acts).Some? && !ServesNothing(s.log, Run(s, acts).value.log)
  }

  /** A spend past its closed check. */
  predicate Passed(s: Node, t: nat) {
    t in s.spends && s.spends[t].Checked? && 0 < s.spends[t].n
  }

  predicate NonePassed(s: Node) {
    forall t | t in s.spends :: !s.spends[t].Checked?
  }

  // ----- nobody past the check -----

  /** With no spend past its closed check, a closed cell never serves again, whatever refills and Returns still run. */
  lemma QuietClose(s: Node)
    requires s.cell.closed && NonePassed(s)
    ensures !MayServe(s)
  {
    forall acts: seq<Act> | Run(s, acts).Some?
      ensures ServesNothing(s.log, Run(s, acts).value.log)
    {
      QuietRun(s, acts);
    }
  }

  lemma {:induction false} QuietRun(s: Node, acts: seq<Act>)
    requires s.cell.closed && NonePassed(s) && Run(s, acts).Some?
    ensures var s' := Run(s, acts).value; s'.cell.closed && NonePassed(s') && ServesNothing(s.log, s'.log)
  {
    if acts != [] {
      QuietRun(s, acts[..|acts| - 1]);
      QuietStep(Run(s, acts[..|acts| - 1]).value, acts[|acts| - 1]);
    }
  }

  lemma QuietStep(s: Node, act: Act)
    requires s.cell.closed && NonePassed(s) && Enabled(s, act)
    ensures var s' := Step(s, act); s'.cell.closed && NonePassed(s') && ServesNothing(s.log, s'.log)
  {
    StaysClosed(s, act);
    SilentStep(s, act);
  }

  predicate LocksSpend(act: Act) {
    act.lab.Spender? && act.lab.spend.LockSpend?
  }

  /** Only the locked section of a spend serves. */
  lemma SilentStep(s: Node, act: Act)
    requires Enabled(s, act) && !LocksSpend(act)
    ensures ServesNothing(s.log, Step(s, act).log)
  {
    var s1 := s.(mono := act.now);
    match act.lab {
      case Spender(t, call) =>
      case Refiller(b, call) =>
        SilentRefill(s1, b, call, act.now);
      case Closer(r, call) =>
        var events := CloseEvents(s1, r, call);
        Extends(s.log, events);
    }
  }

  lemma SilentRefill(s: Node, b: nat, call: RefillCall, now: int64)
    requires RefillEnabled(s, b, call)
    ensures ServesNothing(s.log, RefillStep(s, b, call, now).log)
  {
    var events: Log;
    if call.LockInstall? {
      var pc, s' := s.bodies[b], RefillStep(s, b, call, now);
      var drawn := FreshChunk(s.cell.holder, pc.nonce, pc.grant, now);
      events := [Installed(drawn, pc.grant, pc.wall, pc.gateNow, now)]
                + Departures(s.cell.(next := Some(drawn)), s'.cell, false);
    } else {
      events := PaperEvents(s, b, call, now);
    }
    assert RefillStep(s, b, call, now).log == s.log + events;
    Extends(s.log, events);
  }

  lemma Extends(log: Log, events: Log)
    requires forall e | e in events :: !e.Served?
    ensures ServesNothing(log, log + events)
  {
    assert forall i | |log| <= i < |log + events| :: (log + events)[i] in events;
  }

  /** A close is final, and no spend passes its check after it. */
  lemma StaysClosed(s: Node, act: Act)
    requires s.cell.closed && Enabled(s, act)
    ensures var s' := Step(s, act);
            s'.cell.closed && forall t | t in s'.spends && s'.spends[t].Checked? ::
                t in s.spends && s'.spends[t] == s.spends[t]
  {
    var s1 := s.(mono := act.now);
    match act.lab
    case Spender(t, call) => SpendStaysClosed(s1, t, call, act.now);
    case Refiller(b, call) => RefillKeepsSpends(s1, b, call, act.now);
    case Closer(r, call) =>
  }

  lemma SpendStaysClosed(s: Node, t: nat, call: SpendCall, now: int64)
    requires s.cell.closed && SpendEnabled(s, t, call)
    ensures var s' := SpendStep(s, t, call, now);
            s'.cell.closed && forall u | u in s'.spends && s'.spends[u].Checked? ::
                u in s.spends && s'.spends[u] == s.spends[u]
  {
    if call.LockSpend? {
      SpendHasShape(s.cell, s.spends[t].n, now);
    }
  }

  // ----- somebody past the check -----

  /** A spend past its check that the cache can serve is served after the close, if it gets there first. */
  lemma PassedMayServe(s: Node, t: nat, now: int64)
    requires Passed(s, t) && s.mono <= now && Servable(s.cell, s.spends[t].n, now)
    ensures MayServe(s)
  {
    Stays(s);
    LastServes(s, s, t, now);
  }

  /** The same at the end of a run. */
  lemma LastServes(s: Node, s1: Node, t: nat, now: int64)
    requires Follows(s, s1) && |s.log| <= |s1.log|
    requires Passed(s1, t) && s1.mono <= now && Servable(s1.cell, s1.spends[t].n, now)
    ensures MayServe(s)
  {
    var act := Act(Spender(t, LockSpend), now);
    FollowStep(s, s1, act);
    ServingStep(s1, t, now);
    var acts: seq<Act> :| Run(s, acts) == Some(Step(s1, act));
  }

  lemma ServingStep(s: Node, t: nat, now: int64)
    requires Passed(s, t) && s.mono <= now && Servable(s.cell, s.spends[t].n, now)
    ensures var log' := Step(s, Act(Spender(t, LockSpend), now)).log;
            |s.log| < |log'| && log'[|log'| - 1].Served?
  {
    ServedExactly(s.cell, s.spends[t].n, now);
  }

  // ----- a run in which it happens -----

  /** A cell closed between a spend's check and its lock: the spend is served after the close. */
  lemma ServedAfterClose() returns (s: Node, act: Act)
    ensures Lived(s) && s.cell.closed && Enabled(s, act)
    ensures Lived(Step(s, act)) && !ServesNothing(s.log, Step(s, act).log)
  {
    var s1 := Start(0, 1, 1, 1);
    var s2 := EnterSpend(s1, 0, 1, 1);
    ReachStep(s2, Act(Closer(0, Close), 1));
    s := Step(s2, Act(Closer(0, Close), 1));
    act := Act(Spender(0, LockSpend), 1);
    ReachStep(s, act);
    ServesLate(s, act);
  }

  lemma ServesLate(s: Node, act: Act)
    requires !s.acquiring && s.spends == map[0 := Checked(1, false)] && act == Act(Spender(0, LockSpend), 1)
             && s.mono == 1
    requires s.cell.rate == 0 && s.cell.maxPauseNs == 0 && s.cell.next.None? && s.cell.cur.Some?
    requires s.cell.cur.value.remaining == 1 && s.cell.cur.value.deadlineMon == MAX64
    ensures var s' := Step(s, act);
            !ServesNothing(s.log, s'.log) && Total(Draws, s'.log) == Total(Draws, s.log)
  {
    ServedExactly(s.cell, 1, 1);
    var e := Served(s.cell.cur.value.leaseID, 1, 1, false);
    assert Step(s, act).log == s.log + [e];
    Appended(s.log, e);
    assert (s.log + [e])[|s.log|].Served?;
  }
}
