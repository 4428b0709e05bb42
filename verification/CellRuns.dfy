/** Runs of one cell, built step by step. */
module CellRuns {
  import opened Int64
  import opened Encoding
  import opened Options
  import opened LeaseCell
  import opened CellProtocol
  import opened CellLedger

  lemma ReachStep(s: Node, act: Act)
    requires Reachable(s) && Enabled(s, act)
    ensures Reachable(Step(s, act))
  {
    var s0: Node, acts: seq<Act> :| Init(s0) && Run(s0, acts) == Some(s);
    var all := acts + [act];
    assert all[..|all| - 1] == acts;
    assert Run(s0, all) == Some(Step(s, act));
  }

  /** Some run leads from s to s'. */
  ghost predicate Follows(s: Node, s': Node) {
    exists acts: seq<Act> :: Run(s, acts) == Some(s')
  }

  lemma Stays(s: Node)
    ensures Follows(s, s)
  {
    assert Run(s, []) == Some(s);
  }

  lemma FollowStep(s: Node, s1: Node, act: Act)
    requires Follows(s, s1) && Enabled(s1, act)
    ensures Follows(s, Step(s1, act))
  {
    var acts: seq<Act> :| Run(s, acts) == Some(s1);
    var all := acts + [act];
    assert all[..|all| - 1] == acts;
    assert Run(s, all) == Some(Step(s1, act));
  }

  /** A grant that neither expires nor sets a pause budget. */
  function Untimed(units: int64): DrawResult {
    DrawResult(units, 0, 0, 0, 0)
  }

  /** What a run adds to a log without serving anything: at most one more draw, and installs of this size only. */
  predicate Unserving(log: Log, log': Log, units: int) {
    && |log| <= |log'| && log == log'[..|log|]
    && Total(Draws, log') <= Total(Draws, log) + 1
    && forall i | |log| <= i < |log'| :: !log'[i].Served? && (log'[i].Installed? ==> log'[i].chunk.amount == units)
  }

  lemma UnservingAppends(log: Log, log': Log, units: int, e: Event)
    requires Unserving(log, log', units) && !e.Served? && (e.Installed? ==> e.chunk.amount == units)
    requires e.Drew? ==> Total(Draws, log') == Total(Draws, log)
    ensures Unserving(log, log' + [e], units)
    ensures !e.Drew? ==> Total(Draws, log' + [e]) == Total(Draws, log')
  {
    Appended(log', e);
  }

  // ----- Acquire -----

  /** Acquire, its first draw granting these units. */
  lemma Acquire(rate: int64, burst: int64, chunk: int64, now: int64, units: int64) returns (s: Node)
    requires 0 < now < MAX64 && 0 < units
    ensures Reachable(s) && s.mono == now && !s.acquiring && s.spends == map[] && s.bodies == map[]
            && s.closers == map[]
    ensures s.cell == Install(NewCell(rate, burst, chunk, [], now), 0, Untimed(units), now)
    ensures Unserving([], s.log, units)
  {
    var c := NewCell(rate, burst, chunk, [], now);
    var s0 := Node(c, true, now, map[], map[0 := Starting], map[], []);
    assert Run(s0, []) == Some(s0) && Init(s0);
    s := RefillBody(s0, 0, now, units);
  }

  /** A refill body that finds nothing buffered, from its start to its end; a report it owes is not acknowledged. */
  lemma RefillBody(s: Node, b: nat, now: int64, units: int64) returns (s': Node)
    requires Reachable(s) && b in s.bodies && s.bodies[b].Starting? && s.cell.next.None?
    requires s.mono <= now < MAX64 && 0 < units
    ensures Reachable(s') && s'.mono == now && !s'.acquiring && s'.spends == s.spends && s'.closers == s.closers
    ensures s'.bodies == s.bodies - {b}
    ensures s'.cell == Install(s.cell, s.cell.nonce, Untimed(units), now).(refilling := s.acquiring && s.cell.refilling)
    ensures Unserving(s.log, s'.log, units)
  {
    var s1 := BodyDraws(s, b, now, units);
    var s2 := BodyInstalls(s1, b, s1.bodies[b].nonce, now, units, s.log);
    ReachStep(s2, Act(Refiller(b, Finish), now));
    s' := Step(s2, Act(Refiller(b, Finish), now));
    assert s2.bodies - {b} == s.bodies - {b};
  }

  lemma BodyDraws(s: Node, b: nat, now: int64, units: int64) returns (s': Node)
    requires Reachable(s) && b in s.bodies && s.bodies[b].Starting? && s.cell.next.None? && s.mono <= now
    ensures Reachable(s') && s' == s.(mono := now, bodies := s.bodies[b := Drawing(s.cell.nonce, 0)], log := s'.log)
    ensures Unserving(s.log, s'.log, units)
  {
    var snapshot := Act(Refiller(b, Snapshot), now);
    ReachStep(s, snapshot);
    s' := Step(s, snapshot);
    SnapshotIs(s, b, now);
    var due, draw := ReportDue(s.cell), Drew(MakeLeaseID(s.cell.holder, s.cell.nonce), s.cell.chunk);
    if due.Some? {
      s' := ReportRefused(s', b, due.value.0, due.value.1, s.cell.nonce, now);
      ReportThenDraw(s.log, Attested(due.value.0, due.value.1), draw, units);
      assert s'.bodies == s.bodies[b := Drawing(s.cell.nonce, 0)];
    } else {
      DrawOnly(s.log, draw, units);
    }
  }

  lemma DrawOnly(log: Log, draw: Event, units: int)
    requires draw.Drew?
    ensures Unserving(log, log + [draw], units)
  {
    assert log[..|log|] == log;
    UnservingAppends(log, log, units, draw);
  }

  lemma ReportThenDraw(log: Log, report: Event, draw: Event, units: int)
    requires report.Attested? && draw.Drew?
    ensures Unserving(log, log + [report] + [draw], units)
  {
    assert log[..|log|] == log;
    UnservingAppends(log, log, units, report);
    UnservingAppends(log, log + [report], units, draw);
  }

  lemma SnapshotIs(s: Node, b: nat, now: int64)
    requires b in s.bodies && s.bodies[b].Starting? && s.cell.next.None? && s.mono <= now
    ensures var due, s' := ReportDue(s.cell), Step(s, Act(Refiller(b, Snapshot), now));
            s' == if due.Some?
                  then s.(mono := now, bodies := s.bodies[b := Reporting(due.value.0, due.value.1, s.cell.nonce)],
                          log := s.log + [Attested(due.value.0, due.value.1)])
                  else s.(mono := now, bodies := s.bodies[b := Drawing(s.cell.nonce, 0)],
                          log := s.log + [Drew(MakeLeaseID(s.cell.holder, s.cell.nonce), s.cell.chunk)])
  {
  }

  lemma ReportRefused(s: Node, b: nat, id: Bytes, spent: int64, nonce: uint64, now: int64) returns (s': Node)
    requires Reachable(s) && b in s.bodies && s.bodies[b] == Reporting(id, spent, nonce) && s.mono == now
    ensures Reachable(s')
    ensures s' == s.(bodies := s.bodies[b := Drawing(nonce, 0)],
                     log := s.log + [Drew(MakeLeaseID(s.cell.holder, nonce), s.cell.chunk)])
  {
    var refused := Act(Refiller(b, ReportReply(false)), now);
    ReachStep(s, refused);
    s' := Step(s, refused);
  }

  lemma BodyInstalls(s: Node, b: nat, nonce: uint64, now: int64, units: int64, log: Log) returns (s': Node)
    requires Reachable(s) && b in s.bodies && s.bodies[b] == Drawing(nonce, 0) && s.cell.next.None?
    requires s.mono == now < MAX64 && 0 < units && Unserving(log, s.log, units)
    ensures Reachable(s')
    ensures s' == s.(cell := Install(s.cell, nonce, Untimed(units), now), bodies := s.bodies[b := Done], log := s'.log)
    ensures Unserving(log, s'.log, units)
  {
    var gr := Untimed(units);
    var reply := Act(Refiller(b, DrawReply(Granted(gr), 0)), now);
    ReachStep(s, reply);
    var s1 := Step(s, reply);
    assert s1 == s.(bodies := s.bodies[b := Accepted(nonce, gr, 0, now)]);
    ReachStep(s1, Act(Refiller(b, LockInstall), now));
    s' := Step(s1, Act(Refiller(b, LockInstall), now));
    assert s'.bodies == s.bodies[b := Done];
    var drawn := FreshChunk(s.cell.holder, nonce, gr, now);
    var e := Installed(drawn, gr, 0, now, now);
    UnservingAppends(log, s.log, units, e);
    LeavingAppends(log, s.log + [e], units, Departures(s.cell.(next := Some(drawn)), s'.cell, false));
  }

  lemma {:induction false} LeavingAppends(log: Log, log': Log, units: int, left: Log)
    requires Unserving(log, log', units) && forall e | e in left :: e.Left?
    ensures Unserving(log, log' + left, units)
  {
    if left == [] {
      assert log' + left == log';
    } else {
      var front, e := left[..|left| - 1], left[|left| - 1];
      assert log' + left == log' + front + [e] && e in left;
      LeavingAppends(log, log', units, front);
      UnservingAppends(log, log' + front, units, e);
    }
  }

  // ----- Spend and its refill -----

  /** A whole Spend up to the release of the lock. */
  lemma SpendOnce(s: Node, t: nat, n: int64, now: int64) returns (s': Node)
    requires Reachable(s) && !s.acquiring && !s.cell.closed && t !in s.spends && 0 < n && s.mono <= now
    ensures var s1 := s.(mono := now, spends := s.spends[t := Checked(n, false)]);
            s' == AfterSpend(s1, t, now) && Reachable(s')
  {
    var s1 := EnterSpend(s, t, n, now);
    ReachStep(s1, Act(Spender(t, LockSpend), now));
    s' := Step(s1, Act(Spender(t, LockSpend), now));
  }

  /** A Spend up to its closed check, which it passes. */
  lemma EnterSpend(s: Node, t: nat, n: int64, now: int64) returns (s': Node)
    requires Reachable(s) && !s.acquiring && !s.cell.closed && t !in s.spends && 0 < n && s.mono <= now
    ensures s' == s.(mono := now, spends := s.spends[t := Checked(n, false)]) && Reachable(s')
  {
    ReachStep(s, Act(Spender(t, Call(n)), now));
    var s1 := Step(s, Act(Spender(t, Call(n)), now));
    ReachStep(s1, Act(Spender(t, CheckClosed), now));
    s' := Step(s1, Act(Spender(t, CheckClosed), now));
    assert s'.spends == s.spends[t := Checked(n, false)];
  }

  /** The refill a spend asked for, granting these units. */
  lemma RefillAfter(s: Node, t: nat, now: int64, units: int64) returns (s': Node)
    requires Reachable(s) && !s.acquiring && t in s.spends && s.spends[t].Triggering? && s.bodies == map[]
    requires !s.cell.closed && !s.cell.refilling && s.cell.next.None? && s.mono <= now < MAX64 && 0 < units
    ensures Reachable(s') && s'.mono == now && !s'.acquiring && s'.spends == s.spends - {t} && s'.bodies == map[]
    ensures s'.cell == Install(s.cell, s.cell.nonce, Untimed(units), now)
    ensures Unserving(s.log, s'.log, units)
  {
    ReachStep(s, Act(Spender(t, CheckRefill), now));
    var s1 := Step(s, Act(Spender(t, CheckRefill), now));
    ReachStep(s1, Act(Spender(t, Claim(0)), now));
    var s2 := Step(s1, Act(Spender(t, Claim(0)), now));
    assert s2.spends == s.spends - {t} && s2.bodies == map[0 := Starting];
    s' := RefillBody(s2, 0, now, units);
    assert s'.bodies == map[];
  }

  // ----- a state to start from -----

  /** One chunk of these units is current and untouched; nothing is buffered, nothing fences, nothing expires. */
  predicate FreshCache(c: Cell, units: int64) {
    && c.cur.Some? && c.next.None? && c.maxPauseNs == 0 && !c.closed && !c.refilling && 0 < c.lowWatermark
    && c.cur.value.remaining == c.cur.value.amount == units && c.cur.value.spent == 0
    && c.cur.value.deadlineMon == MAX64
  }

  predicate Idle(s: Node) {
    !s.acquiring && s.bodies == map[] && s.spends == map[]
  }

  lemma Start(rate: int64, burst: int64, chunk: int64, units: int64) returns (s: Node)
    requires 0 < units && 0 < burst && 0 < chunk
    ensures Reachable(s) && Idle(s) && s.closers == map[] && s.mono == 1 && FreshCache(s.cell, units)
    ensures s.cell.rate == rate && s.cell.burst == s.cell.tokens == burst && s.cell.lastTokenMon == 1
            && s.cell.chunk == chunk
    ensures Unserving([], s.log, units)
  {
    s := Acquire(rate, burst, chunk, 1, units);
  }

  lemma {:induction false} UnservingTotals(log: Log, log': Log, units: int, m: Meter)
    requires Unserving(log, log', units) && m.ServedWithin?
    ensures Total(m, log') == Total(m, log)
    decreases |log'|
  {
    if |log'| == |log| {
      assert log' == log;
    } else {
      var n := |log'| - 1;
      assert log'[..n][..|log|] == log;
      FewerDraws(log'[..n], log'[n]);
      UnservingTotals(log, log'[..n], units, m);
    }
  }

  lemma FewerDraws(log: Log, e: Event)
    ensures forall log' | log' == log + [e] :: Total(Draws, log) <= Total(Draws, log')
  {
    Appended(log, e);
  }
}
