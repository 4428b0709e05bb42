/** The rate bound and the exposure bound of one cell over whole runs. */
module CellPacing {
  import opened Int64
  import opened TokenBucket
  import opened Options
  import opened LeaseCell
  import opened CellProtocol
  import opened CellLedger
  import opened CellInvariant
  import opened CellSteps
  import opened CellTiming

  // ----- pacing -----

  predicate ServedBy(log: Log, last: int) {
    forall i | 0 <= i < |log| && log[i].Served? :: log[i].now <= last
  }

  /** What the windows ending now may still serve covers the level, and no past window exceeded the bound. */
  ghost predicate PaceLog(rate: int64, burst: int64, tokens: int64, last: int64, log: Log) {
    && tokens <= burst && 0 < last && ServedBy(log, last)
    && (forall t: int | t <= last :: Roomy(rate, burst, tokens, last, log, t))
    && (forall t1: int, t2: int | t1 <= t2 :: WindowOk(rate, burst, log, t1, t2))
  }

  predicate Roomy(rate: int64, burst: int64, tokens: int64, last: int64, log: Log, t: int) {
    HasRoom(burst + Earned(rate, last - t) - Total(ServedWithin(t, last), log), burst, tokens)
  }

  predicate WindowOk(rate: int64, burst: int64, log: Log, t1: int, t2: int) {
    Total(ServedWithin(t1, t2), log) <= burst + Earned(rate, t2 - t1)
  }

  predicate Paces(c: Cell) {
    0 < c.rate && GapFits(c.rate, c.burst)
  }

  predicate TokensOk(c: Cell) {
    0 < c.rate ==> c.tokens <= c.burst && (LevelFits(c.rate, c.burst) ==> 0 <= c.tokens)
  }

  lemma SpendKeepsTokens(c: Cell, o: Outcome, n: int64, now: int64)
    requires 0 < n && TokensOk(c) && 0 < c.burst && 0 < c.lastTokenMon <= now && PacedShape(c, n, now, o)
    requires Fences(c, now) ==> o.verdict != Success
    ensures TokensOk(o.cell)
  {
    if 0 < c.rate && LevelFits(c.rate, c.burst) && c.lastTokenMon < now {
      LevelStays(c.rate, c.burst, c.tokens, now - c.lastTokenMon);
    }
  }

  ghost predicate Pace(s: Node) {
    && 0 < s.cell.burst && 0 < s.cell.lastTokenMon <= s.mono
    && TokensOk(s.cell)
    && (Paces(s.cell) ==> PaceLog(s.cell.rate, s.cell.burst, s.cell.tokens, s.cell.lastTokenMon, s.log))
  }

  /** Widening a window past the last serve adds nothing; a window after it is empty. */
  lemma {:induction false} WindowEnd(log: Log, last: int, t: int, to: int)
    requires ServedBy(log, last) && last <= to
    ensures Total(ServedWithin(t, to), log) == Total(ServedWithin(t, last), log)
    ensures last < t ==> Total(ServedWithin(t, to), log) == 0
  {
    if log != [] {
      WindowEnd(log[..|log| - 1], last, t, to);
    }
  }

  lemma AccrueKeepsPace(rate: int64, burst: int64, b: Bucket, now: int64, log: Log)
    requires 0 < rate && 0 < burst && GapFits(rate, burst) && PaceLog(rate, burst, b.tokens, b.last, log)
             && b.last <= now
    ensures var b' := Accrue(rate, burst, b, now);
            b'.last == now && PaceLog(rate, burst, b'.tokens, b'.last, log)
  {
    var gap := now - b.last;
    if 0 < gap {
      var b' := Accrue(rate, burst, b, now);
      AccrualKeepsRoom(rate, burst, b.tokens, gap,
          burst + Earned(rate, 0) - Total(ServedWithin(b.last, b.last), log)) by {
        assert Roomy(rate, burst, b.tokens, b.last, log, b.last);
      }
      forall t: int | t <= now
        ensures Roomy(rate, burst, b'.tokens, now, log, t)
      {
        WindowEnd(log, b.last, t, now);
        if t <= b.last {
          assert Roomy(rate, burst, b.tokens, b.last, log, t);
          RoomGrows(rate, burst, b, now, log, t);
        } else {
          EarnedNonNegative(rate, now - t);
        }
      }
    }
  }

  lemma RoomGrows(rate: int64, burst: int64, b: Bucket, now: int64, log: Log, t: int)
    requires 0 < rate && 0 < burst && GapFits(rate, burst) && t <= b.last < now && 0 < b.last
    requires b.tokens <= burst && Roomy(rate, burst, b.tokens, b.last, log, t)
    requires Total(ServedWithin(t, now), log) == Total(ServedWithin(t, b.last), log)
    ensures Roomy(rate, burst, Accrue(rate, burst, b, now).tokens, now, log, t)
  {
    var room := burst + Earned(rate, b.last - t) - Total(ServedWithin(t, b.last), log);
    AccrualKeepsRoom(rate, burst, b.tokens, now - b.last, room);
    EarnedAdds(rate, b.last - t, now - b.last);
  }

  lemma {:induction false} QuietKeepsPace(rate: int64, burst: int64, tokens: int64, last: int64, log: Log, events: Log)
    requires PaceLog(rate, burst, tokens, last, log) && forall e | e in events :: !e.Served?
    ensures PaceLog(rate, burst, tokens, last, log + events)
  {
    if events == [] {
      assert log + events == log;
    } else {
      var front, e := events[..|events| - 1], events[|events| - 1];
      assert log + events == log + front + [e];
      QuietKeepsPace(rate, burst, tokens, last, log, front);
      Appended(log + front, e);
      QuietOne(rate, burst, tokens, last, log + front, e);
    }
  }

  lemma QuietOne(rate: int64, burst: int64, tokens: int64, last: int64, log: Log, e: Event)
    requires PaceLog(rate, burst, tokens, last, log) && !e.Served?
    ensures PaceLog(rate, burst, tokens, last, log + [e])
  {
    var log' := log + [e];
    forall t: int | t <= last
      ensures Roomy(rate, burst, tokens, last, log', t)
    {
      assert Roomy(rate, burst, tokens, last, log, t);
      AppendedOne(ServedWithin(t, last), log, e);
    }
    forall t1: int, t2: int | t1 <= t2
      ensures WindowOk(rate, burst, log', t1, t2)
    {
      assert WindowOk(rate, burst, log, t1, t2);
      AppendedOne(ServedWithin(t1, t2), log, e);
    }
  }

  lemma ServeKeepsPace(rate: int64, burst: int64, tokens: int64, now: int64, log: Log, e: Event)
    requires 0 < rate && PaceLog(rate, burst, tokens, now, log) && e.Served? && e.now == now && 0 < e.n <= tokens
    ensures PaceLog(rate, burst, tokens - e.n, now, log + [e])
  {
    var log', level := log + [e], tokens - e.n;
    forall t: int | t <= now
      ensures Roomy(rate, burst, level, now, log', t)
    {
      assert Roomy(rate, burst, tokens, now, log, t);
      AppendedOne(ServedWithin(t, now), log, e);
    }
    forall t1: int, t2: int | t1 <= t2
      ensures WindowOk(rate, burst, log', t1, t2)
    {
      assert WindowOk(rate, burst, log, t1, t2);
      AppendedOne(ServedWithin(t1, t2), log, e);
      if t1 <= now && now <= t2 {
        WindowCloses(rate, burst, level, now, log', t1, t2);
      }
    }
  }

  /** A window that ends at or after the latest serve is covered by the room it had left. */
  lemma WindowCloses(rate: int64, burst: int64, tokens: int64, now: int64, log: Log, t1: int, t2: int)
    requires 0 < rate && 0 <= tokens && ServedBy(log, now) && t1 <= now && now <= t2
    requires Roomy(rate, burst, tokens, now, log, t1)
    ensures WindowOk(rate, burst, log, t1, t2)
  {
    WindowEnd(log, now, t1, t2);
    EarnedAdds(rate, now - t1, t2 - now);
    EarnedNonNegative(rate, t2 - now);
  }

  /** What a spend does to the bucket. */
  predicate PacedShape(c: Cell, n: int64, now: int64, o: Outcome) {
    var b := Accrue(c.rate, c.burst, Bucket(c.tokens, c.lastTokenMon), now);
    && o.cell.rate == c.rate && o.cell.burst == c.burst
    && (Fences(c, now) ==> o.cell.tokens == c.tokens && o.cell.lastTokenMon == c.lastTokenMon)
    && (!Fences(c, now) ==> o.cell.lastTokenMon == b.last)
    && (!Fences(c, now) && o.verdict != Success ==> o.cell.tokens == b.tokens)
    && (o.verdict == Success && 0 < c.rate ==> n <= b.tokens && o.cell.tokens == b.tokens - n)
  }

  lemma SpendHasPacedShape(c: Cell, n: int64, now: int64)
    requires 0 < n
    ensures PacedShape(c, n, now, SpendLocked(c, n, now))
  {
  }

  lemma SpendKeepsPace(c: Cell, o: Outcome, n: int64, now: int64, late: bool, log: Log)
    requires 0 < n && CellOk(c) && SpendShape(c, n, now, o) && PacedShape(c, n, now, o)
    requires 0 < c.burst && Paces(c) && 0 < c.lastTokenMon <= now
    requires PaceLog(c.rate, c.burst, c.tokens, c.lastTokenMon, log)
    ensures PaceLog(c.rate, c.burst, o.cell.tokens, o.cell.lastTokenMon, log + SpendEvents(c, o, n, now, late))
  {
    var b := Bucket(c.tokens, c.lastTokenMon);
    var events := SpendEvents(c, o, n, now, late);
    SpendEventKinds(c, o, n, now, late);
    if Fences(c, now) {
      QuietKeepsPace(c.rate, c.burst, c.tokens, c.lastTokenMon, log, events);
    } else {
      var b' := Accrue(c.rate, c.burst, b, now);
      AccrueKeepsPace(c.rate, c.burst, b, now, log);
      if o.verdict == Success {
        SpendEventsAre(c, o, n, now, late);
        LeaveAndServe(c.rate, c.burst, b'.tokens, now, log, Departures(c, Promote(c, now), false),
            ServeOf(c, n, now, late));
      } else {
        QuietKeepsPace(c.rate, c.burst, b'.tokens, now, log, events);
      }
    }
  }

  lemma LeaveAndServe(rate: int64, burst: int64, tokens: int64, now: int64, log: Log, left: Log, e: Event)
    requires 0 < rate && PaceLog(rate, burst, tokens, now, log) && (forall x | x in left :: !x.Served?)
    requires e.Served? && e.now == now && 0 < e.n <= tokens
    ensures PaceLog(rate, burst, tokens - e.n, now, log + (left + [e]))
  {
    QuietKeepsPace(rate, burst, tokens, now, log, left);
    ServeKeepsPace(rate, burst, tokens, now, log + left, e);
    assert log + (left + [e]) == log + left + [e];
  }

  lemma LockSpendKeepsPace(s: Node, t: nat, now: int64)
    requires CellOk(s.cell) && Pace(s) && s.mono == now && t in s.spends && s.spends[t].Checked? && 0 < s.spends[t].n
    ensures Pace(AfterSpend(s, t, now))
  {
    var pc := s.spends[t];
    SpendHasShape(s.cell, pc.n, now);
    SpendHasPacedShape(s.cell, pc.n, now);
    var o := SpendLocked(s.cell, pc.n, now);
    assert 0 < o.cell.lastTokenMon <= now;
    SpendKeepsTokens(s.cell, o, pc.n, now);
    if Paces(s.cell) {
      SpendKeepsPace(s.cell, o, pc.n, now, pc.late, s.log);
    }
  }

  lemma QuietStepKeepsPace(s: Node, s': Node, events: Log)
    requires Pace(s) && s'.log == s.log + events && (forall e | e in events :: !e.Served?) && s'.mono == s.mono
    requires s'.cell.rate == s.cell.rate && s'.cell.burst == s.cell.burst
    requires s'.cell.tokens == s.cell.tokens && s'.cell.lastTokenMon == s.cell.lastTokenMon
    ensures Pace(s')
  {
    if Paces(s.cell) {
      QuietKeepsPace(s.cell.rate, s.cell.burst, s.cell.tokens, s.cell.lastTokenMon, s.log, events);
    }
  }

  // ----- exposure -----

  predicate GrantsWithin(log: Log, units: int) {
    forall i | 0 <= i < |log| && log[i].Installed? :: log[i].chunk.amount <= units
  }

  /** While no grant exceeds its request, no cached chunk does. */
  predicate Exposure(s: Node) {
    GrantsWithin(s.log, s.cell.chunk) ==>
      && (s.cell.cur.Some? ==> s.cell.cur.value.amount <= s.cell.chunk)
      && (s.cell.next.Some? ==> s.cell.next.value.amount <= s.cell.chunk)
  }

  predicate FromCache(ch: Option<Chunk>, c: Cell) {
    ch.Some? ==>
      || (c.cur.Some? && ch.value.amount == c.cur.value.amount)
      || (c.next.Some? && ch.value.amount == c.next.value.amount)
  }

  lemma ExposureFrame(s: Node, s': Node, events: Log)
    requires Exposure(s) && s'.log == s.log + events && s'.cell.chunk == s.cell.chunk
    requires FromCache(s'.cell.cur, s.cell) && FromCache(s'.cell.next, s.cell)
    ensures Exposure(s')
  {
    if GrantsWithin(s'.log, s'.cell.chunk) {
      assert forall i | 0 <= i < |s.log| :: s'.log[i] == s.log[i];
    }
  }

  lemma InstallKeepsExposure(s: Node, b: nat, now: int64)
    requires Exposure(s) && b in s.bodies && s.bodies[b].Accepted?
    ensures Exposure(AfterInstall(s, b, now))
  {
    var pc, s' := s.bodies[b], AfterInstall(s, b, now);
    if GrantsWithin(s'.log, s'.cell.chunk) {
      var drawn := FreshChunk(s.cell.holder, pc.nonce, pc.grant, now);
      assert s'.log[|s.log|] == Installed(drawn, pc.grant, pc.wall, pc.gateNow, now);
      assert forall i | 0 <= i < |s.log| :: s'.log[i] == s.log[i];
    }
  }

  // ----- the step -----

  ghost predicate Bounds(s: Node) {
    Pace(s) && Exposure(s)
  }

  lemma SpendStepKeepsBounds(s: Node, t: nat, call: SpendCall, now: int64)
    requires Core(s) && Bounds(s) && SpendEnabled(s, t, call) && s.mono == now
    ensures Bounds(SpendStep(s, t, call, now))
  {
    var s' := SpendStep(s, t, call, now);
    match call
    case LockSpend =>
      LockSpendKeepsPace(s, t, now);
      LockSpendKeepsExposure(s, t, now);
    case _ =>
      assert s'.log == s.log + [];
      QuietStepKeepsPace(s, s', []);
      ExposureFrame(s, s', []);
  }

  lemma LockSpendKeepsExposure(s: Node, t: nat, now: int64)
    requires Exposure(s) && t in s.spends && s.spends[t].Checked? && 0 < s.spends[t].n
    ensures Exposure(AfterSpend(s, t, now))
  {
    var pc := s.spends[t];
    SpendHasShape(s.cell, pc.n, now);
    ExposureFrame(s, AfterSpend(s, t, now), SpendEvents(s.cell, SpendLocked(s.cell, pc.n, now), pc.n, now, pc.late));
  }

  lemma RefillStepKeepsBounds(s: Node, b: nat, call: RefillCall, now: int64)
    requires Core(s) && Bounds(s) && RefillEnabled(s, b, call) && s.mono == now && Total(Draws, s.log) < TWO64
    ensures Bounds(RefillStep(s, b, call, now))
  {
    assert BodyOk(s.bodies[b], s.cell, s.log, s.mono);
    var events := RefillEvents(s, b, call, now);
    QuietStepKeepsPace(s, RefillStep(s, b, call, now), events);
    match call
    case LockInstall => InstallKeepsExposure(s, b, now);
    case _ => ExposureFrame(s, RefillStep(s, b, call, now), events);
  }

  lemma CloseStepKeepsBounds(s: Node, r: nat, call: CloseCall)
    requires Core(s) && Bounds(s) && CloseEnabled(s, r, call)
    ensures Bounds(CloseStep(s, r, call))
  {
    var events := CloseEvents(s, r, call);
    QuietStepKeepsPace(s, CloseStep(s, r, call), events);
    ExposureFrame(s, CloseStep(s, r, call), events);
  }

  lemma StepKeepsBounds(s: Node, act: Act)
    requires Core(s) && Bounds(s) && Enabled(s, act) && Total(Draws, s.log) < TWO64
    ensures Bounds(Step(s, act))
  {
    var s1 := s.(mono := act.now);
    TickKeeps(s, act.now);
    assert Bounds(s1);
    match act.lab {
      case Spender(t, call) => SpendStepKeepsBounds(s1, t, call, act.now);
      case Refiller(b, call) => RefillStepKeepsBounds(s1, b, call, act.now);
      case Closer(r, call) => CloseStepKeepsBounds(s1, r, call);
    }
  }
}
