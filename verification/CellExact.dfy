/** Where the bounds of a cell end: each holds in every run exactly under a condition on its configuration, and outside
    it some run breaks the bound. */
module CellExact {
  import opened Int64
  import opened TokenBucket
  import opened Options
  import opened LeaseCell
  import opened CellProtocol
  import opened CellLedger
  import opened CellPacing
  import opened CellTheorems
  import opened CellRuns

  /** The level an accrual at this instant leaves. */
  function Accrued(c: Cell, now: int64): int64 {
    AccrueTokens(c, now).tokens
  }

  /** A spend of the whole current chunk. */
  lemma SpendAll(s: Node, units: int64, now: int64) returns (s': Node)
    requires Reachable(s) && Idle(s) && FreshCache(s.cell, units) && s.mono <= now < MAX64
    requires 0 < units && 0 < s.cell.rate && units <= Accrued(s.cell, now)
    ensures Reachable(s') && s'.mono == now && !s'.acquiring && s'.bodies == map[] && s'.spends == map[0 := Triggering]
    ensures var c := AccrueTokens(s.cell, now);
            s'.cell == c.(cur := Some(Debit(c.cur.value, units)), tokens := c.tokens - units, lastSeenMon := now)
    ensures s'.log == s.log + [Served(s.cell.cur.value.leaseID, units, now, false)]
  {
    s' := SpendOnce(s, 0, units, now);
    assert s'.spends == map[0 := Triggering];
  }

  /** The refill that follows it, of the same size. */
  lemma Refills(s: Node, units: int64, now: int64) returns (s': Node)
    requires Reachable(s) && !s.acquiring && s.bodies == map[] && s.spends == map[0 := Triggering]
             && s.mono <= now < MAX64
    requires 0 < units && s.cell.cur.Some? && s.cell.cur.value.remaining == 0 && s.cell.next.None?
    requires s.cell.maxPauseNs == 0 && !s.cell.closed && !s.cell.refilling && 0 < s.cell.lowWatermark
    ensures Reachable(s') && Idle(s') && s'.mono == now && FreshCache(s'.cell, units)
    ensures s'.cell.rate == s.cell.rate && s'.cell.burst == s.cell.burst
    ensures s'.cell.tokens == s.cell.tokens && s'.cell.lastTokenMon == s.cell.lastTokenMon
    ensures Unserving(s.log, s'.log, units)
  {
    s' := RefillAfter(s, 0, now, units);
    assert s'.spends == map[];
  }

  // ----- pacing -----

  /** No cell of this rate and burst ever serves more in a window than a burst and what the window earns. */
  ghost predicate CellsPaced(rate: int64, burst: int64) {
    forall s: Node, t1: int, t2: int | Lived(s) && s.cell.rate == rate && s.cell.burst == burst && t1 <= t2 ::
      Total(ServedWithin(t1, t2), s.log) <= burst + Earned(rate, t2 - t1)
  }

  /** The rate bound holds in all runs of all cells exactly when the full-refill gap fits in int64. */
  lemma CellsPacedExact(rate: int64, burst: int64)
    requires 0 < rate && 0 < burst
    ensures CellsPaced(rate, burst) <==> GapFits(rate, burst)
  {
    if GapFits(rate, burst) {
      forall s: Node, t1: int, t2: int | Lived(s) && s.cell.rate == rate && s.cell.burst == burst && t1 <= t2
        ensures Total(ServedWithin(t1, t2), s.log) <= burst + Earned(rate, t2 - t1)
      {
        RateBound(s, t1, t2);
      }
    } else {
      var s, e := TwoBurstsServed(rate, burst);
      assert Total(ServedWithin(1, 1 + e), s.log) > burst + Earned(rate, (1 + e) - 1);
    }
  }

  lemma TwoBurstsServed(rate: int64, burst: int64) returns (s: Node, e: int64)
    requires 0 < rate && 0 < burst && !GapFits(rate, burst)
    ensures Lived(s) && s.cell.rate == rate && s.cell.burst == burst && 0 < e < MAX64 - 1
    ensures Total(ServedWithin(1, 1 + e), s.log) == 2 * burst > burst + Earned(rate, e)
  {
    e := EarlyRefill(rate, burst, 0);
    var s1 := OneBurst(rate, burst);
    AccruedIs(s1.cell, e);
    s := SpendAll(s1, burst, 1 + e);
    AppendedOne(Draws, s1.log, s.log[|s1.log|]);
    AppendedOne(ServedWithin(1, 1 + e), s1.log, s.log[|s1.log|]);
  }

  lemma AccruedIs(c: Cell, e: int64)
    requires 0 < c.rate && c.lastTokenMon == 1 && 0 < e < MAX64
    ensures Accrued(c, 1 + e) == TopUp(c.rate, c.burst, c.tokens, e)
    ensures AccrueTokens(c, 1 + e) == c.(tokens := TopUp(c.rate, c.burst, c.tokens, e), lastTokenMon := 1 + e)
  {
    AccrueForward(c.rate, c.burst, Bucket(c.tokens, c.lastTokenMon), 1 + e);
  }

  /** A cell that has just served a full burst and cached another. */
  lemma OneBurst(rate: int64, burst: int64) returns (s: Node)
    requires 0 < rate && 0 < burst
    ensures Reachable(s) && Idle(s) && s.mono == 1 && FreshCache(s.cell, burst)
    ensures s.cell.rate == rate && s.cell.burst == burst && s.cell.tokens == 0 && s.cell.lastTokenMon == 1
    ensures Total(Draws, s.log) <= 2
    ensures forall to: int | 1 <= to :: Total(ServedWithin(1, to), s.log) == burst
  {
    var s1 := Start(rate, burst, burst, burst);
    var s2 := SpendAll(s1, burst, 1);
    s := Refills(s2, burst, 1);
    AppendedOne(Draws, s1.log, s2.log[|s1.log|]);
    forall to: int | 1 <= to
      ensures Total(ServedWithin(1, to), s.log) == burst
    {
      UnservingTotals([], s1.log, burst, ServedWithin(1, to));
      AppendedOne(ServedWithin(1, to), s1.log, s2.log[|s1.log|]);
      UnservingTotals(s2.log, s.log, burst, ServedWithin(1, to));
    }
  }

  // ----- the level -----

  /** No cell of this rate and burst ever holds less than zero tokens. */
  ghost predicate CellsNonNegative(rate: int64, burst: int64) {
    forall s: Node | Lived(s) && s.cell.rate == rate && s.cell.burst == burst :: 0 <= s.cell.tokens
  }

  /** The bucket stays between zero and its ceiling in all runs of all cells exactly when LevelFits. */
  lemma CellsNonNegativeExact(rate: int64, burst: int64)
    requires 0 < rate && 0 < burst
    ensures CellsNonNegative(rate, burst) <==> LevelFits(rate, burst)
  {
    if LevelFits(rate, burst) {
      forall s: Node | Lived(s) && s.cell.rate == rate && s.cell.burst == burst
        ensures 0 <= s.cell.tokens
      {
        TokensInRange(s);
      }
    } else {
      var s := DrivenNegative(rate, burst);
    }
  }

  /** A full bucket, or one a spend has just drained, accrues to a negative level. */
  lemma DrivenNegative(rate: int64, burst: int64) returns (s: Node)
    requires 0 < rate && 0 < burst && !LevelFits(rate, burst)
    ensures Lived(s) && s.cell.rate == rate && s.cell.burst == burst && s.cell.tokens < 0
  {
    var level, e := NegativeLevel(rate, burst);
    var s1 := Start(rate, burst, burst, burst);
    if level == burst {
      AccruedIs(s1.cell, e);
      s := PacedOut(s1, 0, 1 + e);
    } else {
      s := DrainedNegative(s1, e);
    }
  }

  lemma DrainedNegative(s: Node, e: int64) returns (s': Node)
    requires Reachable(s) && Idle(s) && s.mono == 1 && FreshCache(s.cell, s.cell.burst)
    requires 0 < s.cell.rate && 0 < s.cell.burst == s.cell.tokens && s.cell.lastTokenMon == 1
             && Total(Draws, s.log) <= 1
    requires 0 < e < MAX64 && TopUp(s.cell.rate, s.cell.burst, 0, e) < 0
    ensures Lived(s') && s'.cell.rate == s.cell.rate && s'.cell.burst == s.cell.burst && s'.cell.tokens < 0
  {
    var s1 := SpendAll(s, s.cell.burst, 1);
    AppendedOne(Draws, s.log, s1.log[|s.log|]);
    AccruedIs(s1.cell, e);
    s' := PacedOut(s1, 1, 1 + e);
  }

  /** A spend that accrues to less than one token leaves that level. */
  lemma PacedOut(s: Node, t: nat, now: int64) returns (s': Node)
    requires Reachable(s) && !s.acquiring && !s.cell.closed && t !in s.spends && s.mono <= now
    requires 0 < s.cell.rate && s.cell.maxPauseNs == 0 && Accrued(s.cell, now) < 1
    ensures Reachable(s') && s'.log == s.log
    ensures s'.cell.rate == s.cell.rate && s'.cell.burst == s.cell.burst && s'.cell.tokens == Accrued(s.cell, now)
  {
    s' := SpendOnce(s, t, 1, now);
    assert s'.log == s.log;
  }

  // ----- exposure -----

  /** While no grant exceeds this many units, no cell of this chunk size ever caches more than two chunks. */
  ghost predicate CellsExposed(chunk: int64, units: int64) {
    forall s: Node | Lived(s) && s.cell.chunk == chunk && GrantsWithin(s.log, units) :: Cached(s.cell) <= 2 * chunk
  }

  /** The exposure bound holds in all runs exactly when grants are bounded by the requested chunk. */
  lemma ExposureExact(chunk: int64, units: int64)
    requires 0 < chunk && 0 < units
    ensures CellsExposed(chunk, units) <==> units <= chunk
  {
    if units <= chunk {
      forall s: Node | Lived(s) && s.cell.chunk == chunk && GrantsWithin(s.log, units)
        ensures Cached(s.cell) <= 2 * chunk
      {
        BoundedExposure(s);
      }
    } else {
      var s := OverExposed(chunk, units);
    }
  }

  /** Two grants above the request, the second after a spend that the first could not cover. */
  lemma OverExposed(chunk: int64, units: int64) returns (s: Node)
    requires 0 < chunk < units
    ensures Lived(s) && s.cell.chunk == chunk && GrantsWithin(s.log, units) && 2 * chunk < Cached(s.cell)
  {
    var first: int64 := Min(units, MAX64 - 1);
    var s1 := Start(0, 1, chunk, first);
    var s2 := Blocked(s1, first);
    s := BuffersBehind(s2, units);
    SizesExtend([], s1.log, first, units);
    SizesExtend(s1.log, s.log, units, units);
  }

  /** A spend of one unit more than is cached moves nothing and asks for a refill. */
  lemma Blocked(s: Node, units: int64) returns (s': Node)
    requires Reachable(s) && Idle(s) && FreshCache(s.cell, units) && s.cell.rate == 0 && s.mono == 1
             && 0 < units < MAX64
    ensures Reachable(s') && s'.cell == s.cell && s'.log == s.log && s'.mono == 1
    ensures !s'.acquiring && s'.bodies == map[] && s'.spends == map[0 := Triggering]
  {
    s' := SpendOnce(s, 0, units + 1, 1);
    var o := SpendLocked(s.cell, units + 1, 1);
    assert o.cell == s.cell && o.verdict == BudgetUnavailable && !Fences(s.cell, 1);
    assert SpendEvents(s.cell, o, units + 1, 1, false) == [];
    assert s'.spends == map[0 := Triggering];
  }

  lemma BuffersBehind(s: Node, units: int64) returns (s': Node)
    requires Reachable(s) && !s.acquiring && s.bodies == map[] && s.spends == map[0 := Triggering] && s.mono == 1
    requires 0 < units && s.cell.cur.Some? && FreshCache(s.cell, s.cell.cur.value.remaining)
             && 0 < s.cell.cur.value.remaining
    ensures Reachable(s') && s'.cell.chunk == s.cell.chunk && Cached(s'.cell) == s.cell.cur.value.remaining + units
    ensures Unserving(s.log, s'.log, units)
  {
    s' := RefillAfter(s, 0, 1, units);
    assert s'.cell.cur == s.cell.cur && s'.cell.next.Some? && s'.cell.next.value.remaining == units;
  }

  lemma SizesExtend(log: Log, log': Log, size: int, units: int)
    requires Unserving(log, log', size) && size <= units && GrantsWithin(log, units)
    ensures GrantsWithin(log', units)
  {
    forall i | 0 <= i < |log'| && log'[i].Installed?
      ensures log'[i].chunk.amount <= units
    {
      assert i < |log| ==> log'[i] == log[i];
    }
  }
}
