/** What each locked section of a cell does, in plain integers: every comparison, unit and default written out. */
module CellFacts {
  import opened Int64
  import opened Encoding
  import opened TokenBucket
  import opened Options
  import opened LeaseCell

  // ----- Acquire -----

  /** Units and ceiling fall back to 1000 units and to the chunk size; the bucket starts full, nothing is cached, and
      a refill is due below a quarter of a chunk, or below one unit for the smallest chunks. */
  lemma AcquireFacts(rate: int64, burst: int64, chunk: int64, holder: Bytes, now: int64)
    ensures var c := NewCell(rate, burst, chunk, holder, now);
            && (0 < chunk ==> c.chunk == chunk) && (chunk <= 0 ==> c.chunk == 1000)
            && (0 < burst ==> c.burst == burst) && (burst <= 0 ==> c.burst == c.chunk)
            && c.rate == rate && c.tokens == c.burst && c.lastTokenMon == now
            && (4 <= c.chunk ==> 4 * c.lowWatermark <= c.chunk < 4 * c.lowWatermark + 4)
            && (c.chunk < 4 ==> c.lowWatermark == 1)
            && c.cur.None? && c.next.None? && !c.closed && !c.refilling
            && c.maxPauseNs == 0 && c.lastSeenMon == 0 && c.holder == holder && c.nonce == 0
  {
  }

  // ----- Spend -----

  /** The bucket level a spend at this instant finds. */
  function Level(c: Cell, now: int64): int64 {
    Accrue(c.rate, c.burst, Bucket(c.tokens, c.lastTokenMon), now).tokens
  }

  /** cur is live and not drained. */
  predicate CurServes(c: Cell, now: int64) {
    c.cur.Some? && now < c.cur.value.deadlineMon && c.cur.value.remaining != 0
  }

  /** What a spend may draw on: cur while it serves, else a live next. */
  function OnHand(c: Cell, now: int64): int64 {
    if CurServes(c, now) then c.cur.value.remaining
    else if c.next.Some? && now < c.next.value.deadlineMon then c.next.value.remaining
    else 0
  }

  /** The pause since the anchor exceeds the budget. */
  predicate Overslept(c: Cell, now: int64) {
    0 < c.maxPauseNs && 0 < c.lastSeenMon && now - c.lastSeenMon > c.maxPauseNs
  }

  predicate PacedOut(c: Cell, n: int64, now: int64) {
    0 < c.rate && Level(c, now) < n
  }

  /** Which of the three results a spend has, and whether it asks for a refill. */
  lemma SpendResult(c: Cell, n: int64, now: int64)
    requires 0 < n && 0 <= c.lastSeenMon <= now
    ensures var o := SpendLocked(c, n, now);
            && (o.verdict == PacingThrottled <==> !Overslept(c, now) && PacedOut(c, n, now))
            && (o.verdict == Success <==> !Overslept(c, now) && !PacedOut(c, n, now) && n <= OnHand(c, now))
            && (o.verdict == PacingThrottled ==> !o.trigger)
            && (o.verdict == BudgetUnavailable ==> o.trigger)
            && (o.verdict == Success ==>
                  (o.trigger <==> OnHand(c, now) - n < c.lowWatermark && (CurServes(c, now) ==> c.next.None?)))
  {
  }

  /** What a spend leaves: the chunks it dropped or promoted, the debit, the level and the anchor. */
  lemma SpendEffect(c: Cell, n: int64, now: int64)
    requires 0 < n && 0 <= c.lastSeenMon <= now
    ensures var o := SpendLocked(c, n, now);
            var c' := o.cell;
            && (Overslept(c, now) ==> c' == c.(cur := None, next := None, lastSeenMon := now))
            && (!Overslept(c, now) ==>
                  && (0 < c.rate && o.verdict == Success ==> c'.tokens == Wrap(Level(c, now) - n))
                  && (c.rate <= 0 || o.verdict != Success ==> c'.tokens == Level(c, now))
                  && c'.lastSeenMon == (if o.verdict == Success then now else c.lastSeenMon)
                  && (PacedOut(c, n, now) ==> c'.cur == c.cur && c'.next == c.next)
                  && (!PacedOut(c, n, now) ==> LeavesChunks(c, c', n, now, o.verdict == Success)))
            && c'.maxPauseNs == c.maxPauseNs && c'.nonce == c.nonce && c'.holder == c.holder
            && c'.closed == c.closed && c'.refilling == c.refilling
  {
    FencesExactly(c, now);
    if !Fences(c, now) && !PacedOut(c, n, now) {
      ServeEffect(AccrueTokens(c, now), n, now);
    }
  }

  lemma FencesExactly(c: Cell, now: int64)
    requires 0 <= c.lastSeenMon <= now
    ensures Fences(c, now) <==> Overslept(c, now)
  {
  }

  lemma ServeEffect(c: Cell, n: int64, now: int64)
    requires 0 < n
    ensures var o := Serve(c, n, now);
            && LeavesChunks(c, o.cell, n, now, o.verdict == Success)
            && (o.verdict == Success || o.verdict == BudgetUnavailable)
            && o.cell.tokens == (if 0 < c.rate && o.verdict == Success then Wrap(c.tokens - n) else c.tokens)
            && o.cell.lastSeenMon == (if o.verdict == Success then now else c.lastSeenMon)
            && o.cell == c.(cur := o.cell.cur, next := o.cell.next, tokens := o.cell.tokens,
                            lastSeenMon := o.cell.lastSeenMon)
  {
  }

  predicate LeavesChunks(c: Cell, c': Cell, n: int64, now: int64, served: bool) {
    && (CurServes(c, now) ==> c'.next == c.next && DebitedFrom(c.cur.value, c'.cur, n, served))
    && (!CurServes(c, now) ==>
          && c'.next.None?
          && (if c.next.Some? && now < c.next.value.deadlineMon then DebitedFrom(c.next.value, c'.cur, n, served)
              else c'.cur.None?))
  }

  predicate DebitedFrom(ch: Chunk, ch': Option<Chunk>, n: int64, served: bool) {
    && ch'.Some?
    && ch'.value == ch.(remaining := ch'.value.remaining, spent := ch'.value.spent)
    && ch'.value.remaining == (if served then ch.remaining - n else ch.remaining)
    && ch'.value.spent == (if served then Wrap(ch.spent + n) else ch.spent)
  }

  // ----- the install -----

  /** The stop instant of a drawn chunk: never for an untimed grant, else the ttl less the self-guard band on. */
  predicate StopsAt(gr: DrawResult, now: int64, deadline: int64) {
    && (gr.ttlMs <= 0 ==> deadline == 0x7fff_ffff_ffff_ffff)
    && var stop := now + (gr.ttlMs - gr.selfGuardMs) * 1_000_000;
       (0 < gr.ttlMs && -0x8000_0000_0000_0000 <= stop <= 0x7fff_ffff_ffff_ffff ==> deadline == stop)
  }

  /** The drawn chunk goes behind a live, undrained cur, or takes its place when it is live itself; the fence gets the
      echoed budget, when one is set, and its anchor; the nonce moves on by one. */
  lemma InstallFacts(c: Cell, nonce: uint64, gr: DrawResult, now: int64)
    ensures var c' := Install(c, nonce, gr, now);
            && (exists deadline: int64 ::
                  StopsAt(gr, now, deadline) && InstalledChunk(c, c', Drawn(c, nonce, gr, deadline), now))
            && (0 < gr.maxPauseMs <= 9_223_372_036_854 ==> c'.maxPauseNs == gr.maxPauseMs * 1_000_000)
            && (gr.maxPauseMs <= 0 ==> c'.maxPauseNs == c.maxPauseNs)
            && c'.lastSeenMon == now && (nonce < TWO64 - 1 ==> c'.nonce == nonce + 1)
            && c' == c.(cur := c'.cur, next := c'.next, maxPauseNs := c'.maxPauseNs,
                        lastSeenMon := now, nonce := c'.nonce)
  {
    var deadline := Deadline(gr, now);
    DeadlineStops(gr, now);
    assert StopsAt(gr, now, deadline);
  }

  /** An untouched chunk of the granted units under the lease id of this nonce. */
  function Drawn(c: Cell, nonce: uint64, gr: DrawResult, deadline: int64): Chunk {
    Chunk(gr.granted, deadline, 0, 0, gr.granted, MakeLeaseID(c.holder, nonce))
  }

  predicate InstalledChunk(c: Cell, c': Cell, drawn: Chunk, now: int64) {
    if CurServes(c, now) then c'.cur == c.cur && c'.next == Some(drawn)
    else c'.next.None? && c'.cur == if now < drawn.deadlineMon then Some(drawn) else None
  }

  lemma DeadlineStops(gr: DrawResult, now: int64)
    ensures StopsAt(gr, now, Deadline(gr, now))
  {
    var d := gr.ttlMs - gr.selfGuardMs;
    WrapTwice(d, 1_000_000);
    WrapTwice(d * 1_000_000, now);
  }
}
