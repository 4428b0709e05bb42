/** The invariant of one cell under every interleaving, kept by every step. */
module CellInvariant {
  import opened Int64
  import opened Encoding
  import opened Options
  import opened LeaseCell
  import opened CellProtocol
  import opened CellLedger

  // ----- single flight -----

  /** At most one refill body, and the refilling flag tells whether it runs (Acquire's own body runs without it). */
  predicate Flight(s: Node) {
    && (forall b, b' | b in s.bodies && b' in s.bodies :: b == b')
    && (s.acquiring ==> !s.cell.refilling && s.spends == map[] && s.closers == map[] && s.bodies != map[])
    && (!s.acquiring ==> (s.cell.refilling <==> s.bodies != map[]))
  }

  predicate BodyOk(pc: RefillPc, c: Cell, log: Log, mono: int64) {
    match pc
    case Starting => true
    case Done => true
    case Reporting(id, spent, nonce) => ReportOk(id, spent, c) && c.next.None? && nonce == c.nonce
    case WritingBack(id, spent, nonce) => ReportOk(id, spent, c) && c.next.None? && nonce == c.nonce
    case Drawing(nonce, attempt) =>
      c.next.None? && attempt < MAX_REFILL_ATTEMPTS && nonce == c.nonce + attempt < Total(Draws, log)
    case Accepted(nonce, gr, wall, gateNow) =>
      c.next.None? && c.nonce <= nonce < Total(Draws, log) && 0 < gr.granted && !Stale(gr, wall) && 0 < gateNow <= mono
  }

  /** A report snapshot never runs ahead of the chunk it is written back to. */
  predicate ReportOk(id: Bytes, spent: int64, c: Cell) {
    && 0 < spent && Minted(c.holder, id, c.nonce)
    && (c.cur.Some? && c.cur.value.leaseID == id ==> spent <= c.cur.value.spent)
  }

  predicate Bodies(s: Node) {
    forall b | b in s.bodies :: BodyOk(s.bodies[b], s.cell, s.log, s.mono)
  }

  // ----- shutdown -----

  /** A taken chunk not yet settled: frozen, out of the cache, unsettled. */
  predicate OwedOk(ch: Chunk, c: Cell, log: Log) {
    && Minted(c.holder, ch.leaseID, c.nonce)
    && ch.spent == Total(ServedFrom(ch.leaseID), log)
    && 1 <= Total(LeavesOf(ch.leaseID), log) && Total(SettlesOf(ch.leaseID), log) == 0
  }

  predicate Owing(s: Node) {
    && (forall r, i | r in s.closers && s.closers[r].Settling? && 0 <= i < |s.closers[r].chunks| ::
          OwedOk(s.closers[r].chunks[i], s.cell, s.log))
    && (forall r, i, r', i' | r in s.closers && s.closers[r].Settling? && 0 <= i < |s.closers[r].chunks|
          && r' in s.closers && s.closers[r'].Settling? && 0 <= i' < |s.closers[r'].chunks| && (r, i) != (r', i') ::
          s.closers[r].chunks[i].leaseID != s.closers[r'].chunks[i'].leaseID)
  }

  /** Spends called after the close are still before their closed check, and none was served. */
  predicate Lateness(s: Node) {
    && (forall t | t in s.spends && s.spends[t].Called? && s.spends[t].late :: s.cell.closed)
    && (forall t | t in s.spends && s.spends[t].Checked? :: !s.spends[t].late)
    && (forall i | 0 <= i < |s.log| && s.log[i].Served? :: !s.log[i].late)
  }

  // ----- what one locked section does to the cache -----

  /** The effect of SpendLocked, without the tokens. */
  predicate SpendShape(c: Cell, n: int64, now: int64, o: Outcome)
    requires 0 < n
  {
    var c', p := o.cell, Promote(c, now);
    && c' == c.(cur := c'.cur, next := c'.next, tokens := c'.tokens, lastTokenMon := c'.lastTokenMon,
                lastSeenMon := c'.lastSeenMon)
    && (c'.lastSeenMon == if Fences(c, now) || o.verdict == Success then now else c.lastSeenMon)
    && (Fences(c, now) ==> o.verdict == BudgetUnavailable && c'.cur == c'.next == None)
    && (!Fences(c, now) && o.verdict == PacingThrottled ==> c'.cur == c.cur && c'.next == c.next)
    && (!Fences(c, now) && o.verdict == BudgetUnavailable ==> c'.cur == p.cur && c'.next == p.next)
    && (o.verdict == Success ==>
          && p.cur.Some? && n <= p.cur.value.remaining && now < p.cur.value.deadlineMon
          && c'.cur == Some(Debit(p.cur.value, n)) && c'.next == p.next)
  }

  lemma SpendHasShape(c: Cell, n: int64, now: int64)
    requires 0 < n
    ensures SpendShape(c, n, now, SpendLocked(c, n, now))
  {
  }

  predicate SameCache(c: Cell, c': Cell) {
    c'.cur == c.cur && c'.next == c.next && c'.holder == c.holder && c'.nonce == c.nonce
  }

  lemma LedgerFrame(c: Cell, c': Cell, log: Log)
    requires Ledger(c, log) && SameCache(c, c')
    ensures Ledger(c', log)
  {
    assert Cached(c') == Cached(c);
  }

  lemma EmptyingKeeps(c: Cell, c': Cell, log: Log, handed: bool)
    requires Ledger(c, log) && SameCache(c.(cur := None, next := None), c')
    ensures Ledger(c', log + Departures(c, c', handed))
  {
    if c.cur.None? {
      assert log + Departures(c, c', handed) == log;
      LedgerFrame(c, c', log);
    } else {
      DropKeeps(c, log, handed);
      var c1, log1 := DropCur(c), log + [LeaveOf(c, handed)];
      if c1.cur.Some? {
        DropKeeps(c1, log1, handed);
        assert log1 + [LeaveOf(c1, handed)] == log + Departures(c, c', handed);
        LedgerFrame(DropCur(c1), c', log1 + [LeaveOf(c1, handed)]);
      } else {
        assert log1 == log + Departures(c, c', handed);
        LedgerFrame(c1, c', log1);
      }
    }
  }

  lemma PromoteKeeps(c: Cell, now: int64, log: Log)
    requires Ledger(c, log)
    ensures Ledger(Promote(c, now), log + Departures(c, Promote(c, now), false))
  {
    var c' := Promote(c, now);
    if c' == c {
      assert log + Departures(c, c', false) == log;
    } else if Usable(c.next, now) {
      DropKeeps(c, log, false);
      assert log + [LeaveOf(c, false)] == log + Departures(c, c', false);
    } else {
      EmptyingKeeps(c, c', log, false);
    }
  }

  lemma SpendKeepsLedger(c: Cell, o: Outcome, n: int64, now: int64, late: bool, log: Log)
    requires Ledger(c, log) && 0 < n && SpendShape(c, n, now, o)
    ensures Ledger(o.cell, log + SpendEvents(c, o, n, now, late))
  {
    if Fences(c, now) {
      FenceKeepsLedger(c, o, n, now, late, log);
    } else if o.verdict == Success {
      ServeKeepsLedger(c, o, n, now, late, log);
    } else {
      IdleKeepsLedger(c, o, n, now, late, log);
    }
  }

  function ServeOf(c: Cell, n: int64, now: int64, late: bool): Event
    requires Promote(c, now).cur.Some?
  {
    Served(Promote(c, now).cur.value.leaseID, n, now, late)
  }

  lemma SpendEventsAre(c: Cell, o: Outcome, n: int64, now: int64, late: bool)
    requires 0 < n && SpendShape(c, n, now, o)
    requires CellOk(c)
    ensures var events, left := SpendEvents(c, o, n, now, late), Departures(c, Promote(c, now), false);
            && (Fences(c, now) ==> events == Departures(c, o.cell, false) + [Fenced(now)])
            && (!Fences(c, now) && o.verdict == PacingThrottled ==> events == [])
            && (!Fences(c, now) && o.verdict == BudgetUnavailable ==> events == left)
            && (o.verdict == Success ==> events == left + [ServeOf(c, n, now, late)])
  {
  }

  lemma FenceKeepsLedger(c: Cell, o: Outcome, n: int64, now: int64, late: bool, log: Log)
    requires Ledger(c, log) && 0 < n && SpendShape(c, n, now, o) && Fences(c, now)
    ensures Ledger(o.cell, log + SpendEvents(c, o, n, now, late))
  {
    var left := Departures(c, o.cell, false);
    SpendEventsAre(c, o, n, now, late);
    assert log + SpendEvents(c, o, n, now, late) == log + left + [Fenced(now)];
    EmptyingKeeps(c, o.cell, log, false);
    PaperKeeps(o.cell, log + left, Fenced(now));
  }

  lemma IdleKeepsLedger(c: Cell, o: Outcome, n: int64, now: int64, late: bool, log: Log)
    requires Ledger(c, log) && 0 < n && SpendShape(c, n, now, o) && !Fences(c, now) && o.verdict != Success
    ensures Ledger(o.cell, log + SpendEvents(c, o, n, now, late))
  {
    SpendEventsAre(c, o, n, now, late);
    if o.verdict == PacingThrottled {
      assert log + SpendEvents(c, o, n, now, late) == log;
      LedgerFrame(c, o.cell, log);
    } else {
      PromoteKeeps(c, now, log);
      LedgerFrame(Promote(c, now), o.cell, log + SpendEvents(c, o, n, now, late));
    }
  }

  lemma ServeKeepsLedger(c: Cell, o: Outcome, n: int64, now: int64, late: bool, log: Log)
    requires Ledger(c, log) && 0 < n && SpendShape(c, n, now, o) && o.verdict == Success
    ensures Ledger(o.cell, log + SpendEvents(c, o, n, now, late))
  {
    var log1 := log + Departures(c, Promote(c, now), false);
    SpendEventsAre(c, o, n, now, late);
    assert log + SpendEvents(c, o, n, now, late) == log1 + [ServeOf(c, n, now, late)];
    PromoteKeeps(c, now, log);
    DebitPromoted(c, o, n, now, late, log1);
  }

  lemma DebitPromoted(c: Cell, o: Outcome, n: int64, now: int64, late: bool, log: Log)
    requires 0 < n && SpendShape(c, n, now, o) && o.verdict == Success
    requires Ledger(Promote(c, now), log)
    ensures Ledger(o.cell, log + [ServeOf(c, n, now, late)])
  {
    var p := Promote(c, now);
    var d := p.(cur := Some(Debit(p.cur.value, n)));
    DebitKeeps(p, d, log, n, now, late);
    LedgerFrame(d, o.cell, log + [ServeOf(c, n, now, late)]);
  }

  lemma InstallKeepsLedger(c: Cell, nonce: uint64, gr: DrawResult, wall: int64, gateNow: int64, now: int64, log: Log)
    requires Ledger(c, log) && c.next.None?
    requires 0 < gr.granted && c.nonce <= nonce < Total(Draws, log) && nonce + 1 < TWO64
    ensures var ch, c' := FreshChunk(c.holder, nonce, gr, now), Install(c, nonce, gr, now);
            Ledger(c', log + [Installed(ch, gr, wall, gateNow, now)] + Departures(c.(next := Some(ch)), c', false))
  {
    var ch, c' := FreshChunk(c.holder, nonce, gr, now), Install(c, nonce, gr, now);
    var b := Buffer(c, ch, nonce + 1);
    var log1 := log + [Installed(ch, gr, wall, gateNow, now)];
    BufferKeeps(c, log, nonce, gr, wall, gateNow, now);
    PromoteKeeps(b, now, log1);
    PromotedBuffer(c, ch, nonce, gr, now);
    LedgerFrame(Promote(b, now), c', log1 + Departures(b, Promote(b, now), false));
  }

  /** Promoting from the buffered form is what the install section does. */
  lemma PromotedBuffer(c: Cell, ch: Chunk, nonce: uint64, gr: DrawResult, now: int64)
    requires c.next.None? && nonce + 1 < TWO64 && ch == FreshChunk(c.holder, nonce, gr, now) && 0 < ch.remaining
    ensures var b, c' := Buffer(c, ch, nonce + 1), Install(c, nonce, gr, now);
            SameCache(Promote(b, now), c')
                && Departures(b, Promote(b, now), false) == Departures(c.(next := Some(ch)), c', false)
  {
  }
}
