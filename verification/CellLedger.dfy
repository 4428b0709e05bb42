/** The bookkeeping that ties the cache to its log, kept by each elementary change: a chunk is buffered, debited,
    dropped, attested, settled. */
module CellLedger {
  import opened Int64
  import opened Encoding
  import opened Options
  import opened LeaseCell
  import opened CellProtocol

  predicate ChunkOk(ch: Chunk, c: Cell) {
    && 0 <= ch.reported <= ch.spent && 0 <= ch.remaining && ch.remaining + ch.spent == ch.amount && 0 < ch.amount
    && Minted(c.holder, ch.leaseID, c.nonce)
  }

  /** next is buffered only behind a cur, and it is untouched. */
  predicate CellOk(c: Cell) {
    && (c.cur.Some? ==> ChunkOk(c.cur.value, c))
    && (c.next.Some? ==>
          && ChunkOk(c.next.value, c) && c.next.value.spent == 0
          && c.cur.Some? && c.cur.value.leaseID != c.next.value.leaseID)
  }

  /** A cached chunk's own counters agree with the log. */
  predicate HeldOk(ch: Chunk, log: Log) {
    && ch.spent == Total(ServedFrom(ch.leaseID), log)
    && ch.amount == Total(InstalledFor(ch.leaseID), log)
    && Total(LeavesOf(ch.leaseID), log) == 0
    && Total(SettlesOf(ch.leaseID), log) == 0
    && forall i | 0 <= i < |log| && log[i].Installed? && log[i].chunk.leaseID == ch.leaseID ::
         log[i].chunk.deadlineMon == ch.deadlineMon
  }

  predicate CacheOk(c: Cell, log: Log) {
    && CellOk(c)
    && (c.cur.Some? ==> HeldOk(c.cur.value, log))
    && (c.next.Some? ==> HeldOk(c.next.value, log))
  }

  /** The nonce after the latest installed lease. */
  function NextNonce(log: Log): nat {
    if log == [] then 0
    else if log[|log| - 1].Installed? then NonceOf(log[|log| - 1].chunk.leaseID) + 1
    else NextNonce(log[..|log| - 1])
  }

  predicate IdOk(e: Event, holder: Bytes, bound: int) {
    match e
    case Drew(id, _) => |id| == |holder| + 8 && id[..|holder|] == holder
    case Fenced(_) => true
    case Installed(ch, _, _, _, _) => Minted(holder, ch.leaseID, bound)
    case Attested(id, _) => Minted(holder, id, bound)
    case Served(id, _, _, _) => Minted(holder, id, bound)
    case Left(id, _, _) => Minted(holder, id, bound)
    case Settled(id, _) => Minted(holder, id, bound)
  }

  /** The committed nonce follows the latest install, and every lease named so far lies below it. */
  predicate Minting(c: Cell, log: Log) {
    && c.nonce == NextNonce(log)
    && c.nonce <= Total(Draws, log)
    && forall i | 0 <= i < |log| :: IdOk(log[i], c.holder, c.nonce)
  }

  /** Installed nonces strictly increase. */
  predicate Increasing(log: Log) {
    forall i, j | 0 <= i < j < |log| && log[i].Installed? && log[j].Installed? ::
      NonceOf(log[i].chunk.leaseID) < NonceOf(log[j].chunk.leaseID)
  }

  /** Installed units are served, still cached, forfeited, or handed to Return. */
  predicate Conserved(c: Cell, log: Log) {
    Total(InstalledUnits, log)
    == Total(ServedUnits, log) + Cached(c) + Total(ForfeitedUnits, log) + Total(HandedUnits, log)
  }

  /** No lease serves more than was installed under its id. */
  predicate Covered(log: Log) {
    forall k | 0 <= k < |log| && log[k].Served? ::
      Total(ServedFrom(log[k].id), log) <= Total(InstalledFor(log[k].id), log)
  }

  /** A lease that left the cache never serves again. */
  predicate Silent(log: Log) {
    forall i, j | 0 <= i < j < |log| && log[i].Left? && log[j].Served? :: log[i].id != log[j].id
  }

  /** Every serve happened before the deadline its lease was installed with. */
  predicate InTime(log: Log) {
    forall i, j | 0 <= i < j < |log| && log[i].Installed? && log[j].Served? && log[i].chunk.leaseID == log[j].id ::
      log[j].now < log[i].chunk.deadlineMon
  }

  /** A settlement carries every unit the lease served in the whole run, and there is one per lease. */
  predicate Truthful(log: Log) {
    && (forall k | 0 <= k < |log| && log[k].Settled? ::
          && log[k].spent == Total(ServedFrom(log[k].id), log)
          && 1 <= Total(SettlesOf(log[k].id), log) && 1 <= Total(LeavesOf(log[k].id), log))
    && (forall j, k | 0 <= j < k < |log| && log[j].Settled? && log[k].Settled? :: log[j].id != log[k].id)
  }

  /** A report never claims more than the lease has served. */
  predicate Modest(log: Log) {
    forall k | 0 <= k < |log| && log[k].Attested? :: 0 < log[k].spent <= Total(ServedFrom(log[k].id), log)
  }

  predicate Books(c: Cell, log: Log) {
    CacheOk(c, log) && Minting(c, log) && Conserved(c, log)
  }

  predicate History(log: Log) {
    Increasing(log) && Covered(log) && Silent(log) && InTime(log) && Truthful(log) && Modest(log)
  }

  predicate Ledger(c: Cell, log: Log) {
    Books(c, log) && History(log)
  }

  // ----- sums over logs -----

  lemma Appended(log: Log, e: Event)
    ensures forall m: Meter :: Total(m, log + [e]) == Total(m, log) + Weigh(m, e)
    ensures NextNonce(log + [e]) == if e.Installed? then NonceOf(e.chunk.leaseID) + 1 else NextNonce(log)
  {
    assert (log + [e])[..|log|] == log;
  }

  lemma AppendedOne(m: Meter, log: Log, e: Event)
    ensures Total(m, log + [e]) == Total(m, log) + Weigh(m, e)
  {
    assert (log + [e])[..|log|] == log;
  }

  /** A leave or a settlement in the log shows in its count. */
  lemma {:induction false} Counted(log: Log, i: nat)
    requires i < |log|
    ensures log[i].Left? ==> 1 <= Total(LeavesOf(log[i].id), log)
    ensures log[i].Settled? ==> 1 <= Total(SettlesOf(log[i].id), log)
  {
    var front := log[..|log| - 1];
    if i < |log| - 1 {
      assert front[i] == log[i];
      Counted(front, i);
    } else if log[i].Left? {
      CountsNonNegative(LeavesOf(log[i].id), front);
    } else if log[i].Settled? {
      CountsNonNegative(SettlesOf(log[i].id), front);
    }
  }

  lemma {:induction false} CountsNonNegative(m: Meter, log: Log)
    requires m.LeavesOf? || m.SettlesOf? || m.Draws?
    ensures 0 <= Total(m, log)
  {
    if log != [] {
      CountsNonNegative(m, log[..|log| - 1]);
    }
  }

  /** A lease id at or above the committed nonce is new to the log. */
  lemma {:induction false} NewToLog(log: Log, holder: Bytes, bound: int, id: Bytes)
    requires forall i | 0 <= i < |log| :: IdOk(log[i], holder, bound)
    requires bound <= NonceOf(id)
    ensures Total(ServedFrom(id), log) == Total(InstalledFor(id), log) == 0
    ensures Total(LeavesOf(id), log) == Total(SettlesOf(id), log) == 0
  {
    if log != [] {
      NewToLog(log[..|log| - 1], holder, bound, id);
    }
  }

  // ----- elementary changes -----

  /** Events that name no new lease and move no units. */
  predicate Paper(e: Event, c: Cell) {
    (e.Drew? || e.Attested? || e.Fenced?) && IdOk(e, c.holder, c.nonce)
  }

  /** A report event claims no more than was served. */
  predicate Claims(e: Event, log: Log) {
    e.Attested? ==> 0 < e.spent <= Total(ServedFrom(e.id), log)
  }

  lemma PaperKeeps(c: Cell, log: Log, e: Event)
    requires Ledger(c, log) && Paper(e, c) && Claims(e, log)
    ensures Ledger(c, log + [e])
  {
    QuietKeepsHistory(log, e);
    PaperKeepsBooks(c, log, e);
  }

  lemma PaperKeepsBooks(c: Cell, log: Log, e: Event)
    requires Books(c, log) && Paper(e, c)
    ensures Books(c, log + [e])
  {
    Appended(log, e);
    if c.cur.Some? {
      PaperKeepsHeld(c.cur.value, log, e);
    }
    if c.next.Some? {
      PaperKeepsHeld(c.next.value, log, e);
    }
  }

  lemma PaperKeepsHeld(ch: Chunk, log: Log, e: Event)
    requires HeldOk(ch, log) && (e.Drew? || e.Attested? || e.Fenced?)
    ensures HeldOk(ch, log + [e])
  {
    var id, log' := ch.leaseID, log + [e];
    AppendedOne(ServedFrom(id), log, e);
    AppendedOne(InstalledFor(id), log, e);
    AppendedOne(LeavesOf(id), log, e);
    AppendedOne(SettlesOf(id), log, e);
    forall i | 0 <= i < |log'| && log'[i].Installed? && log'[i].chunk.leaseID == id
      ensures log'[i].chunk.deadlineMon == ch.deadlineMon
    {
      assert log'[i] == log[i];
    }
  }

  lemma ModestKeeps(log: Log, e: Event)
    requires Modest(log) && Claims(e, log) && (e.Served? ==> 0 <= e.n)
    ensures Modest(log + [e])
  {
    Appended(log, e);
    var log' := log + [e];
    forall k | 0 <= k < |log'| && log'[k].Attested?
      ensures 0 < log'[k].spent <= Total(ServedFrom(log'[k].id), log')
    {
      assert k < |log| ==> log'[k] == log[k];
    }
  }

  lemma CoveredKeeps(log: Log, e: Event)
    requires Covered(log) && !e.Served? && (e.Installed? ==> 0 <= e.chunk.amount)
    ensures Covered(log + [e])
  {
    Appended(log, e);
    var log' := log + [e];
    forall k | 0 <= k < |log'| && log'[k].Served?
      ensures Total(ServedFrom(log'[k].id), log') <= Total(InstalledFor(log'[k].id), log')
    {
      assert log'[k] == log[k];
    }
  }

  /** An event that neither serves nor settles adds nothing to what was served, settled or late. */
  lemma SettlingKeeps(log: Log, e: Event)
    requires Silent(log) && InTime(log) && Truthful(log) && !e.Served? && !e.Settled?
    ensures Silent(log + [e]) && InTime(log + [e]) && Truthful(log + [e])
  {
    SilentKeeps(log, e);
    TruthfulKeeps(log, e);
  }

  lemma SilentKeeps(log: Log, e: Event)
    requires Silent(log) && InTime(log) && !e.Served?
    ensures Silent(log + [e]) && InTime(log + [e])
  {
  }

  lemma TruthfulKeeps(log: Log, e: Event)
    requires Truthful(log) && !e.Served? && !e.Settled?
    ensures Truthful(log + [e])
  {
    Appended(log, e);
    var log' := log + [e];
    forall k | 0 <= k < |log'| && log'[k].Settled?
      ensures log'[k].spent == Total(ServedFrom(log'[k].id), log')
      ensures 1 <= Total(SettlesOf(log'[k].id), log') && 1 <= Total(LeavesOf(log'[k].id), log')
    {
      assert log'[k] == log[k];
    }
  }

  /** An event that is neither an install, a serve nor a settlement adds nothing to the history. */
  lemma QuietKeepsHistory(log: Log, e: Event)
    requires History(log) && !e.Installed? && !e.Served? && !e.Settled? && Claims(e, log)
    ensures History(log + [e])
  {
    CoveredKeeps(log, e);
    ModestKeeps(log, e);
    SettlingKeeps(log, e);
  }

  /** Recording an attested spend. */
  lemma ReportedKeeps(c: Cell, c': Cell, log: Log, reported: int64)
    requires Ledger(c, log) && c.cur.Some? && 0 <= reported <= c.cur.value.spent
    requires c' == c.(cur := Some(c.cur.value.(reported := reported)))
    ensures Ledger(c', log)
  {
  }

  /** The current chunk leaves; the buffered one, if any, moves up. */
  function DropCur(c: Cell): Cell {
    c.(cur := c.next, next := None)
  }

  function LeaveOf(c: Cell, handed: bool): Event
    requires c.cur.Some?
  {
    Left(c.cur.value.leaseID, c.cur.value.remaining, handed)
  }

  lemma DropKeeps(c: Cell, log: Log, handed: bool)
    requires Ledger(c, log) && c.cur.Some?
    ensures Ledger(DropCur(c), log + [LeaveOf(c, handed)])
  {
    QuietKeepsHistory(log, LeaveOf(c, handed));
    Appended(log, LeaveOf(c, handed));
  }

  /** The current chunk serves n units at an instant before its deadline. */
  lemma DebitKeeps(c: Cell, c': Cell, log: Log, n: int64, now: int64, late: bool)
    requires Ledger(c, log) && c.cur.Some? && 0 < n <= c.cur.value.remaining && now < c.cur.value.deadlineMon
    requires c' == c.(cur := Some(Debit(c.cur.value, n)))
    ensures Ledger(c', log + [Served(c.cur.value.leaseID, n, now, late)])
  {
    DebitKeepsBooks(c, c', log, n, now, late);
    DebitKeepsHistory(c, log, n, now, late);
  }

  lemma DebitKeepsBooks(c: Cell, c': Cell, log: Log, n: int64, now: int64, late: bool)
    requires Books(c, log) && c.cur.Some? && 0 < n <= c.cur.value.remaining
    requires c' == c.(cur := Some(Debit(c.cur.value, n)))
    ensures Books(c', log + [Served(c.cur.value.leaseID, n, now, late)])
  {
    Appended(log, Served(c.cur.value.leaseID, n, now, late));
  }

  lemma DebitKeepsHistory(c: Cell, log: Log, n: int64, now: int64, late: bool)
    requires Ledger(c, log) && c.cur.Some? && 0 < n <= c.cur.value.remaining && now < c.cur.value.deadlineMon
    ensures History(log + [Served(c.cur.value.leaseID, n, now, late)])
  {
    var e := Served(c.cur.value.leaseID, n, now, late);
    DebitKeepsCovered(c, log, e);
    DebitInTime(c, log, e);
    ModestKeeps(log, e);
    ServedKeepsTruth(log, e);
  }

  /** Serving a lease that has not left touches no settlement. */
  lemma ServedKeepsTruth(log: Log, e: Event)
    requires Silent(log) && Truthful(log) && e.Served?
    requires Total(LeavesOf(e.id), log) == 0 && Total(SettlesOf(e.id), log) == 0
    ensures Silent(log + [e]) && Truthful(log + [e])
  {
    Appended(log, e);
    forall i | 0 <= i < |log| && (log[i].Left? || log[i].Settled?)
      ensures log[i].id != e.id
    {
      Counted(log, i);
    }
  }

  lemma DebitInTime(c: Cell, log: Log, e: Event)
    requires InTime(log) && c.cur.Some? && HeldOk(c.cur.value, log)
    requires e.Served? && e.id == c.cur.value.leaseID && e.now < c.cur.value.deadlineMon
    ensures InTime(log + [e])
  {
  }

  lemma DebitKeepsCovered(c: Cell, log: Log, e: Event)
    requires Ledger(c, log) && c.cur.Some? && e.Served? && e.id == c.cur.value.leaseID
             && 0 < e.n <= c.cur.value.remaining
    ensures Covered(log + [e])
  {
    Appended(log, e);
    var log' := log + [e];
    forall k | 0 <= k < |log'| && log'[k].Served?
      ensures Total(ServedFrom(log'[k].id), log') <= Total(InstalledFor(log'[k].id), log')
    {
      assert k < |log| ==> log'[k] == log[k];
    }
  }

  /** A drawn chunk goes behind the current one, or becomes it. */
  function Buffer(c: Cell, ch: Chunk, nonce: uint64): Cell {
    if c.cur.None? then c.(cur := Some(ch), nonce := nonce) else c.(next := Some(ch), nonce := nonce)
  }

  /** A granted chunk is buffered under a nonce at or above the committed one. */
  lemma BufferKeeps(c: Cell, log: Log, nonce: uint64, gr: DrawResult, wall: int64, gateNow: int64, now: int64)
    requires Ledger(c, log) && c.next.None?
    requires 0 < gr.granted && c.nonce <= nonce < Total(Draws, log) && nonce + 1 < TWO64
    ensures var ch := FreshChunk(c.holder, nonce, gr, now);
            Ledger(Buffer(c, ch, nonce + 1), log + [Installed(ch, gr, wall, gateNow, now)])
  {
    var ch := FreshChunk(c.holder, nonce, gr, now);
    var e := Installed(ch, gr, wall, gateNow, now);
    LeaseIDDecodes(c.holder, nonce);
    NewToLog(log, c.holder, c.nonce, ch.leaseID);
    assert ChunkOk(ch, c.(nonce := nonce + 1)) && ch.remaining == ch.amount;
    BufferKeepsBooks(c, log, ch, nonce + 1, e);
    BufferKeepsHistory(c, log, ch, e);
  }

  lemma BufferKeepsBooks(c: Cell, log: Log, ch: Chunk, nonce: uint64, e: Event)
    requires Books(c, log) && c.next.None?
    requires ChunkOk(ch, c.(nonce := nonce)) && ch.spent == 0 && c.nonce <= NonceOf(ch.leaseID) == nonce - 1
    requires nonce <= Total(Draws, log)
    requires e.Installed? && e.chunk == ch
    requires Total(ServedFrom(ch.leaseID), log) == Total(InstalledFor(ch.leaseID), log) == 0
    requires Total(LeavesOf(ch.leaseID), log) == Total(SettlesOf(ch.leaseID), log) == 0
    ensures Books(Buffer(c, ch, nonce), log + [e])
  {
    Appended(log, e);
    assert HeldOk(ch, log + [e]) by {
      assert forall i | 0 <= i < |log| && log[i].Installed? :: IdOk(log[i], c.holder, c.nonce);
    }
    assert c.cur.Some? ==> HeldOk(c.cur.value, log + [e]);
  }

  lemma BufferKeepsHistory(c: Cell, log: Log, ch: Chunk, e: Event)
    requires Ledger(c, log) && 0 < ch.amount && c.nonce <= NonceOf(ch.leaseID) && e.Installed? && e.chunk == ch
    ensures History(log + [e])
  {
    NonceIncreases(c, log, e);
    CoveredKeeps(log, e);
    ModestKeeps(log, e);
    SettlingKeeps(log, e);
  }

  lemma NonceIncreases(c: Cell, log: Log, e: Event)
    requires Increasing(log) && Minting(c, log) && e.Installed? && c.nonce <= NonceOf(e.chunk.leaseID)
    ensures Increasing(log + [e])
  {
    assert forall i | 0 <= i < |log| && log[i].Installed? :: IdOk(log[i], c.holder, c.nonce);
  }

  /** A settlement of a lease that left, carrying all it served. */
  lemma SettleKeeps(c: Cell, log: Log, id: Bytes, spent: int64)
    requires Ledger(c, log) && IdOk(Settled(id, spent), c.holder, c.nonce)
    requires spent == Total(ServedFrom(id), log) && 1 <= Total(LeavesOf(id), log) && Total(SettlesOf(id), log) == 0
    ensures Ledger(c, log + [Settled(id, spent)])
  {
    SettleKeepsBooks(c, log, id, spent);
    SettleKeepsHistory(log, id, spent);
  }

  lemma SettleKeepsBooks(c: Cell, log: Log, id: Bytes, spent: int64)
    requires Books(c, log) && IdOk(Settled(id, spent), c.holder, c.nonce) && 1 <= Total(LeavesOf(id), log)
    ensures Books(c, log + [Settled(id, spent)])
  {
    Appended(log, Settled(id, spent));
  }

  lemma SettleKeepsHistory(log: Log, id: Bytes, spent: int64)
    requires History(log)
    requires spent == Total(ServedFrom(id), log) && 1 <= Total(LeavesOf(id), log) && Total(SettlesOf(id), log) == 0
    ensures History(log + [Settled(id, spent)])
  {
    CoveredKeeps(log, Settled(id, spent));
    ModestKeeps(log, Settled(id, spent));
    SettleKeepsTruth(log, id, spent);
  }

  lemma SettleKeepsTruth(log: Log, id: Bytes, spent: int64)
    requires Truthful(log)
    requires spent == Total(ServedFrom(id), log) && 1 <= Total(LeavesOf(id), log) && Total(SettlesOf(id), log) == 0
    ensures Truthful(log + [Settled(id, spent)])
  {
    Appended(log, Settled(id, spent));
    forall i | 0 <= i < |log| && log[i].Settled?
      ensures log[i].id != id
    {
      Counted(log, i);
    }
  }
}
