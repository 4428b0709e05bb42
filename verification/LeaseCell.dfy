/** One Acquired budget's lease cache as a value, and what each locked section does to it. */
module LeaseCell {
  import opened Int64
  import opened Encoding
  import opened Options
  import opened TokenBucket

  const NS_PER_MS := 1_000_000
  const MAX_REFILL_ATTEMPTS := 4
  const DEFAULT_CHUNK_UNITS := 1000

  /** A drawn lease held in the cache. */
  datatype Chunk = Chunk(remaining: int64, deadlineMon: int64, spent: int64, reported: int64, amount: int64,
                         leaseID: Bytes)

  /** cur/next is the double buffer; lastSeenMon == 0 means the fence is not anchored. */
  datatype Cell = Cell(cur: Option<Chunk>, next: Option<Chunk>,
                       rate: int64, burst: int64, tokens: int64, lastTokenMon: int64,
                       chunk: int64, lowWatermark: int64,
                       maxPauseNs: int64, lastSeenMon: int64,
                       closed: bool, refilling: bool,
                       holder: Bytes, nonce: uint64)

  /** A quarter of a chunk, rounded down, but at least one unit. */
  function LowWatermarkFor(chunk: int64): (lw: int64)
    ensures 1 <= lw && (4 <= chunk ==> 4 * lw <= chunk < 4 * lw + 4) && (chunk < 4 ==> lw == 1)
  {
    Max(Quo(chunk, 4), 1)
  }

  /** What Acquire builds from its options, the holder it minted and its clock reading. */
  function NewCell(rate: int64, burst: int64, chunk: int64, holder: Bytes, now: int64): Cell {
    var units := if chunk <= 0 then DEFAULT_CHUNK_UNITS else chunk;
    var ceiling := if burst <= 0 then units else burst;
    Cell(None, None, rate, ceiling, ceiling, now, units, LowWatermarkFor(units), 0, 0, false, false, holder, 0)
  }

  // ----- Spend -----

  datatype Verdict = Success | PacingThrottled | BudgetUnavailable

  /** The outcome of the locked part of Spend; trigger asks for a refill once the lock is released. */
  datatype Outcome = Outcome(cell: Cell, verdict: Verdict, trigger: bool)

  predicate Fences(c: Cell, now: int64) {
    c.maxPauseNs > 0 && c.lastSeenMon != 0 && Wrap(now - c.lastSeenMon) > c.maxPauseNs
  }

  function AccrueTokens(c: Cell, now: int64): Cell {
    var b := Accrue(c.rate, c.burst, Bucket(c.tokens, c.lastTokenMon), now);
    c.(tokens := b.tokens, lastTokenMon := b.last)
  }

  predicate Usable(ch: Option<Chunk>, now: int64) {
    ch.Some? && now < ch.value.deadlineMon
  }

  function Promote(c: Cell, now: int64): Cell {
    if Usable(c.cur, now) && c.cur.value.remaining != 0 then c
    else c.(cur := if Usable(c.next, now) then c.next else None, next := None)
  }

  function Debit(ch: Chunk, n: int64): Chunk
    requires 0 < n <= ch.remaining
  {
    ch.(remaining := ch.remaining - n, spent := Wrap(ch.spent + n))
  }

  /** Sections (c) to (e) of Spend: promote, then debit the current chunk when it covers n. */
  function Serve(c: Cell, n: int64, now: int64): Outcome
    requires 0 < n
  {
    var p := Promote(c, now);
    if p.cur.Some? && n <= p.cur.value.remaining then
      var ch := Debit(p.cur.value, n);
      var tokens := if c.rate > 0 then Wrap(p.tokens - n) else p.tokens;
      Outcome(p.(cur := Some(ch), tokens := tokens, lastSeenMon := now), Success,
              ch.remaining < c.lowWatermark && p.next.None?)
    else Outcome(p, BudgetUnavailable, true)
  }

  /** The critical section of Spend(n), n > 0, at clock reading now. */
  function SpendLocked(c: Cell, n: int64, now: int64): Outcome
    requires 0 < n
  {
    if Fences(c, now) then Outcome(c.(cur := None, next := None, lastSeenMon := now), BudgetUnavailable, true)
    else
      var a := AccrueTokens(c, now);
      if c.rate > 0 && a.tokens < n then Outcome(a, PacingThrottled, false) else Serve(a, n, now)
  }

  /** The chunk a spend at `now` draws on: cur while it is live and not drained, else a live next. */
  function Source(c: Cell, now: int64): Option<Chunk> {
    if Usable(c.cur, now) && c.cur.value.remaining != 0 then c.cur
    else if Usable(c.next, now) then c.next
    else None
  }

  /** No fence stops a spend of n at this instant, the bucket pays for it, and the chunk it draws on covers it. */
  predicate Servable(c: Cell, n: int64, now: int64) {
    && !Fences(c, now) && (0 < c.rate ==> n <= AccrueTokens(c, now).tokens)
    && Source(c, now).Some? && n <= Source(c, now).value.remaining
  }

  lemma ServedExactly(c: Cell, n: int64, now: int64)
    requires 0 < n
    ensures SpendLocked(c, n, now).verdict == Success <==> Servable(c, n, now)
  {
  }

  /** To the bucket, a spend that no fence stops is one paced attempt, funded when its source covers it. */
  lemma SpendPaces(c: Cell, n: int64, now: int64)
    requires 0 < n && 0 < c.rate && !Fences(c, now)
    ensures var o, source := SpendLocked(c, n, now), Source(c, now);
            var attempt := Attempt(now, n, source.Some? && n <= source.value.remaining);
            && Bucket(o.cell.tokens, o.cell.lastTokenMon)
               == Paced(c.rate, c.burst, Bucket(c.tokens, c.lastTokenMon), attempt)
            && (o.verdict == Success <==> 0 < Taken(c.rate, c.burst, Bucket(c.tokens, c.lastTokenMon), attempt))
  {
  }

  // ----- refill -----

  datatype DrawResult = DrawResult(granted: int64, grantedMs: int64, ttlMs: int64, selfGuardMs: int64,
      maxPauseMs: int64)

  /** What the draw RPC came back with. */
  datatype DrawOutcome = Failed | AlreadySettled | Granted(result: DrawResult)

  /** What the redraw loop makes of a draw outcome. */
  datatype Ruling = GiveUp | Redraw | Accept(grant: DrawResult)

  function ReportDue(c: Cell): Option<(Bytes, int64)> {
    if c.cur.Some? && |c.cur.value.leaseID| > 0 && c.cur.value.spent > c.cur.value.reported
    then Some((c.cur.value.leaseID, c.cur.value.spent))
    else None
  }

  function WriteBack(c: Cell, repID: Bytes, repSpent: int64): Cell {
    if c.cur.Some? && c.cur.value.leaseID == repID
    then c.(cur := Some(c.cur.value.(reported := repSpent)))
    else c
  }

  /** The freshness gate: the transit of a timed grant exceeded its self-guard band. */
  predicate Stale(gr: DrawResult, wall: int64) {
    gr.ttlMs > 0 && Wrap(wall - gr.grantedMs) > gr.selfGuardMs
  }

  function Rule(outcome: DrawOutcome, wall: int64): Ruling {
    match outcome
    case Failed => GiveUp
    case AlreadySettled => Redraw
    case Granted(gr) => if gr.granted <= 0 then GiveUp else if Stale(gr, wall) then Redraw else Accept(gr)
  }

  function Deadline(gr: DrawResult, now: int64): int64 {
    if gr.ttlMs > 0 then Wrap(now + Wrap(Wrap(gr.ttlMs - gr.selfGuardMs) * NS_PER_MS)) else MAX64
  }

  function Bump(nonce: uint64): uint64 {
    (nonce + 1) % TWO64
  }

  /** The nonce after d bumps. */
  function Advance(nonce: uint64, d: nat): uint64 {
    (nonce + d) % TWO64
  }

  lemma BumpAdvances(nonce: uint64, d: nat)
    ensures Advance(Bump(nonce), d) == Advance(nonce, d + 1)
    ensures Advance(nonce, 0) == nonce
  {
  }

  function PauseNs(gr: DrawResult): int64 {
    Wrap(gr.maxPauseMs * NS_PER_MS)
  }

  function FreshChunk(holder: Bytes, nonce: uint64, gr: DrawResult, now: int64): Chunk {
    Chunk(gr.granted, Deadline(gr, now), 0, 0, gr.granted, MakeLeaseID(holder, nonce))
  }

  /** The install section: buffer the granted chunk, anchor the fence, commit the nonce, promote. */
  function Install(c: Cell, nonce: uint64, gr: DrawResult, now: int64): Cell {
    Promote(c.(next := Some(FreshChunk(c.holder, nonce, gr, now)),
               maxPauseNs := if gr.maxPauseMs > 0 then PauseNs(gr) else c.maxPauseNs,
               lastSeenMon := now,
               nonce := Bump(nonce)),
            now)
  }

  /** One draw as the redraw loop sees it: the RPC outcome, the wall reading at the gate and the clock at the
      install. */
  datatype Reply = Reply(outcome: DrawOutcome, wall: int64, now: int64)

  function RedrawLoop(c: Cell, nonce: uint64, attempt: nat, replies: seq<Reply>): Cell
    requires attempt <= MAX_REFILL_ATTEMPTS <= |replies|
    decreases MAX_REFILL_ATTEMPTS - attempt
  {
    if attempt == MAX_REFILL_ATTEMPTS then c
    else
      match Rule(replies[attempt].outcome, replies[attempt].wall)
      case GiveUp => c
      case Redraw => RedrawLoop(c, Bump(nonce), attempt + 1, replies)
      case Accept(gr) => Install(c, nonce, gr, replies[attempt].now)
  }

  /** One turn of the loop. */
  lemma LoopTurn(c: Cell, nonce: uint64, attempt: nat, replies: seq<Reply>)
    requires attempt < MAX_REFILL_ATTEMPTS <= |replies|
    ensures var r := replies[attempt];
            RedrawLoop(c, nonce, attempt, replies)
            == match Rule(r.outcome, r.wall)
               case GiveUp => c
               case Redraw => RedrawLoop(c, Bump(nonce), attempt + 1, replies)
               case Accept(gr) => Install(c, nonce, gr, r.now)
  {
  }

  function AfterReport(c: Cell, reportOk: bool): Cell {
    var due := ReportDue(c);
    if due.Some? && reportOk then WriteBack(c, due.value.0, due.value.1) else c
  }

  /** After an acknowledged report none is due; a failed one stays due. No units move. */
  lemma ReportedOnce(c: Cell)
    requires ReportDue(c).Some?
    ensures ReportDue(AfterReport(c, true)).None? && ReportDue(AfterReport(c, false)) == ReportDue(c)
    ensures Cached(AfterReport(c, true)) == Cached(c) && AfterReport(c, true).next == c.next
  {
  }

  /** A chunk whose counters add up, with nothing unreported. */
  predicate UpToDate(ch: Option<Chunk>) {
    ch.Some? ==>
      && 0 <= ch.value.reported == ch.value.spent && ch.value.spent + ch.value.remaining == ch.value.amount
      && |ch.value.leaseID| > 0
  }

  /** While none is due, a spend makes one due exactly when it is served, and then it claims all its chunk has
      served. */
  lemma DueAgain(c: Cell, n: int64, now: int64)
    requires 0 < n && UpToDate(c.cur) && UpToDate(c.next)
    ensures var o, source := SpendLocked(c, n, now), Source(c, now);
            && (ReportDue(o.cell).Some? <==> o.verdict == Success)
            && (o.verdict == Success ==> ReportDue(o.cell) == Some((source.value.leaseID, source.value.spent + n)))
            && (o.verdict != Success ==> UpToDate(o.cell.cur) && UpToDate(o.cell.next))
  {
  }

  /** A refill that nothing interleaves with, as Acquire runs it. */
  function RefillAlone(c: Cell, reportOk: bool, replies: seq<Reply>): Cell
    requires MAX_REFILL_ATTEMPTS <= |replies|
  {
    if c.next.Some? then c else RedrawLoop(AfterReport(c, reportOk), c.nonce, 0, replies)
  }

  /** A draw whose id the refill gives up for the next one: it was settled before, or a timed grant is stale. */
  predicate Skipped(r: Reply) {
    || r.outcome == AlreadySettled
    || (&& r.outcome.Granted? && 0 < r.outcome.result.granted && 0 < r.outcome.result.ttlMs
        && Wrap(r.wall - r.outcome.result.grantedMs) > r.outcome.result.selfGuardMs)
  }

  /** A draw whose grant is installed: it carries units and, if timed, came within its band. */
  predicate Taking(r: Reply) {
    && r.outcome.Granted? && 0 < r.outcome.result.granted
    && (0 < r.outcome.result.ttlMs ==> Wrap(r.wall - r.outcome.result.grantedMs) <= r.outcome.result.selfGuardMs)
  }

  /** The k-th draw is the first of the four that is not skipped, and its grant is installed. */
  predicate CommitsAt(replies: seq<Reply>, k: nat) {
    && k < 4 <= |replies| && (forall i | 0 <= i < k :: Skipped(replies[i])) && Taking(replies[k])
  }

  /** A refill installs at most one chunk, the first of four draws that is not skipped, under the k-th nonce after the
      committed one; when that draw failed or carries no units, or all four are skipped, the cell, and with it the
      committed nonce, keeps its value. */
  lemma RefillCommitsOnce(c: Cell, reportOk: bool, replies: seq<Reply>)
    requires 4 <= |replies| && c.next.None?
    ensures forall k: nat | CommitsAt(replies, k) ::
              RefillAlone(c, reportOk, replies)
              == Install(AfterReport(c, reportOk), Advance(c.nonce, k), replies[k].outcome.result, replies[k].now)
    ensures (forall k: nat :: !CommitsAt(replies, k)) ==> RefillAlone(c, reportOk, replies) == AfterReport(c, reportOk)
    ensures AfterReport(c, reportOk).nonce == c.nonce
  {
    var c1 := AfterReport(c, reportOk);
    forall k: nat | CommitsAt(replies, k)
      ensures RefillAlone(c, reportOk, replies)
              == Install(c1, Advance(c.nonce, k), replies[k].outcome.result, replies[k].now)
    {
      LoopCommits(c1, c.nonce, 0, replies, k);
    }
    if forall k: nat :: !CommitsAt(replies, k) {
      LoopGivesUp(c1, c.nonce, 0, replies);
    }
  }

  /** The ruling in these terms. */
  lemma RuleExactly(r: Reply)
    ensures Rule(r.outcome, r.wall) == Redraw <==> Skipped(r)
    ensures Rule(r.outcome, r.wall).Accept? <==> Taking(r)
    ensures Taking(r) ==> Rule(r.outcome, r.wall) == Accept(r.outcome.result)
  {
  }

  lemma {:induction false} LoopCommits(c: Cell, nonce: uint64, attempt: nat, replies: seq<Reply>, k: nat)
    requires CommitsAt(replies, k) && attempt <= k
    ensures RedrawLoop(c, nonce, attempt, replies)
            == Install(c, Advance(nonce, k - attempt), replies[k].outcome.result, replies[k].now)
    decreases k - attempt
  {
    RuleExactly(replies[attempt]);
    BumpAdvances(nonce, if attempt < k then k - attempt - 1 else 0);
    if attempt < k {
      LoopCommits(c, Bump(nonce), attempt + 1, replies, k);
    }
  }

  lemma {:induction false} LoopGivesUp(c: Cell, nonce: uint64, attempt: nat, replies: seq<Reply>)
    requires attempt <= 4 <= |replies| && (forall i | 0 <= i < attempt :: Skipped(replies[i]))
    requires forall k: nat :: !CommitsAt(replies, k)
    ensures RedrawLoop(c, nonce, attempt, replies) == c
    decreases 4 - attempt
  {
    if attempt < 4 {
      assert !CommitsAt(replies, attempt);
      RuleExactly(replies[attempt]);
      if Skipped(replies[attempt]) {
        LoopGivesUp(c, Bump(nonce), attempt + 1, replies);
      }
    }
  }

  /** The draws of one refill use pairwise different lease ids, also across the uint64 wrap. */
  lemma DrawsUseDistinctIds(holder: Bytes, nonce: uint64, i: nat, j: nat)
    requires i < j < 4
    ensures MakeLeaseID(holder, Advance(nonce, i)) != MakeLeaseID(holder, Advance(nonce, j))
  {
    LeaseIDInjective(holder, Advance(nonce, i), holder, Advance(nonce, j));
  }

  // ----- what is cached -----

  function Held(c: Cell): seq<Chunk> {
    (if c.cur.Some? then [c.cur.value] else []) + (if c.next.Some? then [c.next.value] else [])
  }

  function Cached(c: Cell): int {
    (if c.cur.Some? then c.cur.value.remaining else 0) + (if c.next.Some? then c.next.value.remaining else 0)
  }
}
