/** Runs of one cell on one pool in which a crash strands more than two chunks, although no grant exceeds its
    request. */
module ExposureRuns {
  import opened Int64
  import opened Encoding
  import opened Options
  import opened Sums
  import opened LeaseCell
  import opened CellProtocol
  import opened CellLedger
  import opened CellInvariant
  import opened CellSteps
  import opened CellRuns
  import opened EscrowPool
  import opened Escrow
  import opened Exposure

  /** A system of one cell. */
  function Alone(n: Node, p: Pool, replies: set<GrantReply>): System {
    System([n], p, replies)
  }

  /** Some run leads to this system. */
  ghost predicate SystemReached(s: System) {
    exists s0: System, moves: seq<Move> :: SystemInit(s0) && SystemRun(s0, moves) == Some(s)
  }

  lemma SystemStep(s: System, m: Move)
    requires SystemReached(s) && MoveEnabled(s, m)
    ensures SystemReached(Moved(s, m))
  {
    var s0: System, moves: seq<Move> :| SystemInit(s0) && SystemRun(s0, moves) == Some(s);
    var all := moves + [m];
    assert all[..|all| - 1] == moves;
    assert SystemRun(s0, all) == Some(Moved(s, m));
  }

  lemma CellStep(n: Node, p: Pool, replies: set<GrantReply>, act: Act) returns (n': Node)
    requires SystemReached(Alone(n, p, replies)) && Enabled(n, act) && Answered(Alone(n, p, replies), 0, act)
    ensures n' == Step(n, act) && SystemReached(Alone(n', p, replies))
  {
    var s := Alone(n, p, replies);
    SystemStep(s, CellMoves(0, act));
    n' := Step(n, act);
    assert Moved(s, CellMoves(0, act)) == Alone(n', p, replies);
  }

  /** The pool grants the latest draw in full. */
  lemma GrantLast(n: Node, p: Pool, replies: set<GrantReply>, echo: DrawResult) returns (p': Pool,
      replies': set<GrantReply>)
    requires SystemReached(Alone(n, p, replies)) && n.log != []
    requires var e := n.log[|n.log| - 1];
             e.Drew? && !Known(p, e.id) && echo.granted == e.units && 0 < e.units <= p.available
    ensures var e := n.log[|n.log| - 1];
            && p'.leases == p.leases + [Lease(e.id, 0, e.units, 0, 0, true)] && p'.available == p.available - e.units
            && replies' == replies + {GrantReply(e.id, echo)} && p'.cap == p.cap
    ensures SystemReached(Alone(n, p', replies'))
  {
    var s, k, e := Alone(n, p, replies), |n.log| - 1, n.log[|n.log| - 1];
    var m := ServeGrant(0, k, echo);
    SystemStep(s, m);
    p', replies' := Grant(p, e.id, 0, e.units), replies + {GrantReply(e.id, echo)};
    assert Moved(s, m) == Alone(n, p', replies');
  }

  // ----- one chunk cached, and a refill started -----

  lemma FirstLease(chunk: int64) returns (n: Node, p: Pool, replies: set<GrantReply>)
    requires 0 < chunk
    ensures SystemReached(Alone(n, p, replies)) && n.mono == 1 && n.spends == map[] && n.bodies == map[] && !n.acquiring
    ensures n.cell == Install(NewCell(0, 1, chunk, [], 1), 0, Untimed(chunk), 1)
    ensures n.log == [Drew(MakeLeaseID([], 0), chunk),
            Installed(FreshChunk([], 0, Untimed(chunk), 1), Untimed(chunk), 0, 1, 1)]
    ensures p.leases == [Lease(MakeLeaseID([], 0), 0, chunk, 0, 0, true)] && p.cap == 5 * chunk
  {
    var c := NewCell(0, 1, chunk, [], 1);
    var gr := Untimed(chunk);
    n, p, replies := Node(c, true, 1, map[], map[0 := Starting], map[], []), NewPool(5 * chunk), {};
    assert SystemInit(Alone(n, p, replies)) && SystemRun(Alone(n, p, replies), []) == Some(Alone(n, p, replies));
    n := CellStep(n, p, replies, Act(Refiller(0, Snapshot), 1));
    assert n.cell == c && n.log == [Drew(MakeLeaseID([], 0), chunk)] && n.bodies == map[0 := Drawing(0, 0)];
    p, replies := GrantLast(n, p, replies, gr);
    n := InstallsFirst(n, p, replies, chunk);
  }

  lemma InstallsFirst(n: Node, p: Pool, replies: set<GrantReply>, chunk: int64) returns (n': Node)
    requires 0 < chunk && SystemReached(Alone(n, p, replies)) && n.mono == 1 && n.acquiring && n.spends == map[]
    requires n.cell == NewCell(0, 1, chunk, [], 1) && n.bodies == map[0 := Drawing(0, 0)]
    requires n.log == [Drew(MakeLeaseID([], 0), chunk)] && GrantReply(MakeLeaseID([], 0), Untimed(chunk)) in replies
    ensures SystemReached(Alone(n', p, replies)) && n'.mono == 1 && n'.spends == map[] && n'.bodies == map[]
            && !n'.acquiring
    ensures n'.cell == Install(NewCell(0, 1, chunk, [], 1), 0, Untimed(chunk), 1)
    ensures n'.log == [Drew(MakeLeaseID([], 0), chunk),
            Installed(FreshChunk([], 0, Untimed(chunk), 1), Untimed(chunk), 0, 1, 1)]
  {
    n' := FirstReply(n, p, replies, chunk);
    FirstInstall(n, chunk);
    n' := CellStep(n', p, replies, Act(Refiller(0, LockInstall), 1));
    n' := Finishes(n', p, replies);
  }

  lemma FirstReply(n: Node, p: Pool, replies: set<GrantReply>, chunk: int64) returns (n': Node)
    requires 0 < chunk && SystemReached(Alone(n, p, replies)) && n.mono == 1 && n.bodies == map[0 := Drawing(0, 0)]
    requires n.cell.holder == [] && GrantReply(MakeLeaseID([], 0), Untimed(chunk)) in replies
    ensures n' == n.(bodies := map[0 := Accepted(0, Untimed(chunk), 0, 1)]) && SystemReached(Alone(n', p, replies))
  {
    var reply := Act(Refiller(0, DrawReply(Granted(Untimed(chunk)), 0)), 1);
    FirstAnswered(n, p, replies, chunk);
    n' := CellStep(n, p, replies, reply);
    FirstAccepts(n, chunk);
  }

  lemma FirstAnswered(n: Node, p: Pool, replies: set<GrantReply>, chunk: int64)
    requires n.mono == 1 && n.bodies == map[0 := Drawing(0, 0)] && n.cell.holder == []
    requires GrantReply(MakeLeaseID([], 0), Untimed(chunk)) in replies
    ensures var reply := Act(Refiller(0, DrawReply(Granted(Untimed(chunk)), 0)), 1);
            Enabled(n, reply) && Answered(Alone(n, p, replies), 0, reply)
  {
  }

  lemma FirstAccepts(n: Node, chunk: int64)
    requires 0 < chunk && n.mono == 1 && n.bodies == map[0 := Drawing(0, 0)]
    ensures Step(n, Act(Refiller(0, DrawReply(Granted(Untimed(chunk)), 0)), 1))
            == n.(bodies := map[0 := Accepted(0, Untimed(chunk), 0, 1)])
  {
    assert Rule(Granted(Untimed(chunk)), 0) == Accept(Untimed(chunk));
    assert n.bodies[0 := Accepted(0, Untimed(chunk), 0, 1)] == map[0 := Accepted(0, Untimed(chunk), 0, 1)];
  }

  lemma Finishes(n: Node, p: Pool, replies: set<GrantReply>) returns (n': Node)
    requires SystemReached(Alone(n, p, replies)) && n.mono == 1 && n.acquiring && n.bodies == map[0 := Done]
    ensures n' == n.(bodies := map[], acquiring := false) && SystemReached(Alone(n', p, replies))
  {
    n' := CellStep(n, p, replies, Act(Refiller(0, Finish), 1));
    assert n.bodies - {0} == map[];
  }

  lemma FirstInstall(n: Node, chunk: int64)
    requires 0 < chunk && n.mono == 1 && n.cell == NewCell(0, 1, chunk, [], 1)
    ensures var gr := Untimed(chunk);
            var s := n.(bodies := map[0 := Accepted(0, gr, 0, 1)]);
            Step(s, Act(Refiller(0, LockInstall), 1))
            == n.(cell := Install(n.cell, 0, gr, 1), bodies := map[0 := Done],
                  log := n.log + [Installed(FreshChunk([], 0, gr, 1), gr, 0, 1, 1)])
  {
    assert map[0 := Accepted(0, Untimed(chunk), 0, 1)][0 := Done] == map[0 := Done];
  }

  /** A spend that asks for one unit too many, or, of the largest chunk, leaves one unit: it asks for a refill. */
  function Asking(chunk: int64): int64 {
    if chunk < MAX64 then chunk + 1 else chunk - 1
  }

  /** The body is in its a-th draw after the first install; that many leases are granted, a chunk each. */
  ghost predicate Redrawing(n: Node, p: Pool, replies: set<GrantReply>, chunk: int64, a: nat, leases: nat) {
    && SystemReached(Alone(n, p, replies)) && InDraw(n, chunk, a) && LogDraws(n.log, chunk, a)
    && Shaped(p.leases, chunk) && |p.leases| == leases && p.cap == 5 * chunk
  }

  predicate InDraw(n: Node, chunk: int64, a: nat) {
    && a < MAX_REFILL_ATTEMPTS && n.mono == 1 && n.cell.holder == [] && n.cell.chunk == chunk && n.cell.nonce == 1
    && n.cell.next.None? && 0 < Cached(n.cell) && (chunk < MAX64 ==> Cached(n.cell) == chunk)
    && 0 in n.bodies && n.bodies[0] == Drawing(1 + a, a)
  }

  predicate LogDraws(log: Log, chunk: int64, a: nat) {
    && a < MAX_REFILL_ATTEMPTS && log != [] && log[|log| - 1] == Drew(MakeLeaseID([], 1 + a), chunk)
    && Total(Draws, log) == 2 + a && NextNonce(log) == 1 && RedrawsWithin(log, a + 1)
  }

  /** The leases under nonces 0, 1, ... of the one cell, a chunk each. */
  predicate Shaped(leases: seq<Lease>, chunk: int64) {
    && |leases| <= TWO64
    && forall j | 0 <= j < |leases| :: leases[j] == Lease(MakeLeaseID([], j), 0, chunk, 0, 0, true)
  }

  lemma SecondRefill(chunk: int64) returns (n: Node, p: Pool, replies: set<GrantReply>)
    requires 0 < chunk
    ensures Redrawing(n, p, replies, chunk, 0, 1)
  {
    n, p, replies := FirstLease(chunk);
    n := AsksForRefill(n, p, replies, chunk);
    n := StartsDraw(n, p, replies, chunk);
  }

  /** The cell after the first install and the spend that asked for more. */
  predicate Triggered(n: Node, chunk: int64) {
    && n.mono == 1 && n.cell.holder == [] && n.cell.chunk == chunk && n.cell.nonce == 1 && !n.acquiring
    && !n.cell.closed && !n.cell.refilling
    && n.cell.next.None? && 0 < Cached(n.cell) && (chunk < MAX64 ==> Cached(n.cell) == chunk)
    && n.bodies == map[] && n.spends == map[0 := Triggering]
    && Total(Draws, n.log) == 1 && NextNonce(n.log) == 1 && RedrawsWithin(n.log, 1)
  }

  lemma AsksForRefill(n: Node, p: Pool, replies: set<GrantReply>, chunk: int64) returns (n': Node)
    requires 0 < chunk && SystemReached(Alone(n, p, replies)) && n.mono == 1 && n.spends == map[] && n.bodies == map[]
    requires !n.acquiring && n.cell == Install(NewCell(0, 1, chunk, [], 1), 0, Untimed(chunk), 1)
    requires n.log == [Drew(MakeLeaseID([], 0), chunk),
             Installed(FreshChunk([], 0, Untimed(chunk), 1), Untimed(chunk), 0, 1, 1)]
    ensures SystemReached(Alone(n', p, replies)) && Triggered(n', chunk)
  {
    n' := CellStep(n, p, replies, Act(Spender(0, Call(Asking(chunk))), 1));
    n' := CellStep(n', p, replies, Act(Spender(0, CheckClosed), 1));
    assert n' == n.(spends := map[0 := Checked(Asking(chunk), false)]);
    n' := LocksAndAsks(n', p, replies, chunk);
  }

  lemma LocksAndAsks(n: Node, p: Pool, replies: set<GrantReply>, chunk: int64) returns (n': Node)
    requires 0 < chunk && SystemReached(Alone(n, p, replies)) && n.mono == 1 && n.bodies == map[] && !n.acquiring
    requires n.spends == map[0 := Checked(Asking(chunk), false)]
    requires n.cell == Install(NewCell(0, 1, chunk, [], 1), 0, Untimed(chunk), 1)
    requires n.log == [Drew(MakeLeaseID([], 0), chunk),
             Installed(FreshChunk([], 0, Untimed(chunk), 1), Untimed(chunk), 0, 1, 1)]
    ensures SystemReached(Alone(n', p, replies)) && Triggered(n', chunk)
  {
    AskingTriggers(n.cell, chunk);
    FirstLog(n.log, chunk);
    SpendKeepsDraws(n.cell, Asking(chunk), n.log);
    n' := CellStep(n, p, replies, Act(Spender(0, LockSpend), 1));
    LockStep(n, Asking(chunk));
  }

  lemma LockStep(n: Node, units: int64)
    requires 0 < units && n.mono == 1 && n.spends == map[0 := Checked(units, false)]
             && SpendLocked(n.cell, units, 1).trigger
    ensures var n', o := Step(n, Act(Spender(0, LockSpend), 1)), SpendLocked(n.cell, units, 1);
            n' == n.(cell := o.cell, spends := map[0 := Triggering],
                log := n.log + SpendEvents(n.cell, o, units, 1, false))
  {
  }

  lemma FirstLog(log: Log, chunk: int64)
    requires log == [Drew(MakeLeaseID([], 0), chunk),
             Installed(FreshChunk([], 0, Untimed(chunk), 1), Untimed(chunk), 0, 1, 1)]
    ensures Total(Draws, log) == 1 && NextNonce(log) == 1 && RedrawsWithin(log, 1)
  {
    LeaseIDDecodes([], 0);
    Appended([], log[0]);
    Appended([log[0]], log[1]);
    assert log == [log[0]] + [log[1]] && [log[0]] == [] + [log[0]] && log[..0] == [];
  }

  /** Events that neither draw nor install leave the draws as they are. */
  lemma {:induction false} QuietDraws(log: Log, events: Log, d: int)
    requires RedrawsWithin(log, d) && forall e | e in events :: !e.Drew? && !e.Installed?
    ensures var log' := log + events;
            RedrawsWithin(log', d) && Total(Draws, log') == Total(Draws, log) && NextNonce(log') == NextNonce(log)
  {
    if events == [] {
      assert log + events == log;
    } else {
      var front, e := events[..|events| - 1], events[|events| - 1];
      assert log + events == log + front + [e] && e in events;
      QuietDraws(log, front, d);
      Appended(log + front, e);
      WithinExtends(log + front, e, d);
    }
  }

  lemma WithinExtends(log: Log, e: Event, d: int)
    requires RedrawsWithin(log, d) && (e.Drew? ==> NonceOf(e.id) < NextNonce(log) + d)
    ensures RedrawsWithin(log + [e], d)
  {
    var log' := log + [e];
    forall k | 0 <= k < |log'| && log'[k].Drew?
      ensures NonceOf(log'[k].id) < NextNonce(log'[..k]) + d
    {
      assert log'[..k] == log[..k];
      assert k < |log| ==> log'[k] == log[k];
      assert log[..|log|] == log;
    }
  }

  lemma SpendKeepsDraws(c: Cell, n: int64, log: Log)
    requires 0 < n && RedrawsWithin(log, 1)
    ensures var log' := log + SpendEvents(c, SpendLocked(c, n, 1), n, 1, false);
            RedrawsWithin(log', 1) && Total(Draws, log') == Total(Draws, log) && NextNonce(log') == NextNonce(log)
  {
    SpendHasShape(c, n, 1);
    SpendEventKinds(c, SpendLocked(c, n, 1), n, 1, false);
    QuietDraws(log, SpendEvents(c, SpendLocked(c, n, 1), n, 1, false), 1);
  }

  /** The trigger of that spend. */
  lemma AskingTriggers(c: Cell, chunk: int64)
    requires 0 < chunk && c == Install(NewCell(0, 1, chunk, [], 1), 0, Untimed(chunk), 1)
    ensures var o := SpendLocked(c, Asking(chunk), 1);
            && o.trigger && o.cell.next.None? && 0 < Cached(o.cell)
            && (chunk < MAX64 ==> o.cell == c && Cached(c) == chunk)
            && o.cell.holder == [] && o.cell.chunk == chunk && o.cell.nonce == 1 && !o.cell.closed && !o.cell.refilling
  {
  }

  lemma StartsDraw(n: Node, p: Pool, replies: set<GrantReply>, chunk: int64) returns (n': Node)
    requires 0 < chunk && SystemReached(Alone(n, p, replies)) && Triggered(n, chunk)
    ensures SystemReached(Alone(n', p, replies)) && InDraw(n', chunk, 0) && LogDraws(n'.log, chunk, 0)
  {
    n' := CellStep(n, p, replies, Act(Spender(0, CheckRefill), 1));
    n' := CellStep(n', p, replies, Act(Spender(0, Claim(0)), 1));
    assert n' == n.(cell := n.cell.(refilling := true), spends := map[], bodies := map[0 := Starting]);
    n' := Snapshots(n', p, replies, chunk);
  }

  /** The cell in its second refill, before its first draw. */
  predicate InRefill(n: Node, chunk: int64) {
    && n.mono == 1 && n.cell.holder == [] && n.cell.chunk == chunk && n.cell.nonce == 1
    && n.cell.next.None? && 0 < Cached(n.cell) && (chunk < MAX64 ==> Cached(n.cell) == chunk) && 0 in n.bodies
    && Total(Draws, n.log) == 1 && NextNonce(n.log) == 1 && RedrawsWithin(n.log, 1)
  }

  lemma Snapshots(n: Node, p: Pool, replies: set<GrantReply>, chunk: int64) returns (n': Node)
    requires SystemReached(Alone(n, p, replies)) && InRefill(n, chunk) && n.bodies[0].Starting?
    ensures SystemReached(Alone(n', p, replies)) && InDraw(n', chunk, 0) && LogDraws(n'.log, chunk, 0)
  {
    n' := CellStep(n, p, replies, Act(Refiller(0, Snapshot), 1));
    SnapshotIs(n, 0, 1);
    if ReportDue(n.cell).Some? {
      var due := ReportDue(n.cell).value;
      QuietDraws(n.log, [Attested(due.0, due.1)], 1);
      n' := RefusedReport(n', p, replies, chunk);
    } else {
      NextDraw(n.log, chunk, 0);
    }
  }

  lemma RefusedReport(n: Node, p: Pool, replies: set<GrantReply>, chunk: int64) returns (n': Node)
    requires SystemReached(Alone(n, p, replies)) && InRefill(n, chunk) && n.bodies[0].Reporting?
             && n.bodies[0].nonce == 1
    ensures SystemReached(Alone(n', p, replies)) && InDraw(n', chunk, 0) && LogDraws(n'.log, chunk, 0)
  {
    n' := CellStep(n, p, replies, Act(Refiller(0, ReportReply(false)), 1));
    NextDraw(n.log, chunk, 0);
  }

  lemma NextDraw(log: Log, chunk: int64, a: nat)
    requires Total(Draws, log) == 1 + a && NextNonce(log) == 1 && RedrawsWithin(log, a + 1) && a < MAX_REFILL_ATTEMPTS
    ensures LogDraws(log + [Drew(MakeLeaseID([], 1 + a), chunk)], chunk, a)
  {
    var e := Drew(MakeLeaseID([], 1 + a), chunk);
    LeaseIDDecodes([], 1 + a);
    Appended(log, e);
    WithinExtends(log, e, a + 1);
  }

  // ----- stale grants -----

  /** A grant in full, of a lease so short that its reply comes too late. */
  function TooLateGrant(chunk: int64): DrawResult {
    DrawResult(chunk, 0, 1, 0, 0)
  }

  /** What such leases leave in the pool. */
  lemma PoolShare(s: System, chunk: int64)
    requires SystemReached(s) && FewDraws(s) && Shaped(s.pool.leases, chunk)
    ensures s.pool.leasedOut == |s.pool.leases| * chunk && s.pool.available == s.pool.cap - |s.pool.leases| * chunk
  {
    SystemHolds(s);
    OwedSum(s.pool.leases, chunk);
  }

  lemma {:induction false} OwedSum(leases: seq<Lease>, chunk: int64)
    requires Shaped(leases, chunk)
    ensures Sum(Outstanding(leases)) == |leases| * chunk && Sum(Booked(leases)) == 0
  {
    if leases != [] {
      var n := |leases| - 1;
      var front := leases[..n];
      assert leases == front + [leases[n]];
      OwedSum(front, chunk);
      LeaseAdded(front, leases[n]);
      Distribute(n, chunk);
    }
  }

  /** The pool grants the draw in flight. */
  lemma GrantsDraw(n: Node, p: Pool, replies: set<GrantReply>, chunk: int64, a: nat)
    returns (p': Pool, replies': set<GrantReply>)
    requires 0 < chunk && Redrawing(n, p, replies, chunk, a, a + 1)
    ensures Redrawing(n, p', replies', chunk, a, a + 2)
    ensures GrantReply(MakeLeaseID([], 1 + a), TooLateGrant(chunk)) in replies'
  {
    var e := n.log[|n.log| - 1];
    assert e == Drew(MakeLeaseID([], 1 + a), chunk);
    HasRoom(n, p, replies, chunk, a);
    p', replies' := GrantLast(n, p, replies, TooLateGrant(chunk));
    ShapedGrows(p.leases, chunk, 1 + a);
  }

  lemma HasRoom(n: Node, p: Pool, replies: set<GrantReply>, chunk: int64, a: nat)
    requires 0 < chunk && a < MAX_REFILL_ATTEMPTS && SystemReached(Alone(n, p, replies)) && Total(Draws, n.log) == 2 + a
    requires Shaped(p.leases, chunk) && |p.leases| == a + 1 && p.cap == 5 * chunk
    ensures chunk <= p.available && !Known(p, MakeLeaseID([], 1 + a))
  {
    DrawsFew(n, p, replies, a);
    RoomLeft(Alone(n, p, replies), chunk, a + 1);
    NewId(p.leases, chunk, 1 + a);
  }

  lemma RoomLeft(s: System, chunk: int64, k: nat)
    requires 0 < chunk && SystemReached(s) && FewDraws(s) && Shaped(s.pool.leases, chunk)
    requires |s.pool.leases| == k <= 4 && s.pool.cap == 5 * chunk
    ensures chunk <= s.pool.available
  {
    PoolShare(s, chunk);
    Share(k, chunk);
  }

  lemma DrawsFew(n: Node, p: Pool, replies: set<GrantReply>, a: nat)
    requires a < MAX_REFILL_ATTEMPTS && Total(Draws, n.log) == 2 + a
    ensures FewDraws(Alone(n, p, replies))
  {
  }

  lemma ShapedGrows(leases: seq<Lease>, chunk: int64, k: nat)
    requires Shaped(leases, chunk) && |leases| == k < TWO64
    ensures Shaped(leases + [Lease(MakeLeaseID([], k), 0, chunk, 0, 0, true)], chunk)
  {
  }

  lemma Share(k: int, chunk: int)
    requires k <= 4 && 0 < chunk
    ensures chunk <= 5 * chunk - k * chunk
  {
  }

  lemma NewId(leases: seq<Lease>, chunk: int64, nonce: uint64)
    requires Shaped(leases, chunk) && |leases| <= nonce
    ensures forall j | 0 <= j < |leases| :: leases[j].id != MakeLeaseID([], nonce)
  {
    forall j | 0 <= j < |leases|
      ensures leases[j].id != MakeLeaseID([], nonce)
    {
      LeaseIDInjective([], j, [], nonce);
    }
  }

  /** The reply comes too late, so the body draws again under the next id. */
  lemma RedrawsNext(n: Node, p: Pool, replies: set<GrantReply>, chunk: int64, a: nat) returns (n': Node)
    requires 0 < chunk && a + 1 < MAX_REFILL_ATTEMPTS && Redrawing(n, p, replies, chunk, a, a + 2)
    requires GrantReply(MakeLeaseID([], 1 + a), TooLateGrant(chunk)) in replies
    ensures Redrawing(n', p, replies, chunk, a + 1, a + 2)
  {
    var reply := Act(Refiller(0, DrawReply(Granted(TooLateGrant(chunk)), 1000)), 1);
    StaleAnswered(n, p, replies, chunk, a);
    n' := CellStep(n, p, replies, reply);
    StaleReply(n, chunk, a);
    DrawsOn(n, n', chunk, a);
  }

  lemma StaleAnswered(n: Node, p: Pool, replies: set<GrantReply>, chunk: int64, a: nat)
    requires InDraw(n, chunk, a) && GrantReply(MakeLeaseID([], 1 + a), TooLateGrant(chunk)) in replies
    ensures var reply := Act(Refiller(0, DrawReply(Granted(TooLateGrant(chunk)), 1000)), 1);
            Enabled(n, reply) && Answered(Alone(n, p, replies), 0, reply)
  {
  }

  lemma DrawsOn(n: Node, n': Node, chunk: int64, a: nat)
    requires a + 1 < MAX_REFILL_ATTEMPTS && InDraw(n, chunk, a) && LogDraws(n.log, chunk, a)
    requires n' == n.(bodies := n.bodies[0 := Drawing(2 + a, a + 1)],
             log := n.log + [Drew(MakeLeaseID([], 2 + a), chunk)])
    ensures InDraw(n', chunk, a + 1) && LogDraws(n'.log, chunk, a + 1)
  {
    LogDrawsOn(n.log, chunk, a, a + 1);
  }

  lemma LogDrawsOn(log: Log, chunk: int64, a: nat, b: nat)
    requires b == a + 1 < MAX_REFILL_ATTEMPTS && LogDraws(log, chunk, a)
    ensures LogDraws(log + [Drew(MakeLeaseID([], 1 + b), chunk)], chunk, b)
  {
    WithinWeakens(log, b);
    NextDraw(log, chunk, b);
  }

  lemma WithinWeakens(log: Log, d: int)
    requires RedrawsWithin(log, d)
    ensures RedrawsWithin(log, d + 1)
  {
  }

  lemma StaleReply(n: Node, chunk: int64, a: nat)
    requires 0 < chunk && a + 1 < MAX_REFILL_ATTEMPTS && InDraw(n, chunk, a)
    ensures Step(n, Act(Refiller(0, DrawReply(Granted(TooLateGrant(chunk)), 1000)), 1))
            == n.(bodies := n.bodies[0 := Drawing(2 + a, a + 1)], log := n.log + [Drew(MakeLeaseID([], 2 + a), chunk)])
  {
    StaleRedraws(n, TooLateGrant(chunk), 1 + a, a);
  }

  lemma StaleRedraws(n: Node, gr: DrawResult, nonce: uint64, a: nat)
    requires a + 1 < MAX_REFILL_ATTEMPTS && n.mono == 1 && 0 in n.bodies && n.bodies[0] == Drawing(nonce, a)
    requires Rule(Granted(gr), 1000) == Redraw
    ensures Step(n, Act(Refiller(0, DrawReply(Granted(gr), 1000)), 1)) == StartDraw(n, 0, Bump(nonce), a + 1)
  {
  }

  /** The d-th draw is granted and still in flight; those before came too late. */
  lemma {:induction false} RedrawsUpTo(n: Node, p: Pool, replies: set<GrantReply>, chunk: int64, a: nat, d: nat)
    returns (n': Node, p': Pool, replies': set<GrantReply>)
    requires 0 < chunk && Redrawing(n, p, replies, chunk, a, a + 1) && a < d <= MAX_REFILL_ATTEMPTS
    ensures Redrawing(n', p', replies', chunk, d - 1, d + 1)
    decreases d - a
  {
    if a + 1 == d {
      n' := n;
      p', replies' := GrantsDraw(n, p, replies, chunk, a);
    } else {
      n', p', replies' := Round(n, p, replies, chunk, a);
      n', p', replies' := RedrawsUpTo(n', p', replies', chunk, a + 1, d);
    }
  }

  lemma Round(n: Node, p: Pool, replies: set<GrantReply>, chunk: int64, a: nat)
    returns (n': Node, p': Pool, replies': set<GrantReply>)
    requires 0 < chunk && a + 1 < MAX_REFILL_ATTEMPTS && Redrawing(n, p, replies, chunk, a, a + 1)
    ensures Redrawing(n', p', replies', chunk, a + 1, a + 2)
  {
    p', replies' := GrantsDraw(n, p, replies, chunk, a);
    n' := RedrawsNext(n, p', replies', chunk, a);
  }

  // ----- what is stranded -----

  lemma {:induction false} ShapedSum(leases: seq<Lease>, chunk: int64)
    requires Shaped(leases, chunk) && 0 < |leases|
    ensures Sum(PendingAmounts(leases, 0, 1)) == (|leases| - 1) * chunk
  {
    var n := |leases| - 1;
    var front := leases[..n];
    LastPending(leases, chunk);
    SumAppend(PendingAmounts(front, 0, 1), if n > 0 then chunk else 0);
    if n > 0 {
      ShapedSum(front, chunk);
      Distribute(n, chunk);
    }
  }

  lemma LastPending(leases: seq<Lease>, chunk: int64)
    requires Shaped(leases, chunk) && 0 < |leases|
    ensures var n := |leases| - 1;
            PendingAmounts(leases, 0, 1) == PendingAmounts(leases[..n], 0, 1) + [if n > 0 then chunk else 0]
  {
    var n := |leases| - 1;
    LeaseIDDecodes([], n);
    assert leases == leases[..n] + [leases[n]];
  }

  /** A run, every grant within its request, that strands d chunks at the pool and what is cached. */
  lemma CrashStrands(chunk: int64, d: nat) returns (s: System)
    requires 0 < chunk && 0 < d <= MAX_REFILL_ATTEMPTS
    ensures SystemLived(s) && |s.nodes| == 1 && s.nodes[0].cell.chunk == chunk && RedrawsWithin(s.nodes[0].log, d)
    ensures Stranded(s, 0) > d * chunk && (chunk < MAX64 ==> Stranded(s, 0) == (d + 1) * chunk)
    ensures s.pool.leasedOut == (d + 1) * chunk
  {
    var n, p, replies := SecondRefill(chunk);
    n, p, replies := RedrawsUpTo(n, p, replies, chunk, 0, d);
    s := Alone(n, p, replies);
    StrandsMany(n, p, replies, chunk, d);
  }

  lemma StrandsMany(n: Node, p: Pool, replies: set<GrantReply>, chunk: int64, d: nat)
    requires 0 < chunk && 0 < d && Redrawing(n, p, replies, chunk, d - 1, d + 1)
    ensures var s := Alone(n, p, replies);
            && SystemLived(s) && n.cell.chunk == chunk && RedrawsWithin(n.log, d)
            && Stranded(s, 0) == Cached(n.cell) + d * chunk && s.pool.leasedOut == (d + 1) * chunk
            && 0 < Cached(n.cell) && (chunk < MAX64 ==> Stranded(s, 0) == (d + 1) * chunk)
  {
    var s := Alone(n, p, replies);
    assert FewDraws(s);
    PoolShare(s, chunk);
    ShapedSum(p.leases, chunk);
    Distribute(d, chunk);
  }

  /** Within d ids per refill, no crash of a cell of this chunk size ever strands more than two chunks. */
  ghost predicate CrashWithinTwo(chunk: int64, d: nat) {
    forall s: System, i: nat | SystemLived(s) && i < |s.nodes| && s.nodes[i].cell.chunk == chunk
      && RedrawsWithin(s.nodes[i].log, d) :: Stranded(s, i) <= 2 * chunk
  }

  /** The two-chunk promise holds in all runs exactly when no draw is ever redrawn under a new id. */
  lemma StrandedExact(chunk: int64, d: nat)
    requires 0 < chunk && 0 < d <= MAX_REFILL_ATTEMPTS
    ensures CrashWithinTwo(chunk, d) <==> d == 1
  {
    if d == 1 {
      forall s: System, i: nat | SystemLived(s) && i < |s.nodes| && s.nodes[i].cell.chunk == chunk
        && RedrawsWithin(s.nodes[i].log, d)
        ensures Stranded(s, i) <= 2 * chunk
      {
        StrandedAtMost(s, i, 1);
      }
    } else {
      var s := CrashStrands(chunk, d);
      MulAtLeast(chunk, 2, d);
    }
  }
}
