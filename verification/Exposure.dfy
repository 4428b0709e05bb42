/** What a crash of one cell strands at the pool: the units it caches, and the leases it drew and did not install. */
module Exposure {
  import opened Encoding
  import opened Options
  import opened Sums
  import opened LeaseCell
  import opened CellProtocol
  import opened CellLedger
  import opened CellTiming
  import opened CellPacing
  import opened CellTheorems
  import opened CellRuns
  import opened CellDraws
  import opened EscrowPool
  import opened Escrow
  import opened Reclaim

  // ----- every cell of a system run is in a run of its own -----

  lemma LivedNodes(s: System)
    requires SystemLived(s)
    ensures forall i | 0 <= i < |s.nodes| :: Lived(s.nodes[i])
  {
    var s0: System, moves: seq<Move> :| SystemInit(s0) && SystemRun(s0, moves) == Some(s);
    NodesReachable(s0, moves);
  }

  lemma {:induction false} NodesReachable(s0: System, moves: seq<Move>)
    requires SystemInit(s0) && SystemRun(s0, moves).Some?
    ensures var s := SystemRun(s0, moves).value; forall i | 0 <= i < |s.nodes| :: Reachable(s.nodes[i])
  {
    if moves == [] {
      forall i | 0 <= i < |s0.nodes|
        ensures Reachable(s0.nodes[i])
      {
        assert Run(s0.nodes[i], []) == Some(s0.nodes[i]);
      }
    } else {
      var before, m := moves[..|moves| - 1], moves[|moves| - 1];
      NodesReachable(s0, before);
      MoveReachable(SystemRun(s0, before).value, m);
    }
  }

  lemma MoveReachable(s: System, m: Move)
    requires MoveEnabled(s, m) && forall i | 0 <= i < |s.nodes| :: Reachable(s.nodes[i])
    ensures var s' := Moved(s, m); forall i | 0 <= i < |s'.nodes| :: Reachable(s'.nodes[i])
  {
    if m.CellMoves? {
      ReachStep(s.nodes[m.i], m.act);
    }
  }

  // ----- every lease was drawn -----

  /** Its grantee drew it, asking for no less than it got. */
  predicate DrawnBy(nodes: seq<Node>, l: Lease) {
    l.grantee < |nodes| && DrawnIn(nodes[l.grantee].log, l.id, l.amount)
  }

  predicate DrawnIn(log: Log, id: Bytes, amount: int) {
    exists k | 0 <= k < |log| :: log[k].Drew? && log[k].id == id && amount <= log[k].units
  }

  predicate AllDrawn(s: System) {
    forall j | 0 <= j < |s.pool.leases| :: DrawnBy(s.nodes, s.pool.leases[j])
  }

  lemma LivedDrawn(s: System)
    requires SystemLived(s)
    ensures AllDrawn(s)
  {
    var s0: System, moves: seq<Move> :| SystemInit(s0) && SystemRun(s0, moves) == Some(s);
    RunDrawn(s0, moves);
  }

  lemma {:induction false} RunDrawn(s0: System, moves: seq<Move>)
    requires SystemInit(s0) && SystemRun(s0, moves).Some?
    ensures AllDrawn(SystemRun(s0, moves).value)
  {
    if moves != [] {
      RunDrawn(s0, moves[..|moves| - 1]);
      MoveDrawn(SystemRun(s0, moves[..|moves| - 1]).value, moves[|moves| - 1]);
    }
  }

  lemma MoveDrawn(s: System, m: Move)
    requires AllDrawn(s) && MoveEnabled(s, m)
    ensures AllDrawn(Moved(s, m))
  {
    match m
    case CellMoves(i, act) =>
      LogExtends(s.nodes[i], act);
      forall j | 0 <= j < |s.pool.leases|
        ensures DrawnBy(s.nodes[i := Step(s.nodes[i], act)], s.pool.leases[j])
      {
        StillDrawn(s.nodes, i, Step(s.nodes[i], act), s.pool.leases[j]);
      }
    case ServeGrant(i, k, echo) =>
      GrantDrawn(s, i, k);
    case ServeRegrant(i, k, j, echo) =>
    case ServeReport(i, k, j) =>
      SameRows(s.nodes, s.pool, Report(s.pool, j, s.nodes[i].log[k].spent));
    case ServeReturn(i, k, j) =>
      SameRows(s.nodes, s.pool, Return(s.pool, j, s.nodes[i].log[k].spent));
    case ForceExpiry(j) =>
      SameRows(s.nodes, s.pool, Expire(s.pool, j));
  }

  lemma StillDrawn(nodes: seq<Node>, i: nat, n': Node, l: Lease)
    requires i < |nodes| && DrawnBy(nodes, l) && |nodes[i].log| <= |n'.log| && n'.log[..|nodes[i].log|] == nodes[i].log
    ensures DrawnBy(nodes[i := n'], l)
  {
    if l.grantee == i {
      var log := nodes[i].log;
      var k :| 0 <= k < |log| && log[k].Drew? && log[k].id == l.id && l.amount <= log[k].units;
      assert n'.log[k] == log[k];
    }
  }

  lemma GrantDrawn(s: System, i: nat, k: nat)
    requires AllDrawn(s) && Logged(s, i, k) && s.nodes[i].log[k].Drew?
    ensures AllDrawn(s.(pool := Grant(s.pool, s.nodes[i].log[k].id, i, s.nodes[i].log[k].units)))
  {
    var e := s.nodes[i].log[k];
    var p' := Grant(s.pool, e.id, i, e.units);
    forall j | 0 <= j < |p'.leases|
      ensures DrawnBy(s.nodes, p'.leases[j])
    {
      if j == |s.pool.leases| {
        assert p'.leases[j].amount <= e.units;
        assert DrawnIn(s.nodes[i].log, e.id, p'.leases[j].amount);
      }
    }
  }

  lemma SameRows(nodes: seq<Node>, p: Pool, p': Pool)
    requires |p'.leases| == |p.leases| && forall j | 0 <= j < |p.leases| :: DrawnBy(nodes, p.leases[j])
    requires forall j | 0 <= j < |p.leases| ::
               && p'.leases[j].id == p.leases[j].id && p'.leases[j].amount == p.leases[j].amount
               && p'.leases[j].grantee == p.leases[j].grantee
    ensures forall j | 0 <= j < |p'.leases| :: DrawnBy(nodes, p'.leases[j])
  {
  }

  // ----- pending leases -----

  /** Granted to cell i under a nonce at or above this one. */
  predicate Pending(l: Lease, i: nat, nonce: int) {
    l.grantee == i && nonce <= NonceOf(l.id)
  }

  function PendingAmounts(leases: seq<Lease>, i: nat, nonce: int): seq<int> {
    seq(|leases|, j requires 0 <= j < |leases| => if Pending(leases[j], i, nonce) then leases[j].amount else 0)
  }

  function PendingMarks(leases: seq<Lease>, i: nat, nonce: int): seq<int> {
    seq(|leases|, j requires 0 <= j < |leases| => if Pending(leases[j], i, nonce) then 1 else 0)
  }

  function Nonces(leases: seq<Lease>): seq<int> {
    seq(|leases|, j requires 0 <= j < |leases| => NonceOf(leases[j].id))
  }

  /** Units granted to a cell that it has not installed and may still install, at its committed nonce or above. */
  function PendingUnits(s: System, i: nat): int
    requires i < |s.nodes|
  {
    Sum(PendingAmounts(s.pool.leases, i, s.nodes[i].cell.nonce))
  }

  function PendingLeases(s: System, i: nat): int
    requires i < |s.nodes|
  {
    Sum(PendingMarks(s.pool.leases, i, s.nodes[i].cell.nonce))
  }

  /** What a crash of cell i strands until the pool expires it. */
  function Stranded(s: System, i: nat): int
    requires i < |s.nodes|
  {
    Cached(s.nodes[i].cell) + PendingUnits(s, i)
  }

  /** No draw goes further than d ids on from the latest installed lease: 1 when none is ever redrawn under a new id. */
  predicate RedrawsWithin(log: Log, d: int) {
    forall k | 0 <= k < |log| && log[k].Drew? :: NonceOf(log[k].id) < NextNonce(log[..k]) + d
  }

  /** A cell's leases have different nonces, none beyond the draws, and none larger than its chunk. */
  predicate LeasesSpread(leases: seq<Lease>, i: nat, chunk: int, hi: int) {
    && (forall j | 0 <= j < |leases| && leases[j].grantee == i ::
          0 < leases[j].amount <= chunk && NonceOf(leases[j].id) < hi)
    && (forall j, j' | 0 <= j < j' < |leases| && leases[j].grantee == i && leases[j'].grantee == i ::
          NonceOf(leases[j].id) != NonceOf(leases[j'].id))
  }

  lemma PendingBounded(leases: seq<Lease>, i: nat, chunk: nat, nonce: int, n: nat)
    requires LeasesSpread(leases, i, chunk, nonce + n)
    ensures Sum(PendingAmounts(leases, i, nonce)) <= n * chunk
    ensures Sum(PendingMarks(leases, i, nonce)) <= n
  {
    SpreadSum(PendingAmounts(leases, i, nonce), Nonces(leases), nonce, n, chunk);
    SpreadSum(PendingMarks(leases, i, nonce), Nonces(leases), nonce, n, 1);
  }

  lemma LeasesOfCell(s: System, i: nat, hi: int)
    requires SystemLived(s) && i < |s.nodes|
    requires forall k | 0 <= k < |s.nodes[i].log| && s.nodes[i].log[k].Drew? :: NonceOf(s.nodes[i].log[k].id) < hi
    ensures LeasesSpread(s.pool.leases, i, s.nodes[i].cell.chunk, hi)
  {
    SystemHolds(s);
    LivedDrawn(s);
    LivedNodes(s);
    DrawsHold(s.nodes[i]);
    SpreadFromDraws(s, i, hi);
  }

  lemma SpreadFromDraws(s: System, i: nat, hi: int)
    requires Escrowed(s) && AllDrawn(s) && i < |s.nodes| && DrawsChunk(s.nodes[i])
    requires forall k | 0 <= k < |s.nodes[i].log| && s.nodes[i].log[k].Drew? :: NonceOf(s.nodes[i].log[k].id) < hi
    ensures LeasesSpread(s.pool.leases, i, s.nodes[i].cell.chunk, hi)
  {
    var leases, log, chunk := s.pool.leases, s.nodes[i].log, s.nodes[i].cell.chunk;
    forall j | 0 <= j < |leases| && leases[j].grantee == i
      ensures 0 < leases[j].amount <= chunk && NonceOf(leases[j].id) < hi
    {
      assert DrawnBy(s.nodes, leases[j]) && RowOk(leases[j]);
      var k :| 0 <= k < |log| && log[k].Drew? && log[k].id == leases[j].id && leases[j].amount <= log[k].units;
    }
    forall j, j' | 0 <= j < j' < |leases| && leases[j].grantee == i && leases[j'].grantee == i
      ensures NonceOf(leases[j].id) != NonceOf(leases[j'].id)
    {
      assert LeaseOk(s.nodes, leases[j]) && LeaseOk(s.nodes, leases[j']);
      SameNonce(s.nodes[i].cell.holder, leases[j].id, leases[j'].id);
    }
  }

  /** Two ids of one holder with the same nonce are the same. */
  lemma SameNonce(holder: Bytes, id: Bytes, id': Bytes)
    requires |id| == |id'| == |holder| + 8 && id[..|holder|] == id'[..|holder|] == holder
    ensures NonceOf(id) == NonceOf(id') ==> id == id'
  {
    var h := |holder|;
    if NonceOf(id) == NonceOf(id') {
      FromBigEndianInjective(id[h..], id'[h..]);
      assert id == id[..h] + id[h..] && id' == id'[..h] + id'[h..];
    }
  }

  // ----- the bound -----

  /** No cell is granted two leases under one nonce, and under nonces it may still install it is granted at most four,
      of a chunk each, however many refills gave up. */
  lemma LeasedOnce(s: System, i: nat)
    requires SystemLived(s) && i < |s.nodes|
    ensures forall j, j' | 0 <= j < j' < |s.pool.leases| && s.pool.leases[j].grantee == i
            && s.pool.leases[j'].grantee == i ::
              NonceOf(s.pool.leases[j].id) != NonceOf(s.pool.leases[j'].id)
    ensures PendingLeases(s, i) <= 4
    ensures PendingUnits(s, i) <= 4 * s.nodes[i].cell.chunk
  {
    AlwaysWithin(s, i);
    PendingWithin(s, i, MAX_REFILL_ATTEMPTS);
  }

  lemma AlwaysWithin(s: System, i: nat)
    requires SystemLived(s) && i < |s.nodes|
    ensures RedrawsWithin(s.nodes[i].log, MAX_REFILL_ATTEMPTS)
  {
    LivedNodes(s);
    InstalledOnce(s.nodes[i]);
  }

  lemma PendingWithin(s: System, i: nat, d: nat)
    requires SystemLived(s) && i < |s.nodes| && RedrawsWithin(s.nodes[i].log, d)
    ensures LeasesSpread(s.pool.leases, i, s.nodes[i].cell.chunk, s.nodes[i].cell.nonce + d)
    ensures PendingLeases(s, i) <= d && PendingUnits(s, i) <= d * s.nodes[i].cell.chunk
    ensures s.nodes[i].cell.next.Some? && 0 < d ==> PendingUnits(s, i) <= (d - 1) * s.nodes[i].cell.chunk
  {
    var n := s.nodes[i];
    SpreadWithin(s, i, d);
    PendingBounded(s.pool.leases, i, n.cell.chunk, n.cell.nonce, d);
    if n.cell.next.Some? && 0 < d {
      PendingBounded(s.pool.leases, i, n.cell.chunk, n.cell.nonce, d - 1);
    }
  }

  lemma SpreadWithin(s: System, i: nat, d: nat)
    requires SystemLived(s) && i < |s.nodes| && RedrawsWithin(s.nodes[i].log, d)
    ensures 0 < s.nodes[i].cell.chunk
    ensures LeasesSpread(s.pool.leases, i, s.nodes[i].cell.chunk, s.nodes[i].cell.nonce + d)
    ensures s.nodes[i].cell.next.Some? ==>
              LeasesSpread(s.pool.leases, i, s.nodes[i].cell.chunk, s.nodes[i].cell.nonce + (d - 1))
  {
    var n := s.nodes[i];
    NodeFacts(s, i);
    DrawsBelow(n, d);
    LeasesOfCell(s, i, n.cell.nonce + d);
    if n.cell.next.Some? {
      LeasesOfCell(s, i, n.cell.nonce + (d - 1));
    }
  }

  /** What the bound needs to know of a cell. */
  predicate WellDrawn(n: Node) {
    && 0 < n.cell.chunk && Increasing(n.log) && NextNonce(n.log) == n.cell.nonce
    && CellOk(n.cell) && Exposure(n) && DrawsChunk(n) && QuietBuffer(n)
  }

  lemma NodeFacts(s: System, i: nat)
    requires SystemLived(s) && i < |s.nodes|
    ensures WellDrawn(s.nodes[i])
  {
    LivedNodes(s);
    LivedHolds(s.nodes[i]);
    DrawFacts(s.nodes[i]);
    DrawsHold(s.nodes[i]);
  }

  lemma DrawFacts(n: Node)
    requires Invariant(n)
    ensures 0 < n.cell.chunk && Increasing(n.log) && NextNonce(n.log) == n.cell.nonce && CellOk(n.cell) && Exposure(n)
  {
  }

  lemma DrawsBelow(n: Node, d: int)
    requires WellDrawn(n) && RedrawsWithin(n.log, d)
    ensures forall k | 0 <= k < |n.log| && n.log[k].Drew? ::
              NonceOf(n.log[k].id) < n.cell.nonce + d
                  && (n.cell.next.Some? ==> NonceOf(n.log[k].id) < n.cell.nonce + (d - 1))
  {
    forall k | 0 <= k < |n.log| && n.log[k].Drew?
      ensures NonceOf(n.log[k].id) < n.cell.nonce + d
      ensures n.cell.next.Some? ==> NonceOf(n.log[k].id) < n.cell.nonce + (d - 1)
    {
      NonceGrows(n.log, k);
    }
  }

  /** Every chunk a cell installed is a lease of its own, within its request. */
  lemma GrantsFit(s: System, i: nat)
    requires SystemLived(s) && i < |s.nodes|
    ensures GrantsWithin(s.nodes[i].log, s.nodes[i].cell.chunk)
  {
    var n := s.nodes[i];
    SystemHolds(s);
    LivedSourced(s);
    LogFacts(s.nodes, i);
    AlwaysWithin(s, i);
    PendingWithin(s, i, MAX_REFILL_ATTEMPTS);
    forall k | 0 <= k < |n.log| && n.log[k].Installed?
      ensures n.log[k].chunk.amount <= n.cell.chunk
    {
      InstallLeased(s, i, k);
    }
  }

  lemma InstallLeased(s: System, i: nat, k: nat)
    requires Escrowed(s) && AllSourced(s) && Logged(s, i, k) && s.nodes[i].log[k].Installed?
    requires NodesOk(s.nodes) && Minting(s.nodes[i].cell, s.nodes[i].log)
    requires forall j | 0 <= j < |s.pool.leases| && s.pool.leases[j].grantee == i ::
               s.pool.leases[j].amount <= s.nodes[i].cell.chunk
    ensures s.nodes[i].log[k].chunk.amount <= s.nodes[i].cell.chunk
  {
    InstallGated(s.nodes[i], k);
    var j := InstalledLease(s, i, k);
  }

  lemma InstalledLease(s: System, i: nat, k: nat) returns (j: nat)
    requires Escrowed(s) && AllSourced(s) && Logged(s, i, k) && s.nodes[i].log[k].Installed?
    requires Minting(s.nodes[i].cell, s.nodes[i].log) && 0 < s.nodes[i].log[k].grant.granted
    ensures j < |s.pool.leases| && s.pool.leases[j].grantee == i
    ensures s.pool.leases[j].id == s.nodes[i].log[k].chunk.leaseID
            && s.pool.leases[j].amount == s.nodes[i].log[k].grant.granted
  {
    var n, e := s.nodes[i], s.nodes[i].log[k];
    assert Sourced(n, s.replies) && GrantReply(e.chunk.leaseID, e.grant) in s.replies;
    assert Leased(s.pool, e.chunk.leaseID, e.grant.granted);
    j :| 0 <= j < |s.pool.leases| && s.pool.leases[j].id == e.chunk.leaseID
        && s.pool.leases[j].amount == e.grant.granted;
    assert IdOk(e, n.cell.holder, n.cell.nonce) && LeaseOk(s.nodes, s.pool.leases[j]);
    SameGrantee(s.nodes, i, s.pool.leases[j]);
  }

  lemma InstallGated(n: Node, k: nat)
    requires Invariant(n) && k < |n.log| && n.log[k].Installed?
    ensures 0 < n.log[k].grant.granted == n.log[k].chunk.amount
  {
    assert GateOk(n.log[k]);
  }

  /** A crash strands at most d chunks more than one, when no draw goes further than d ids on. */
  lemma StrandedAtMost(s: System, i: nat, d: nat)
    requires SystemLived(s) && i < |s.nodes| && 0 < d && RedrawsWithin(s.nodes[i].log, d)
    ensures Stranded(s, i) <= (d + 1) * s.nodes[i].cell.chunk
  {
    var n := s.nodes[i];
    NodeFacts(s, i);
    GrantsFit(s, i);
    PendingWithin(s, i, d);
    CachedAtMost(n);
    Distribute(d, n.cell.chunk);
  }

  lemma CachedAtMost(n: Node)
    requires WellDrawn(n) && GrantsWithin(n.log, n.cell.chunk)
    ensures Cached(n.cell) <= if n.cell.next.Some? then 2 * n.cell.chunk else n.cell.chunk
  {
  }

  lemma Distribute(d: int, x: int)
    ensures (d + 1) * x == d * x + x && (d - 1) * x == d * x - x && d * (x + 1) == d * x + d
  {
  }

  /** In every run a crash strands at most five chunks. */
  lemma StrandedAlways(s: System, i: nat)
    requires SystemLived(s) && i < |s.nodes|
    ensures Stranded(s, i) <= 5 * s.nodes[i].cell.chunk
  {
    AlwaysWithin(s, i);
    StrandedAtMost(s, i, MAX_REFILL_ATTEMPTS);
  }

  // ----- leases that were passed over -----

  /** All leases the pool ever granted to cell i. */
  function LeasesEver(s: System, i: nat): int {
    Sum(PendingMarks(s.pool.leases, i, 0))
  }

  /** A cell is granted at most d leases for each it installs, and d more. */
  lemma LeasesPerInstall(s: System, i: nat, d: nat)
    requires SystemLived(s) && i < |s.nodes| && RedrawsWithin(s.nodes[i].log, d)
    ensures LeasesEver(s, i) <= d * (Installs(s.nodes[i].log) + 1)
  {
    var n := s.nodes[i];
    NonceWithin(s, i, d);
    PendingWithin(s, i, d);
    ChunkPositive(s, i);
    PendingBounded(s.pool.leases, i, n.cell.chunk, 0, n.cell.nonce + d);
    Distribute(d, Installs(n.log));
  }

  lemma ChunkPositive(s: System, i: nat)
    requires SystemLived(s) && i < |s.nodes|
    ensures 0 < s.nodes[i].cell.chunk
  {
    NodeFacts(s, i);
  }

  lemma NonceWithin(s: System, i: nat, d: nat)
    requires SystemLived(s) && i < |s.nodes| && RedrawsWithin(s.nodes[i].log, d)
    ensures s.nodes[i].cell.nonce <= d * Installs(s.nodes[i].log)
  {
    var n := s.nodes[i];
    NodeFacts(s, i);
    forall p | 0 <= p < |n.log| && n.log[p].Installed?
      ensures NonceOf(n.log[p].chunk.leaseID) < NextNonce(n.log[..p]) + d
    {
      InstallNear(s, i, p, d);
    }
    NonceByInstalls(n.log, d);
  }

  lemma InstallNear(s: System, i: nat, p: nat, d: nat)
    requires SystemLived(s) && Logged(s, i, p) && s.nodes[i].log[p].Installed? && RedrawsWithin(s.nodes[i].log, d)
    ensures NonceOf(s.nodes[i].log[p].chunk.leaseID) < NextNonce(s.nodes[i].log[..p]) + d
  {
    var n, e := s.nodes[i], s.nodes[i].log[p];
    SystemHolds(s);
    LivedSourced(s);
    LivedDrawn(s);
    LivedNodes(s);
    InstalledOnce(n);
    NodeFacts(s, i);
    LogFacts(s.nodes, i);
    InstallGated(n, p);
    var j := InstalledLease(s, i, p);
    assert DrawnBy(s.nodes, s.pool.leases[j]);
    var k :| 0 <= k < |n.log| && n.log[k].Drew? && n.log[k].id == e.chunk.leaseID;
    DrawnBefore(n.log, k, p, d);
  }

  /** A draw names nothing installed before it, so the draw of an install came first. */
  lemma DrawnBefore(log: Log, k: nat, p: nat, d: int)
    requires Increasing(log) && Redraws(log) && RedrawsWithin(log, d) && k < |log| && p < |log|
    requires log[k].Drew? && log[p].Installed? && log[k].id == log[p].chunk.leaseID
    ensures NonceOf(log[p].chunk.leaseID) < NextNonce(log[..p]) + d
  {
    if p < k {
      InstallBelow(log, p, k);
      assert false;
    }
    PrefixIncreasing(log, p);
    NonceGrows(log[..p], k);
    assert log[..p][..k] == log[..k];
  }

  lemma InstallBelow(log: Log, p: nat, k: nat)
    requires Increasing(log) && p < k <= |log| && log[p].Installed?
    ensures NonceOf(log[p].chunk.leaseID) < NextNonce(log[..k])
  {
    PrefixIncreasing(log, k);
    NonceGrows(log[..k], p + 1);
    assert log[..k][..p + 1] == log[..p + 1] && log[..p + 1][..p] == log[..p] && log[..p + 1][p] == log[p];
  }

  lemma PrefixIncreasing(log: Log, k: nat)
    requires Increasing(log) && k <= |log|
    ensures Increasing(log[..k])
  {
  }
}
