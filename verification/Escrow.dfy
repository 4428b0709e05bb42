/** Any number of cells on one escrow pool. Requests are the Drew, Attested and Settled events of the cells' logs: the
    server may process one at any later time, again, or never. A grant reply may reach its draw late, or never. */
module Escrow {
  import opened Int64
  import opened Encoding
  import opened Sums
  import opened Options
  import opened LeaseCell
  import opened CellProtocol
  import opened CellLedger
  import opened CellInvariant
  import opened CellSteps
  import opened CellTheorems
  import opened CellTiming
  import opened EscrowPool

  datatype GrantReply = GrantReply(id: Bytes, grant: DrawResult)

  datatype System = System(nodes: seq<Node>, pool: Pool, replies: set<GrantReply>)

  datatype Move =
    | CellMoves(i: nat, act: Act)
    | ServeGrant(i: nat, k: nat, echo: DrawResult)           // a draw under an id new to the pool
    | ServeRegrant(i: nat, k: nat, j: nat, echo: DrawResult) // a draw under a live lease's id
    | ServeReport(i: nat, k: nat, j: nat)
    | ServeReturn(i: nat, k: nat, j: nat)
    | ForceExpiry(j: nat)

  predicate SystemInit(s: System) {
    && (forall i | 0 <= i < |s.nodes| :: Init(s.nodes[i]))
    && (forall i, j | 0 <= i < j < |s.nodes| ::
          |s.nodes[i].cell.holder| == |s.nodes[j].cell.holder| && s.nodes[i].cell.holder != s.nodes[j].cell.holder)
    && 0 <= s.pool.cap && s.pool == NewPool(s.pool.cap) && s.replies == {}
  }

  predicate Logged(s: System, i: nat, k: nat) {
    i < |s.nodes| && k < |s.nodes[i].log|
  }

  /** A cell may only see a positive grant that the pool replied to the draw it has in flight. */
  predicate Answered(s: System, i: nat, act: Act)
    requires i < |s.nodes| && Enabled(s.nodes[i], act)
  {
    act.lab.Refiller? && act.lab.refill.DrawReply? && act.lab.refill.outcome.Granted? ==>
      var gr := act.lab.refill.outcome.result;
      gr.granted <= 0
      || GrantReply(MakeLeaseID(s.nodes[i].cell.holder, s.nodes[i].bodies[act.lab.b].nonce), gr) in s.replies
  }

  predicate MoveEnabled(s: System, m: Move) {
    match m
    case CellMoves(i, act) => i < |s.nodes| && Enabled(s.nodes[i], act) && Answered(s, i, act)
    case ServeGrant(i, k, echo) =>
      && Logged(s, i, k) && s.nodes[i].log[k].Drew? && !Known(s.pool, s.nodes[i].log[k].id)
      && echo.granted == GrantUnits(s.pool, s.nodes[i].log[k].units)
    case ServeRegrant(i, k, j, echo) =>
      && Logged(s, i, k) && s.nodes[i].log[k].Drew? && j < |s.pool.leases|
      && s.pool.leases[j].id == s.nodes[i].log[k].id && s.pool.leases[j].live && echo.granted == s.pool.leases[j].amount
    case ServeReport(i, k, j) =>
      && Logged(s, i, k) && s.nodes[i].log[k].Attested? && j < |s.pool.leases|
      && s.pool.leases[j].id == s.nodes[i].log[k].id
    case ServeReturn(i, k, j) =>
      && Logged(s, i, k) && s.nodes[i].log[k].Settled? && j < |s.pool.leases|
      && s.pool.leases[j].id == s.nodes[i].log[k].id
    case ForceExpiry(j) => j < |s.pool.leases|
  }

  function Moved(s: System, m: Move): System
    requires MoveEnabled(s, m)
  {
    match m
    case CellMoves(i, act) => s.(nodes := s.nodes[i := Step(s.nodes[i], act)])
    case ServeGrant(i, k, echo) =>
      var e := s.nodes[i].log[k];
      s.(pool := Grant(s.pool, e.id, i, e.units), replies := s.replies + {GrantReply(e.id, echo)})
    case ServeRegrant(i, k, j, echo) => s.(replies := s.replies + {GrantReply(s.pool.leases[j].id, echo)})
    case ServeReport(i, k, j) => s.(pool := Report(s.pool, j, s.nodes[i].log[k].spent))
    case ServeReturn(i, k, j) => s.(pool := Return(s.pool, j, s.nodes[i].log[k].spent))
    case ForceExpiry(j) => s.(pool := Expire(s.pool, j))
  }

  function SystemRun(s: System, moves: seq<Move>): Option<System> {
    if moves == [] then Some(s)
    else
      var before := SystemRun(s, moves[..|moves| - 1]);
      if before.Some? && MoveEnabled(before.value, moves[|moves| - 1])
      then Some(Moved(before.value, moves[|moves| - 1])) else None
  }

  predicate FewDraws(s: System) {
    forall i | 0 <= i < |s.nodes| :: Total(Draws, s.nodes[i].log) < TWO64
  }

  /** A state of a run in which no cell has made 2^64 draws. */
  ghost predicate SystemLived(s: System) {
    && FewDraws(s)
    && exists s0: System, moves: seq<Move> :: SystemInit(s0) && SystemRun(s0, moves) == Some(s)
  }

  // ----- the invariant -----

  predicate Leased(p: Pool, id: Bytes, amount: int) {
    exists j | 0 <= j < |p.leases| :: p.leases[j].id == id && p.leases[j].amount == amount
  }

  /** What this lease has served, by its grantee's log. */
  function ServedOf(nodes: seq<Node>, l: Lease): int {
    if l.grantee < |nodes| then Total(ServedFrom(l.id), nodes[l.grantee].log) else 0
  }

  /** A lease covers what it served, and no more was attested; once a return settled it below its amount, its id is out
      of the cache for good. */
  predicate LeaseOk(nodes: seq<Node>, l: Lease) {
    && l.grantee < |nodes|
    && |l.id| == |nodes[l.grantee].cell.holder| + 8
    && l.id[..|nodes[l.grantee].cell.holder|] == nodes[l.grantee].cell.holder
    && 0 <= l.attested <= ServedOf(nodes, l) <= l.amount
    && (!l.live && l.booked < l.amount ==>
          ServedOf(nodes, l) <= l.booked && 1 <= Total(LeavesOf(l.id), nodes[l.grantee].log))
  }

  /** An event about a lease the cell has held. */
  predicate NamesLease(e: Event) {
    e.Served? || e.Attested? || e.Settled?
  }

  /** Whatever a cell holds, is about to install or to settle, or ever served, attested or settled is leased to it. */
  predicate Backed(n: Node, p: Pool) {
    && (forall ch | ch in Held(n.cell) :: Leased(p, ch.leaseID, ch.amount))
    && (forall b | b in n.bodies && n.bodies[b].Accepted? ::
          Leased(p, MakeLeaseID(n.cell.holder, n.bodies[b].nonce), n.bodies[b].grant.granted))
    && (forall k | 0 <= k < |n.log| && NamesLease(n.log[k]) :: Known(p, n.log[k].id))
    && (forall r, k | r in n.closers && n.closers[r].Settling? && 0 <= k < |n.closers[r].chunks| ::
          Known(p, n.closers[r].chunks[k].leaseID))
  }

  predicate Distinct(nodes: seq<Node>) {
    forall i, j | 0 <= i < j < |nodes| ::
      |nodes[i].cell.holder| == |nodes[j].cell.holder| && nodes[i].cell.holder != nodes[j].cell.holder
  }

  function Serves(nodes: seq<Node>): seq<int> {
    seq(|nodes|, i requires 0 <= i < |nodes| => Total(ServedUnits, nodes[i].log))
  }

  function LeaseServes(nodes: seq<Node>, leases: seq<Lease>): seq<int> {
    seq(|leases|, j requires 0 <= j < |leases| => ServedOf(nodes, leases[j]))
  }

  ghost predicate NodesOk(nodes: seq<Node>) {
    forall i | 0 <= i < |nodes| :: Invariant(nodes[i])
  }

  predicate CellsBacked(nodes: seq<Node>, p: Pool) {
    forall i | 0 <= i < |nodes| :: Backed(nodes[i], p)
  }

  predicate RepliesBacked(replies: set<GrantReply>, p: Pool) {
    forall r | r in replies && 0 < r.grant.granted :: Leased(p, r.id, r.grant.granted)
  }

  predicate LeasesOk(nodes: seq<Node>, leases: seq<Lease>) {
    forall j | 0 <= j < |leases| :: LeaseOk(nodes, leases[j])
  }

  predicate Escrowed(s: System) {
    && CellsBacked(s.nodes, s.pool) && RepliesBacked(s.replies, s.pool)
    && Distinct(s.nodes) && PoolOk(s.pool)
    && LeasesOk(s.nodes, s.pool.leases)
    && Sum(Serves(s.nodes)) == Sum(LeaseServes(s.nodes, s.pool.leases))
  }

  ghost predicate SystemOk(s: System) {
    NodesOk(s.nodes) && Escrowed(s)
  }

  // ----- the theorem -----

  /** Units of a lease the pool accounts as spent or leased out. */
  function Accounted(leases: seq<Lease>): seq<int> {
    seq(|leases|, j requires 0 <= j < |leases| => leases[j].booked + Owed(leases[j]))
  }

  lemma {:induction false} AccountedAdds(leases: seq<Lease>)
    ensures Sum(Accounted(leases)) == Sum(Booked(leases)) + Sum(Outstanding(leases))
  {
    if leases != [] {
      var front := leases[..|leases| - 1];
      assert Accounted(leases)[..|front|] == Accounted(front);
      assert Booked(leases)[..|front|] == Booked(front);
      assert Outstanding(leases)[..|front|] == Outstanding(front);
      AccountedAdds(front);
    }
  }

  /** No overspend: all units ever served by all cells stay within spent + leasedOut = cap - available; and the pool
      never reports more than was served. */
  lemma NoOverspend(s: System)
    requires SystemLived(s)
    ensures Sum(Serves(s.nodes)) <= s.pool.spent + s.pool.leasedOut == s.pool.cap - s.pool.available <= s.pool.cap
    ensures s.pool.spentReported <= Sum(Serves(s.nodes))
  {
    SystemHolds(s);
    LeasesCover(s);
    AccountedAdds(s.pool.leases);
  }

  lemma LeasesCover(s: System)
    requires Escrowed(s)
    ensures Sum(Reported(s.pool.leases)) <= Sum(Serves(s.nodes)) <= Sum(Accounted(s.pool.leases))
  {
    var leases := s.pool.leases;
    forall j | 0 <= j < |leases|
      ensures leases[j].attested <= ServedOf(s.nodes, leases[j]) <= leases[j].booked + Owed(leases[j])
    {
      assert LeaseOk(s.nodes, leases[j]);
    }
    SumAtMost(Reported(leases), LeaseServes(s.nodes, leases));
    SumAtMost(LeaseServes(s.nodes, leases), Accounted(leases));
  }

  /** The spend a reconcile books: the external total, clamped between the reported spend and the cap. */
  function Reconciled(p: Pool, total: int): int {
    Max(p.spentReported, Min(total, p.cap))
  }

  /** The clamp never moves the true total: an exact ledger of all served units is booked as it is. */
  lemma ReconcileKeepsTruth(s: System)
    requires SystemLived(s)
    ensures Reconciled(s.pool, Sum(Serves(s.nodes))) == Sum(Serves(s.nodes))
  {
    NoOverspend(s);
    SystemHolds(s);
    ReportedNonNegative(s.pool);
  }

  lemma ReportedNonNegative(p: Pool)
    requires PoolOk(p)
    ensures 0 <= p.spentReported
  {
    SumNonNegative(Reported(p.leases));
  }

  /** Every report and every settlement a cell sends names a lease the pool granted to that cell, and fits it, so the
      pool never has to refuse one. */
  lemma FoldsFit(s: System, i: nat, k: nat)
    requires SystemLived(s) && Logged(s, i, k) && (s.nodes[i].log[k].Attested? || s.nodes[i].log[k].Settled?)
    ensures Known(s.pool, s.nodes[i].log[k].id)
    ensures forall j | 0 <= j < |s.pool.leases| && s.pool.leases[j].id == s.nodes[i].log[k].id ::
              && s.pool.leases[j].grantee == i && 0 <= s.nodes[i].log[k].spent <= s.pool.leases[j].amount
              && (s.nodes[i].log[k].Settled? ==> s.nodes[i].log[k].spent == ServedOf(s.nodes, s.pool.leases[j]))
  {
    SystemHolds(s);
    LogFacts(s.nodes, i);
    assert Backed(s.nodes[i], s.pool) && NamesLease(s.nodes[i].log[k]);
    forall j | 0 <= j < |s.pool.leases| && s.pool.leases[j].id == s.nodes[i].log[k].id
      ensures s.pool.leases[j].grantee == i && 0 <= s.nodes[i].log[k].spent <= s.pool.leases[j].amount
      ensures s.nodes[i].log[k].Settled? ==> s.nodes[i].log[k].spent == ServedOf(s.nodes, s.pool.leases[j])
    {
      FoldFits(s.nodes, i, k, s.pool.leases[j]);
    }
  }

  lemma FoldFits(nodes: seq<Node>, i: nat, k: nat, l: Lease)
    requires Distinct(nodes) && i < |nodes| && k < |nodes[i].log| && LeaseOk(nodes, l)
    requires (nodes[i].log[k].Attested? || nodes[i].log[k].Settled?) && l.id == nodes[i].log[k].id
    requires Truthful(nodes[i].log) && Modest(nodes[i].log) && Minting(nodes[i].cell, nodes[i].log)
    ensures l.grantee == i && 0 <= nodes[i].log[k].spent <= ServedOf(nodes, l) <= l.amount
    ensures nodes[i].log[k].Settled? ==>
              nodes[i].log[k].spent == ServedOf(nodes, l) && 1 <= Total(LeavesOf(l.id), nodes[i].log)
  {
    assert IdOk(nodes[i].log[k], nodes[i].cell.holder, nodes[i].cell.nonce);
    SameGrantee(nodes, i, l);
  }

  lemma LogFacts(nodes: seq<Node>, i: nat)
    requires NodesOk(nodes) && i < |nodes|
    ensures var n := nodes[i];
            && Minting(n.cell, n.log) && Truthful(n.log) && Modest(n.log) && Flight(n)
            && (forall ch | ch in Held(n.cell) :: HeldOk(ch, n.log) && ChunkOk(ch, n.cell))
  {
    assert Invariant(nodes[i]);
  }

  /** A cell whose holder prefixes the lease's id is its grantee. */
  lemma SameGrantee(nodes: seq<Node>, i: nat, l: Lease)
    requires Distinct(nodes) && i < |nodes| && LeaseOk(nodes, l)
    requires |l.id| == |nodes[i].cell.holder| + 8 && l.id[..|nodes[i].cell.holder|] == nodes[i].cell.holder
    ensures l.grantee == i
  {
    if i < l.grantee {
      assert false;
    } else if l.grantee < i {
      assert false;
    }
  }

  lemma SystemHolds(s: System)
    requires SystemLived(s)
    ensures SystemOk(s)
  {
    var s0: System, moves: seq<Move> :| SystemInit(s0) && SystemRun(s0, moves) == Some(s);
    SystemRunHolds(s0, moves);
  }

  lemma {:induction false} SystemRunHolds(s0: System, moves: seq<Move>)
    requires SystemInit(s0) && SystemRun(s0, moves).Some? && FewDraws(SystemRun(s0, moves).value)
    ensures SystemOk(SystemRun(s0, moves).value)
  {
    if moves == [] {
      SystemInitHolds(s0);
    } else {
      var before, m := moves[..|moves| - 1], moves[|moves| - 1];
      var s := SystemRun(s0, before).value;
      DrawsBefore(s, m);
      SystemRunHolds(s0, before);
      MoveKeeps(s, m);
    }
  }

  lemma SystemInitHolds(s: System)
    requires SystemInit(s)
    ensures SystemOk(s)
  {
    forall i | 0 <= i < |s.nodes|
      ensures Invariant(s.nodes[i])
    {
      InitHolds(s.nodes[i]);
    }
    InitEscrowed(s);
  }

  lemma InitEscrowed(s: System)
    requires SystemInit(s)
    ensures Escrowed(s)
  {
    ZeroSum(Serves(s.nodes));
  }

  lemma DrawsBefore(s: System, m: Move)
    requires MoveEnabled(s, m) && FewDraws(Moved(s, m))
    ensures FewDraws(s)
  {
    if m.CellMoves? {
      var n, n' := s.nodes[m.i], Step(s.nodes[m.i], m.act);
      var events := n'.log[|n.log|..];
      assert n'.log == n.log + events;
      DrawsGrow(n.log, events);
      assert Moved(s, m).nodes[m.i] == n';
      forall i | 0 <= i < |s.nodes|
        ensures Total(Draws, s.nodes[i].log) < TWO64
      {
        if i != m.i {
          assert Moved(s, m).nodes[i] == s.nodes[i];
        }
      }
    } else {
      assert Moved(s, m).nodes == s.nodes;
    }
  }

  lemma MoveKeeps(s: System, m: Move)
    requires SystemOk(s) && FewDraws(s) && MoveEnabled(s, m)
    ensures SystemOk(Moved(s, m))
  {
    match m
    case CellMoves(i, act) => CellMoveKeeps(s, i, act);
    case ServeGrant(i, k, echo) => GrantKeeps(s, i, k, echo);
    case ServeRegrant(i, k, j, echo) => RegrantKeeps(s, i, k, j, echo);
    case ServeReport(i, k, j) => ReportMoveKeeps(s, i, k, j);
    case ServeReturn(i, k, j) => ReturnMoveKeeps(s, i, k, j);
    case ForceExpiry(j) => ExpiryKeeps(s, j);
  }

  lemma RegrantKeeps(s: System, i: nat, k: nat, j: nat, echo: DrawResult)
    requires Escrowed(s) && MoveEnabled(s, ServeRegrant(i, k, j, echo))
    ensures Escrowed(Moved(s, ServeRegrant(i, k, j, echo)))
  {
    assert Leased(s.pool, s.pool.leases[j].id, echo.granted);
  }

  // ----- server moves -----

  /** Replacing a lease by one with the same id, grantee and amount keeps everything but its own accounting. */
  lemma RebookKeeps(s: System, p': Pool, j: nat)
    requires Escrowed(s) && Rebooked(s.pool, p', j) && PoolOk(p') && LeaseOk(s.nodes, p'.leases[j])
    ensures Escrowed(s.(pool := p'))
  {
    RebookedSame(s.nodes, s.pool, p', j);
    BackingMoves(s.nodes, s.replies, s.pool, p');
  }

  lemma RebookedSame(nodes: seq<Node>, p: Pool, p': Pool, j: nat)
    requires Rebooked(p, p', j) && LeasesOk(nodes, p.leases) && LeaseOk(nodes, p'.leases[j])
    ensures LeasesOk(nodes, p'.leases) && LeaseServes(nodes, p'.leases) == LeaseServes(nodes, p.leases)
    ensures KeepsLeases(p, p')
  {
    forall k | 0 <= k < |p'.leases|
      ensures LeaseOk(nodes, p'.leases[k]) && ServedOf(nodes, p'.leases[k]) == ServedOf(nodes, p.leases[k])
      ensures p'.leases[k].id == p.leases[k].id && p'.leases[k].amount == p.leases[k].amount
    {
      assert k != j ==> p'.leases[k] == p.leases[k];
      assert LeaseOk(nodes, p.leases[k]);
    }
    assert LeaseServes(nodes, p'.leases) == LeaseServes(nodes, p.leases);
  }

  /** The pool still knows each lease, with its amount. */
  predicate KeepsLeases(p: Pool, p': Pool) {
    && |p.leases| <= |p'.leases|
    && forall k | 0 <= k < |p.leases| :: p'.leases[k].id == p.leases[k].id && p'.leases[k].amount == p.leases[k].amount
  }

  lemma BackingMoves(nodes: seq<Node>, replies: set<GrantReply>, p: Pool, p': Pool)
    requires KeepsLeases(p, p') && CellsBacked(nodes, p) && RepliesBacked(replies, p)
    ensures CellsBacked(nodes, p') && RepliesBacked(replies, p')
  {
    StillLeased(p, p');
    forall i | 0 <= i < |nodes|
      ensures Backed(nodes[i], p')
    {
      assert Backed(nodes[i], p);
    }
  }

  lemma StillLeased(p: Pool, p': Pool)
    requires KeepsLeases(p, p')
    ensures forall id, amount :: Leased(p, id, amount) ==> Leased(p', id, amount)
    ensures forall id :: Known(p, id) ==> Known(p', id)
  {
  }

  /** Only the j-th lease changes, and only in its accounting. */
  predicate Rebooked(p: Pool, p': Pool, j: nat) {
    && j < |p.leases| == |p'.leases| && p'.leases == p.leases[j := p'.leases[j]]
    && p'.leases[j].id == p.leases[j].id && p'.leases[j].grantee == p.leases[j].grantee
    && p'.leases[j].amount == p.leases[j].amount
  }

  lemma ReportRebooks(p: Pool, j: nat, cumulative: int)
    requires PoolOk(p) && j < |p.leases|
    ensures Rebooked(p, Report(p, j, cumulative), j) && PoolOk(Report(p, j, cumulative))
  {
    ReportConserves(p, j, cumulative);
  }

  lemma ReturnRebooks(p: Pool, j: nat, cumulative: int)
    requires PoolOk(p) && j < |p.leases|
    ensures Rebooked(p, Return(p, j, cumulative), j) && PoolOk(Return(p, j, cumulative))
  {
    ReturnConserves(p, j, cumulative);
  }

  lemma ExpireRebooks(p: Pool, j: nat)
    requires PoolOk(p) && j < |p.leases|
    ensures Rebooked(p, Expire(p, j), j) && PoolOk(Expire(p, j))
  {
    ExpireConserves(p, j);
  }

  lemma ReportMoveKeeps(s: System, i: nat, k: nat, j: nat)
    requires SystemOk(s) && MoveEnabled(s, ServeReport(i, k, j))
    ensures Escrowed(Moved(s, ServeReport(i, k, j)))
  {
    LogFacts(s.nodes, i);
    ReportEscrowed(s, i, k, j);
  }

  lemma ReportEscrowed(s: System, i: nat, k: nat, j: nat)
    requires Logged(s, i, k) && Modest(s.nodes[i].log) && Truthful(s.nodes[i].log)
    requires Escrowed(s) && MoveEnabled(s, ServeReport(i, k, j))
    requires Minting(s.nodes[i].cell, s.nodes[i].log)
    ensures Escrowed(Moved(s, ServeReport(i, k, j)))
  {
    var spent := s.nodes[i].log[k].spent;
    FoldFits(s.nodes, i, k, s.pool.leases[j]);
    ReportRebooks(s.pool, j, spent);
    ReportCovers(s.nodes, s.pool, j, spent);
    RebookKeeps(s, Report(s.pool, j, spent), j);
  }

  lemma ReportCovers(nodes: seq<Node>, p: Pool, j: nat, spent: int)
    requires j < |p.leases| && LeaseOk(nodes, p.leases[j]) && RowOk(p.leases[j])
             && spent <= ServedOf(nodes, p.leases[j])
    ensures LeaseOk(nodes, Report(p, j, spent).leases[j])
  {
  }

  lemma ExpiryKeeps(s: System, j: nat)
    requires Escrowed(s) && j < |s.pool.leases|
    ensures Escrowed(Moved(s, ForceExpiry(j)))
  {
    var p' := Expire(s.pool, j);
    assert Moved(s, ForceExpiry(j)) == s.(pool := p');
    ExpireRebooks(s.pool, j);
    ExpiryCovers(s.nodes, s.pool, j);
    RebookKeeps(s, p', j);
  }

  lemma ExpiryCovers(nodes: seq<Node>, p: Pool, j: nat)
    requires j < |p.leases| && LeaseOk(nodes, p.leases[j])
    ensures LeaseOk(nodes, Expire(p, j).leases[j])
  {
  }

  /** A settlement is processed with the lease's final truth, so what it books covers what was served. */
  lemma ReturnMoveKeeps(s: System, i: nat, k: nat, j: nat)
    requires SystemOk(s) && MoveEnabled(s, ServeReturn(i, k, j))
    ensures Escrowed(Moved(s, ServeReturn(i, k, j)))
  {
    LogFacts(s.nodes, i);
    ReturnEscrowed(s, i, k, j);
  }

  lemma ReturnEscrowed(s: System, i: nat, k: nat, j: nat)
    requires Logged(s, i, k) && Modest(s.nodes[i].log) && Truthful(s.nodes[i].log)
    requires Escrowed(s) && MoveEnabled(s, ServeReturn(i, k, j))
    requires Minting(s.nodes[i].cell, s.nodes[i].log)
    ensures Escrowed(Moved(s, ServeReturn(i, k, j)))
  {
    var spent := s.nodes[i].log[k].spent;
    FoldFits(s.nodes, i, k, s.pool.leases[j]);
    ReturnCovers(s.nodes, s.pool, j, spent);
    ReturnRebooks(s.pool, j, spent);
    RebookKeeps(s, Return(s.pool, j, spent), j);
  }

  lemma ReturnCovers(nodes: seq<Node>, p: Pool, j: nat, spent: int)
    requires j < |p.leases| && LeaseOk(nodes, p.leases[j]) && RowOk(p.leases[j])
    requires ServedOf(nodes, p.leases[j]) == spent <= p.leases[j].amount
    requires 1 <= Total(LeavesOf(p.leases[j].id), nodes[p.leases[j].grantee].log)
    ensures LeaseOk(nodes, Return(p, j, spent).leases[j])
  {
  }

  lemma GrantKeeps(s: System, i: nat, k: nat, echo: DrawResult)
    requires SystemOk(s) && MoveEnabled(s, ServeGrant(i, k, echo))
    ensures Escrowed(Moved(s, ServeGrant(i, k, echo)))
  {
    LogFacts(s.nodes, i);
    GrantEscrowed(s, i, k, echo);
  }

  lemma GrantEscrowed(s: System, i: nat, k: nat, echo: DrawResult)
    requires Escrowed(s) && MoveEnabled(s, ServeGrant(i, k, echo)) && Minting(s.nodes[i].cell, s.nodes[i].log)
    ensures Escrowed(Moved(s, ServeGrant(i, k, echo)))
  {
    var e := s.nodes[i].log[k];
    var g := GrantUnits(s.pool, e.units);
    GrantConserves(s.pool, e.id, i, e.units);
    if g != 0 {
      var l := Lease(e.id, i, g, 0, 0, true);
      assert Backed(s.nodes[i], s.pool);
      NewLease(s.nodes, i, k, s.pool, l);
      AddLeaseKeeps(s, Grant(s.pool, e.id, i, e.units), l, echo);
    }
  }

  lemma NewLease(nodes: seq<Node>, i: nat, k: nat, p: Pool, l: Lease)
    requires i < |nodes| && k < |nodes[i].log| && nodes[i].log[k].Drew? && !Known(p, l.id)
    requires Minting(nodes[i].cell, nodes[i].log) && Backed(nodes[i], p)
    requires l == Lease(nodes[i].log[k].id, i, l.amount, 0, 0, true) && 0 <= l.amount
    ensures LeaseOk(nodes, l) && ServedOf(nodes, l) == 0
  {
    assert IdOk(nodes[i].log[k], nodes[i].cell.holder, nodes[i].cell.nonce);
    assert forall x | 0 <= x < |nodes[i].log| && nodes[i].log[x].Served? :: NamesLease(nodes[i].log[x]);
    NeverServed(nodes[i].log, p, l.id);
  }

  lemma AddLeaseKeeps(s: System, p': Pool, l: Lease, echo: DrawResult)
    requires Escrowed(s) && PoolOk(p') && p'.leases == s.pool.leases + [l]
    requires LeaseOk(s.nodes, l) && ServedOf(s.nodes, l) == 0 && echo.granted == l.amount
    ensures Escrowed(s.(pool := p', replies := s.replies + {GrantReply(l.id, echo)}))
  {
    var replies := s.replies + {GrantReply(l.id, echo)};
    BackingMoves(s.nodes, s.replies, s.pool, p');
    assert p'.leases[|s.pool.leases|] == l && Leased(p', l.id, echo.granted);
    assert RepliesBacked(replies, p');
    LeasesGrow(s.nodes, s.pool.leases, l);
  }

  lemma LeasesGrow(nodes: seq<Node>, leases: seq<Lease>, l: Lease)
    requires LeasesOk(nodes, leases) && LeaseOk(nodes, l) && ServedOf(nodes, l) == 0
    ensures LeasesOk(nodes, leases + [l])
    ensures Sum(LeaseServes(nodes, leases + [l])) == Sum(LeaseServes(nodes, leases))
  {
    assert LeaseServes(nodes, leases + [l]) == LeaseServes(nodes, leases) + [0];
    SumAppend(LeaseServes(nodes, leases), 0);
  }

  lemma {:induction false} NeverServed(log: Log, p: Pool, id: Bytes)
    requires !Known(p, id) && forall k | 0 <= k < |log| && log[k].Served? :: Known(p, log[k].id)
    ensures Total(ServedFrom(id), log) == 0
  {
    if log != [] {
      NeverServed(log[..|log| - 1], p, id);
    }
  }

  // ----- cell moves -----

  /** What a step serves: u units of one cached chunk, or nothing. */
  datatype Serving = Serving(from: Option<Chunk>, units: int)

  predicate ServingOk(n: Node, v: Serving, events: Log) {
    && (v.from.None? ==> v.units == 0)
    && (v.from.Some? ==> v.from.value in Held(n.cell) && 0 <= v.units <= v.from.value.remaining)
    && (forall e | e in events && e.Served? :: v.from.Some? && e.id == v.from.value.leaseID)
    && Total(ServedUnits, events) == v.units
  }

  /** Units of this lease among them. */
  function Share(v: Serving, id: Bytes): int {
    if v.from.Some? && v.from.value.leaseID == id then v.units else 0
  }

  lemma {:induction false} ShareOf(n: Node, v: Serving, events: Log, id: Bytes)
    requires (v.from.None? ==> Total(ServedUnits, events) == 0)
    requires forall e | e in events && e.Served? :: v.from.Some? && e.id == v.from.value.leaseID
    ensures Total(ServedFrom(id), events)
            == if v.from.Some? && v.from.value.leaseID == id then Total(ServedUnits, events) else 0
    ensures 0 <= Total(LeavesOf(id), events)
  {
    if events != [] {
      var front, e := events[..|events| - 1], events[|events| - 1];
      assert e in events;
      ShareOf(n, v, front, id);
    }
  }

  /** The served units a step adds to the totals of its cell's log. */
  lemma ServingTotals(n: Node, v: Serving, events: Log, id: Bytes)
    requires ServingOk(n, v, events)
    ensures Total(ServedUnits, n.log + events) == Total(ServedUnits, n.log) + v.units
    ensures Total(ServedFrom(id), n.log + events) == Total(ServedFrom(id), n.log) + Share(v, id)
    ensures Total(LeavesOf(id), n.log) <= Total(LeavesOf(id), n.log + events)
  {
    ShareOf(n, v, events, id);
    TotalConcat(ServedUnits, n.log, events);
    TotalConcat(ServedFrom(id), n.log, events);
    TotalConcat(LeavesOf(id), n.log, events);
  }

  lemma {:induction false} Unserved(events: Log)
    requires forall e | e in events :: !e.Served?
    ensures Total(ServedUnits, events) == 0
  {
    if events != [] {
      assert events[|events| - 1] in events;
      Unserved(events[..|events| - 1]);
    }
  }

  lemma StepServes(n: Node, act: Act) returns (v: Serving, events: Log)
    requires Core(n) && 0 < n.mono && Enabled(n, act) && Total(Draws, n.log) < TWO64
    ensures Step(n, act).log == n.log + events && ServingOk(n, v, events)
  {
    var n1 := n.(mono := act.now);
    TickKeeps(n, act.now);
    v := Serving(None, 0);
    match act.lab {
      case Spender(t, LockSpend) =>
        v, events := SpendServes(n1, t, act.now);
      case Spender(t, call) =>
        events := [];
      case Refiller(b, call) =>
        events := RefillServesNone(n1, b, call, act.now);
      case Closer(r, call) =>
        events := CloseEvents(n1, r, call);
        ServesNone(n, events);
    }
  }

  lemma ServesNone(n: Node, events: Log)
    requires forall e | e in events :: !e.Served?
    ensures ServingOk(n, Serving(None, 0), events)
  {
    Unserved(events);
  }

  lemma RefillServesNone(n: Node, b: nat, call: RefillCall, now: int64) returns (events: Log)
    requires Core(n) && RefillEnabled(n, b, call) && Total(Draws, n.log) < TWO64
    ensures RefillStep(n, b, call, now).log == n.log + events && ServingOk(n, Serving(None, 0), events)
  {
    assert BodyOk(n.bodies[b], n.cell, n.log, n.mono);
    events := RefillEvents(n, b, call, now);
    ServesNone(n, events);
  }

  lemma SpendServes(n: Node, t: nat, now: int64) returns (v: Serving, events: Log)
    requires Core(n) && SpendEnabled(n, t, LockSpend)
    ensures SpendStep(n, t, LockSpend, now).log == n.log + events && ServingOk(n, v, events)
  {
    var pc := n.spends[t];
    var o := SpendLocked(n.cell, pc.n, now);
    events := SpendEvents(n.cell, o, pc.n, now, pc.late);
    SpendHasShape(n.cell, pc.n, now);
    v := ServingOf(n.cell, o, pc.n, now);
    SpendServing(n, o, pc.n, now, pc.late, v);
  }

  function ServingOf(c: Cell, o: Outcome, units: int64, now: int64): Serving {
    if o.verdict == Success then Serving(Promote(c, now).cur, units) else Serving(None, 0)
  }

  lemma SpendServing(n: Node, o: Outcome, units: int64, now: int64, late: bool, v: Serving)
    requires 0 < units && CellOk(n.cell) && SpendShape(n.cell, units, now, o)
    requires v == ServingOf(n.cell, o, units, now)
    ensures ServingOk(n, v, SpendEvents(n.cell, o, units, now, late))
  {
    var events := SpendEvents(n.cell, o, units, now, late);
    SpendServedUnits(n.cell, o, units, now, late);
    SpendEventKinds(n.cell, o, units, now, late);
    if o.verdict == Success {
      PromotedHeld(n.cell, now);
      ServedKind(events, ServeOf(n.cell, units, now, late), now);
    }
  }

  lemma ServedKind(events: Log, serve: Event, now: int64)
    requires serve.Served? && forall e | e in events :: e.Left? || e == Fenced(now) || e == serve
    ensures forall e | e in events && e.Served? :: e.id == serve.id
  {
  }

  lemma SpendServedUnits(c: Cell, o: Outcome, units: int64, now: int64, late: bool)
    requires 0 < units && CellOk(c) && SpendShape(c, units, now, o)
    ensures Total(ServedUnits, SpendEvents(c, o, units, now, late)) == if o.verdict == Success then units else 0
  {
    if o.verdict == Success {
      SpendEventsAre(c, o, units, now, late);
      DeparturesLeave(c, Promote(c, now), false);
      ServedLast(Departures(c, Promote(c, now), false), ServeOf(c, units, now, late));
    } else {
      SpendEventKinds(c, o, units, now, late);
      Unserved(SpendEvents(c, o, units, now, late));
    }
  }

  lemma ServedLast(left: Log, e: Event)
    requires (forall x | x in left :: x.Left?) && e.Served?
    ensures Total(ServedUnits, left + [e]) == e.n
  {
    Unserved(left);
    AppendedOne(ServedUnits, left, e);
  }

  lemma PromotedHeld(c: Cell, now: int64)
    ensures Promote(c, now).cur.Some? ==> Promote(c, now).cur.value in Held(c)
  {
    var p := Promote(c, now);
    if p.cur.Some? {
      assert p.cur == c.cur || p.cur == c.next;
    }
  }

  lemma CellMoveKeeps(s: System, i: nat, act: Act)
    requires SystemOk(s) && FewDraws(s) && MoveEnabled(s, CellMoves(i, act))
    ensures SystemOk(Moved(s, CellMoves(i, act)))
  {
    var n, n' := s.nodes[i], Step(s.nodes[i], act);
    NodeKeeps(s.nodes, i, act);
    LogFacts(s.nodes, i);
    var v, events := NodeServes(s.nodes, i, act);
    StepHolder(n, act);
    StepBacked(s, i, act, v, events);
    EscrowKept(s, i, n', v, events);
  }

  lemma NodeKeeps(nodes: seq<Node>, i: nat, act: Act)
    requires NodesOk(nodes) && i < |nodes| && Enabled(nodes[i], act) && Total(Draws, nodes[i].log) < TWO64
    ensures NodesOk(nodes[i := Step(nodes[i], act)])
  {
    var _ := StepKeepsInvariant(nodes[i], act);
  }

  lemma NodeServes(nodes: seq<Node>, i: nat, act: Act) returns (v: Serving, events: Log)
    requires NodesOk(nodes) && i < |nodes| && Enabled(nodes[i], act) && Total(Draws, nodes[i].log) < TWO64
    ensures Step(nodes[i], act).log == nodes[i].log + events && ServingOk(nodes[i], v, events)
  {
    assert Invariant(nodes[i]);
    v, events := StepServes(nodes[i], act);
  }

  /** What a cell move serves shows in its cell's total and in one lease's, and keeps every lease covered. */
  lemma EscrowKept(s: System, i: nat, n': Node, v: Serving, events: Log)
    requires Escrowed(s) && i < |s.nodes| && n'.cell.holder == s.nodes[i].cell.holder
    requires n'.log == s.nodes[i].log + events && ServingOk(s.nodes[i], v, events) && Backed(n', s.pool)
    requires v.from.Some? ==> HeldOk(v.from.value, s.nodes[i].log) && ChunkOk(v.from.value, s.nodes[i].cell)
    ensures Escrowed(s.(nodes := s.nodes[i := n']))
  {
    MoveKeepsLeases(s, i, n', v, events);
    MoveKeepsSums(s, i, n', v, events);
    MoveKeepsCells(s, i, n');
  }

  lemma MoveKeepsCells(s: System, i: nat, n': Node)
    requires CellsBacked(s.nodes, s.pool) && Distinct(s.nodes)
    requires i < |s.nodes| && n'.cell.holder == s.nodes[i].cell.holder && Backed(n', s.pool)
    ensures var nodes' := s.nodes[i := n'];
            CellsBacked(nodes', s.pool) && Distinct(nodes')
  {
    var nodes' := s.nodes[i := n'];
    forall x | 0 <= x < |nodes'|
      ensures Backed(nodes'[x], s.pool)
    {
      assert x != i ==> nodes'[x] == s.nodes[x];
    }
    assert forall x | 0 <= x < |nodes'| :: nodes'[x].cell.holder == s.nodes[x].cell.holder;
  }

  // ----- backing -----

  predicate SameLease(ch: Option<Chunk>, c: Cell) {
    ch.Some? ==>
      || (c.cur.Some? && ch.value.leaseID == c.cur.value.leaseID && ch.value.amount == c.cur.value.amount)
      || (c.next.Some? && ch.value.leaseID == c.next.value.leaseID && ch.value.amount == c.next.value.amount)
  }

  predicate StillBacked(c: Cell, p: Pool) {
    && (c.cur.Some? ==> Leased(p, c.cur.value.leaseID, c.cur.value.amount))
    && (c.next.Some? ==> Leased(p, c.next.value.leaseID, c.next.value.amount))
  }

  lemma SpendStepBacked(n: Node, t: nat, call: SpendCall, now: int64, p: Pool)
    requires StillBacked(n.cell, p) && SpendEnabled(n, t, call)
    ensures StillBacked(SpendStep(n, t, call, now).cell, p)
  {
    if call.LockSpend? {
      var o := SpendLocked(n.cell, n.spends[t].n, now);
      SpendHasShape(n.cell, n.spends[t].n, now);
      assert SameLease(o.cell.cur, n.cell) && SameLease(o.cell.next, n.cell);
    }
  }

  lemma RefillStepBacked(n: Node, b: nat, call: RefillCall, now: int64, p: Pool)
    requires StillBacked(n.cell, p) && RefillEnabled(n, b, call)
    requires n.bodies[b].Accepted? ==>
               Leased(p, MakeLeaseID(n.cell.holder, n.bodies[b].nonce), n.bodies[b].grant.granted)
    ensures StillBacked(RefillStep(n, b, call, now).cell, p)
  {
  }

  /** A body is past the gate only with a grant the pool replied. */
  lemma AcceptedBacked(s: System, i: nat, act: Act)
    requires i < |s.nodes| && Enabled(s.nodes[i], act) && Answered(s, i, act)
    requires Flight(s.nodes[i]) && Backed(s.nodes[i], s.pool)
    requires RepliesBacked(s.replies, s.pool)
    ensures var n' := Step(s.nodes[i], act);
            forall b | b in n'.bodies && n'.bodies[b].Accepted? ::
              Leased(s.pool, MakeLeaseID(n'.cell.holder, n'.bodies[b].nonce), n'.bodies[b].grant.granted)
  {
    var n, n' := s.nodes[i], Step(s.nodes[i], act);
    forall b | b in n'.bodies && n'.bodies[b].Accepted?
      ensures Leased(s.pool, MakeLeaseID(n'.cell.holder, n'.bodies[b].nonce), n'.bodies[b].grant.granted)
    {
      StepHolder(n, act);
      AcceptedFrom(n, act, b);
      if !(b in n.bodies && n.bodies[b] == n'.bodies[b]) {
        assert GrantReply(MakeLeaseID(n.cell.holder, n.bodies[b].nonce), n'.bodies[b].grant) in s.replies;
      }
    }
  }

  lemma StepHolder(n: Node, act: Act)
    requires Enabled(n, act)
    ensures Step(n, act).cell.holder == n.cell.holder
  {
    if act.lab.Spender? && act.lab.spend.LockSpend? {
      SpendHasShape(n.cell, n.spends[act.lab.t].n, act.now);
    }
  }

  /** A body past the gate either was there before, or just took its draw's reply. */
  lemma AcceptedFrom(n: Node, act: Act, b: nat)
    requires Enabled(n, act) && b in Step(n, act).bodies && Step(n, act).bodies[b].Accepted?
    ensures var pc := Step(n, act).bodies[b];
            || (b in n.bodies && n.bodies[b] == pc)
            || (&& act.lab.Refiller? && act.lab.b == b && act.lab.refill.DrawReply? && n.bodies[b].Drawing?
                && act.lab.refill.outcome == Granted(pc.grant) && 0 < pc.grant.granted && pc.nonce == n.bodies[b].nonce)
  {
    var n1 := n.(mono := act.now);
    match act.lab
    case Spender(t, call) => SpendKeepsAccepted(n1, t, call, act.now, b);
    case Refiller(b', call) => RefillAccepts(n1, b', call, act.now, b);
    case Closer(r, call) =>
  }

  lemma RefillAccepts(n: Node, b': nat, call: RefillCall, now: int64, b: nat)
    requires RefillEnabled(n, b', call) && b in RefillStep(n, b', call, now).bodies
    requires RefillStep(n, b', call, now).bodies[b].Accepted?
    ensures var pc := RefillStep(n, b', call, now).bodies[b];
            || (b in n.bodies && n.bodies[b] == pc)
            || (&& b' == b && call.DrawReply? && n.bodies[b].Drawing?
                && call.outcome == Granted(pc.grant) && 0 < pc.grant.granted && pc.nonce == n.bodies[b].nonce)
  {
  }

  lemma SpendKeepsAccepted(n: Node, t: nat, call: SpendCall, now: int64, b: nat)
    requires SpendEnabled(n, t, call) && b in SpendStep(n, t, call, now).bodies
             && !SpendStep(n, t, call, now).bodies[b].Starting?
    ensures b in n.bodies && n.bodies[b] == SpendStep(n, t, call, now).bodies[b]
  {
  }

  lemma StepBacked(s: System, i: nat, act: Act, v: Serving, events: Log)
    requires Escrowed(s) && MoveEnabled(s, CellMoves(i, act)) && Flight(s.nodes[i])
    requires Step(s.nodes[i], act).log == s.nodes[i].log + events && ServingOk(s.nodes[i], v, events)
    ensures Backed(Step(s.nodes[i], act), s.pool)
  {
    var n, n' := s.nodes[i], Step(s.nodes[i], act);
    assert Backed(n, s.pool);
    AcceptedBacked(s, i, act);
    CacheBacked(n, act, s.pool);
    NamedBacked(s, i, act, v, events);
    ClosersBacked(n, act, s.pool);
    HeldBacked(n'.cell, s.pool);
  }

  lemma HeldBacked(c: Cell, p: Pool)
    requires StillBacked(c, p)
    ensures forall ch | ch in Held(c) :: Leased(p, ch.leaseID, ch.amount)
  {
    assert forall ch | ch in Held(c) :: c.cur == Some(ch) || c.next == Some(ch);
  }

  lemma CacheBacked(n: Node, act: Act, p: Pool)
    requires Backed(n, p) && Enabled(n, act)
    ensures StillBacked(Step(n, act).cell, p)
  {
    var n1 := n.(mono := act.now);
    assert n.cell.cur.Some? ==> n.cell.cur.value in Held(n.cell);
    assert n.cell.next.Some? ==> n.cell.next.value in Held(n.cell);
    match act.lab
    case Spender(t, call) => SpendStepBacked(n1, t, call, act.now, p);
    case Refiller(b, call) => RefillStepBacked(n1, b, call, act.now, p);
    case Closer(r, call) =>
  }

  lemma NamedBacked(s: System, i: nat, act: Act, v: Serving, events: Log)
    requires i < |s.nodes| && Backed(s.nodes[i], s.pool) && Enabled(s.nodes[i], act)
    requires Step(s.nodes[i], act).log == s.nodes[i].log + events && ServingOk(s.nodes[i], v, events)
    ensures var n' := Step(s.nodes[i], act);
            forall k | 0 <= k < |n'.log| && NamesLease(n'.log[k]) :: Known(s.pool, n'.log[k].id)
  {
    var n, n' := s.nodes[i], Step(s.nodes[i], act);
    forall k | 0 <= k < |n'.log| && NamesLease(n'.log[k])
      ensures Known(s.pool, n'.log[k].id)
    {
      if k < |n.log| {
        assert n'.log[k] == n.log[k];
      } else if n'.log[k].Served? {
        assert n'.log[k] in events;
        assert Leased(s.pool, v.from.value.leaseID, v.from.value.amount);
      } else {
        FoldNames(n, act, k);
        if n'.log[k].Attested? {
          assert n.cell.cur.value in Held(n.cell);
        }
      }
    }
  }

  /** A report names the current chunk, a settlement the next chunk a Return still owes. */
  lemma FoldNames(n: Node, act: Act, k: nat)
    requires Enabled(n, act) && |n.log| <= k < |Step(n, act).log|
    ensures var e := Step(n, act).log[k];
            && (e.Attested? ==> n.cell.cur.Some? && e.id == n.cell.cur.value.leaseID)
            && (e.Settled? ==> act.lab.Closer? && n.closers[act.lab.r].chunks != []
                               && e.id == n.closers[act.lab.r].chunks[0].leaseID)
  {
    var n1 := n.(mono := act.now);
    match act.lab
    case Spender(t, call) => SpendNamesNone(n1, t, call, act.now, k);
    case Refiller(b, call) => RefillNames(n1, b, call, act.now, k);
    case Closer(r, call) =>
  }

  lemma SpendNamesNone(n: Node, t: nat, call: SpendCall, now: int64, k: nat)
    requires SpendEnabled(n, t, call) && |n.log| <= k < |SpendStep(n, t, call, now).log|
    ensures var e := SpendStep(n, t, call, now).log[k]; !e.Attested? && !e.Settled?
  {
    var pc := n.spends[t];
    var o := SpendLocked(n.cell, pc.n, now);
    SpendHasShape(n.cell, pc.n, now);
    SpendEventKinds(n.cell, o, pc.n, now, pc.late);
    assert SpendStep(n, t, call, now).log[k] in SpendEvents(n.cell, o, pc.n, now, pc.late);
  }

  lemma RefillNames(n: Node, b: nat, call: RefillCall, now: int64, k: nat)
    requires RefillEnabled(n, b, call) && |n.log| <= k < |RefillStep(n, b, call, now).log|
    ensures var e := RefillStep(n, b, call, now).log[k];
            !e.Settled? && (e.Attested? ==> n.cell.cur.Some? && e.id == n.cell.cur.value.leaseID)
  {
    if call.LockInstall? {
      var drawn := FreshChunk(n.cell.holder, n.bodies[b].nonce, n.bodies[b].grant, now);
      DeparturesLeave(n.cell.(next := Some(drawn)), RefillStep(n, b, call, now).cell, false);
      if k > |n.log| {
        assert RefillStep(n, b, call, now).log[k]
               in Departures(n.cell.(next := Some(drawn)), RefillStep(n, b, call, now).cell, false);
      }
    }
  }

  lemma DeparturesLeave(before: Cell, after: Cell, handed: bool)
    ensures forall e | e in Departures(before, after, handed) :: e.Left?
  {
  }

  lemma ClosersBacked(n: Node, act: Act, p: Pool)
    requires Backed(n, p) && Enabled(n, act)
    ensures var q := Step(n, act).closers;
            forall r, k | r in q && q[r].Settling? && 0 <= k < |q[r].chunks| :: Known(p, q[r].chunks[k].leaseID)
  {
    var q := Step(n, act).closers;
    forall r, k | r in q && q[r].Settling? && 0 <= k < |q[r].chunks|
      ensures Known(p, q[r].chunks[k].leaseID)
    {
      var from := ClosersFrom(n, act, r, k);
      OriginKnown(n, q[r].chunks[k], r, from, p);
    }
  }

  lemma OriginKnown(n: Node, ch: Chunk, r: nat, from: Origin, p: Pool)
    requires Backed(n, p)
    requires match from
             case Cache => ch in Held(n.cell)
             case Owing(i) =>
               && r in n.closers && n.closers[r].Settling? && i < |n.closers[r].chunks|
               && n.closers[r].chunks[i] == ch
    ensures Known(p, ch.leaseID)
  {
    if from.Cache? {
      assert Leased(p, ch.leaseID, ch.amount);
    }
  }

  datatype Origin = Cache | Owing(k: nat)

  /** A chunk a Return owes was owed before, or has just been taken from the cache. */
  lemma ClosersFrom(n: Node, act: Act, r: nat, k: nat) returns (from: Origin)
    requires Enabled(n, act)
    requires var q := Step(n, act).closers; r in q && q[r].Settling? && k < |q[r].chunks|
    ensures var ch := Step(n, act).closers[r].chunks[k];
            match from
            case Cache => ch in Held(n.cell)
            case Owing(i) =>
              && r in n.closers && n.closers[r].Settling? && i < |n.closers[r].chunks|
              && n.closers[r].chunks[i] == ch
  {
    if act.lab.Closer? && act.lab.r == r && act.lab.close.LockTake? {
      from := Cache;
    } else if act.lab.Closer? && act.lab.r == r && act.lab.close.SendReturn? {
      from := Owing(k + 1);
    } else {
      from := Owing(k);
      ClosersUntouched(n, act, r);
    }
  }

  lemma ClosersUntouched(n: Node, act: Act, r: nat)
    requires Enabled(n, act) && r in Step(n, act).closers && Step(n, act).closers[r].Settling?
    requires act.lab.Closer? && act.lab.r == r ==> !act.lab.close.LockTake? && !act.lab.close.SendReturn?
    ensures r in n.closers && n.closers[r] == Step(n, act).closers[r]
  {
  }

  // ----- leases and sums -----

  /** The lease behind a cached chunk: granted to this cell, of the chunk's amount. */
  lemma LeaseBehind(s: System, i: nat, ch: Chunk, j: nat)
    requires Escrowed(s) && i < |s.nodes| && ch in Held(s.nodes[i].cell) && ChunkOk(ch, s.nodes[i].cell)
    requires j < |s.pool.leases| && s.pool.leases[j].id == ch.leaseID
    ensures s.pool.leases[j].grantee == i && s.pool.leases[j].amount == ch.amount
  {
    assert Backed(s.nodes[i], s.pool) && LeaseOk(s.nodes, s.pool.leases[j]);
    SameGrantee(s.nodes, i, s.pool.leases[j]);
    assert Leased(s.pool, ch.leaseID, ch.amount);
    SameAmount(s.pool, ch.leaseID, ch.amount, j);
  }

  lemma SameAmount(p: Pool, id: Bytes, amount: int, j: nat)
    requires PoolOk(p) && Leased(p, id, amount) && j < |p.leases| && p.leases[j].id == id
    ensures p.leases[j].amount == amount
  {
    var k :| 0 <= k < |p.leases| && p.leases[k].id == id && p.leases[k].amount == amount;
    assert k == j;
  }

  lemma MoveKeepsLeases(s: System, i: nat, n': Node, v: Serving, events: Log)
    requires Escrowed(s) && i < |s.nodes| && n'.cell.holder == s.nodes[i].cell.holder
    requires n'.log == s.nodes[i].log + events && ServingOk(s.nodes[i], v, events)
    requires v.from.Some? ==> HeldOk(v.from.value, s.nodes[i].log) && ChunkOk(v.from.value, s.nodes[i].cell)
    ensures LeasesOk(s.nodes[i := n'], s.pool.leases)
  {
    forall j | 0 <= j < |s.pool.leases|
      ensures LeaseOk(s.nodes[i := n'], s.pool.leases[j])
    {
      if v.from.Some? && v.from.value.leaseID == s.pool.leases[j].id {
        LeaseBehind(s, i, v.from.value, j);
      }
      MoveKeepsLease(s.nodes, i, n', v, events, s.pool.leases[j]);
    }
  }

  lemma MoveKeepsLease(nodes: seq<Node>, i: nat, n': Node, v: Serving, events: Log, l: Lease)
    requires i < |nodes| && n'.cell.holder == nodes[i].cell.holder && LeaseOk(nodes, l)
    requires n'.log == nodes[i].log + events && ServingOk(nodes[i], v, events)
    requires v.from.Some? && v.from.value.leaseID == l.id ==>
               && HeldOk(v.from.value, nodes[i].log) && ChunkOk(v.from.value, nodes[i].cell)
               && l.amount == v.from.value.amount
    ensures LeaseOk(nodes[i := n'], l)
  {
    if l.grantee == i {
      ServingTotals(nodes[i], v, events, l.id);
    }
  }

  lemma MoveKeepsSums(s: System, i: nat, n': Node, v: Serving, events: Log)
    requires Escrowed(s) && i < |s.nodes|
    requires n'.log == s.nodes[i].log + events && ServingOk(s.nodes[i], v, events)
    requires v.from.Some? ==> ChunkOk(v.from.value, s.nodes[i].cell)
    ensures Sum(Serves(s.nodes[i := n'])) == Sum(LeaseServes(s.nodes[i := n'], s.pool.leases))
  {
    ServingCell(s.nodes, i, n', v, events);
    if v.from.None? {
      NothingServedByLeases(s.nodes, i, n', v, events, s.pool.leases);
    } else {
      var j := LeaseIndex(s, i, v.from.value);
      ServingLease(s.nodes, i, n', v, events, s.pool.leases, j);
    }
  }

  lemma LeaseIndex(s: System, i: nat, ch: Chunk) returns (j: nat)
    requires Escrowed(s) && i < |s.nodes| && ch in Held(s.nodes[i].cell) && ChunkOk(ch, s.nodes[i].cell)
    ensures j < |s.pool.leases| && s.pool.leases[j].id == ch.leaseID && s.pool.leases[j].grantee == i
  {
    assert Backed(s.nodes[i], s.pool) && Leased(s.pool, ch.leaseID, ch.amount);
    j :| 0 <= j < |s.pool.leases| && s.pool.leases[j].id == ch.leaseID && s.pool.leases[j].amount == ch.amount;
    LeaseBehind(s, i, ch, j);
  }

  lemma NothingServedByLeases(nodes: seq<Node>, i: nat, n': Node, v: Serving, events: Log, leases: seq<Lease>)
    requires i < |nodes| && n'.log == nodes[i].log + events && ServingOk(nodes[i], v, events) && v.from.None?
    ensures LeaseServes(nodes[i := n'], leases) == LeaseServes(nodes, leases)
  {
    forall j | 0 <= j < |leases|
      ensures ServedOf(nodes[i := n'], leases[j]) == ServedOf(nodes, leases[j])
    {
      ServingTotals(nodes[i], v, events, leases[j].id);
    }
  }

  lemma ServingCell(nodes: seq<Node>, i: nat, n': Node, v: Serving, events: Log)
    requires i < |nodes| && n'.log == nodes[i].log + events && ServingOk(nodes[i], v, events)
    ensures Sum(Serves(nodes[i := n'])) == Sum(Serves(nodes)) + v.units
  {
    ServingTotals(nodes[i], v, events, []);
    var before := Serves(nodes);
    assert Serves(nodes[i := n']) == before[i := before[i] + v.units];
    SumUpdate(before, i, before[i] + v.units);
  }

  /** The one lease with the served id takes all the units. */
  lemma ServingLease(nodes: seq<Node>, i: nat, n': Node, v: Serving, events: Log, leases: seq<Lease>, j: nat)
    requires i < |nodes| && n'.log == nodes[i].log + events && ServingOk(nodes[i], v, events)
    requires v.from.Some? && j < |leases| && leases[j].id == v.from.value.leaseID && leases[j].grantee == i
    requires forall x, y | 0 <= x < y < |leases| :: leases[x].id != leases[y].id
    ensures Sum(LeaseServes(nodes[i := n'], leases)) == Sum(LeaseServes(nodes, leases)) + v.units
  {
    var nodes' := nodes[i := n'];
    var before, after := LeaseServes(nodes, leases), LeaseServes(nodes', leases);
    forall k | 0 <= k < |leases|
      ensures after[k] == before[j := before[j] + v.units][k]
    {
      ServingTotals(nodes[i], v, events, leases[k].id);
      assert k != j ==> leases[k].id != leases[j].id;
    }
    assert after == before[j := before[j] + v.units];
    SumUpdate(before, j, before[j] + v.units);
  }
}
