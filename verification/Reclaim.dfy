/** The grantor reclaims late: a timed lease expired by force after its grace is not served from any more, under every
    interleaving of its cell and whatever requests and replies are still on their way. */
module Reclaim {
  import opened Int64
  import opened Encoding
  import opened Options
  import opened LeaseCell
  import opened CellProtocol
  import opened CellLedger
  import opened CellInvariant
  import opened CellSteps
  import opened CellTiming
  import opened CellTheorems
  import opened EscrowPool
  import opened Escrow
  import opened StopEarly

  /** The leader's clock as each cell's monotonic instants see it. */
  type Clocks = nat -> Clock

  /** A move and the leader time it happens at. */
  datatype Stamped = Stamped(move: Move, at: int)

  predicate OnTime(m: Stamped, clocks: Clocks) {
    m.move.CellMoves? ==> m.at == clocks(m.move.i)(m.move.act.now)
  }

  /** A run in which every cell move is stamped by its cell's clock. */
  function StampedRun(s: System, moves: seq<Stamped>, clocks: Clocks): Option<System> {
    if moves == [] then Some(s)
    else
      var before, m := StampedRun(s, moves[..|moves| - 1], clocks), moves[|moves| - 1];
      if before.Some? && MoveEnabled(before.value, m.move) && OnTime(m, clocks)
      then Some(Moved(before.value, m.move)) else None
  }

  /** Every reply about the lease carries a timed grant whose grace is over. */
  predicate GraceOver(replies: set<GrantReply>, id: Bytes, at: int, slack: Slack) {
    forall r | r in replies && r.id == id && 0 < r.grant.granted :: 0 < r.grant.ttlMs && Grace(r.grant, slack) <= at
  }

  /** Every timed install so far kept within the slack. */
  predicate AllTimed(nodes: seq<Node>, clocks: Clocks, slack: Slack) {
    forall i, k | 0 <= i < |nodes| && 0 <= k < |nodes[i].log|
      && nodes[i].log[k].Installed? && 0 < nodes[i].log[k].grant.ttlMs ::
      WellTimed(nodes[i].log[k], clocks(i), slack)
  }

  // ----- the theorem -----

  /** Once the grace of a timed lease is over and it is expired by force, no later move serves a unit of it. */
  lemma ReclaimsLate(s: System, j: nat, at: int, moves: seq<Stamped>, clocks: Clocks, slack: Slack)
    requires SystemLived(s) && j < |s.pool.leases| && GraceOver(s.replies, s.pool.leases[j].id, at, slack)
    requires forall i :: KeepsUp(clocks(i), slack)
    requires forall k | 0 <= k < |moves| :: at <= moves[k].at
    requires var s' := StampedRun(Moved(s, ForceExpiry(j)), moves, clocks);
             s'.Some? && FewDraws(s'.value) && AllTimed(s'.value.nodes, clocks, slack)
    ensures var s' := StampedRun(Moved(s, ForceExpiry(j)), moves, clocks).value;
            && j < |s'.pool.leases| && s'.pool.leases[j].id == s.pool.leases[j].id
            && ServedOf(s'.nodes, s'.pool.leases[j]) == ServedOf(s.nodes, s.pool.leases[j])
  {
    SystemHolds(s);
    LivedSourced(s);
    var s1 := Moved(s, ForceExpiry(j));
    MoveKeeps(s, ForceExpiry(j));
    assert Reclaimed(s.replies, s.pool.leases[j], s1, j);
    ReclaimedRun(s1, s.replies, s.pool.leases[j], j, at, moves, clocks, slack);
    assert ServedOf(s1.nodes, s.pool.leases[j]) == ServedOf(s.nodes, s.pool.leases[j]);
  }

  // ----- where grants come from -----

  /** A grant past the gate or installed is one the pool replied under its lease id. */
  predicate Sourced(n: Node, replies: set<GrantReply>) {
    && (forall b | b in n.bodies && n.bodies[b].Accepted? ::
          GrantReply(MakeLeaseID(n.cell.holder, n.bodies[b].nonce), n.bodies[b].grant) in replies)
    && (forall k | 0 <= k < |n.log| && n.log[k].Installed? ::
       GrantReply(n.log[k].chunk.leaseID, n.log[k].grant) in replies)
  }

  predicate AllSourced(s: System) {
    forall i | 0 <= i < |s.nodes| :: Sourced(s.nodes[i], s.replies)
  }

  lemma LivedSourced(s: System)
    requires SystemLived(s)
    ensures AllSourced(s)
  {
    var s0: System, moves: seq<Move> :| SystemInit(s0) && SystemRun(s0, moves) == Some(s);
    RunSourced(s0, moves);
  }

  lemma {:induction false} RunSourced(s0: System, moves: seq<Move>)
    requires SystemInit(s0) && SystemRun(s0, moves).Some?
    ensures AllSourced(SystemRun(s0, moves).value)
  {
    if moves == [] {
      assert forall i | 0 <= i < |s0.nodes| :: Init(s0.nodes[i]);
    } else {
      RunSourced(s0, moves[..|moves| - 1]);
      MoveSourced(SystemRun(s0, moves[..|moves| - 1]).value, moves[|moves| - 1]);
    }
  }

  lemma MoveSourced(s: System, m: Move)
    requires AllSourced(s) && MoveEnabled(s, m)
    ensures AllSourced(Moved(s, m))
  {
    var s' := Moved(s, m);
    forall i | 0 <= i < |s'.nodes|
      ensures Sourced(s'.nodes[i], s'.replies)
    {
      assert Sourced(s.nodes[i], s.replies);
      if m.CellMoves? && m.i == i {
        StepSourced(s, i, m.act);
      } else {
        assert s'.nodes[i] == s.nodes[i] && s.replies <= s'.replies;
      }
    }
  }

  lemma StepSourced(s: System, i: nat, act: Act)
    requires i < |s.nodes| && Sourced(s.nodes[i], s.replies) && Enabled(s.nodes[i], act) && Answered(s, i, act)
    ensures Sourced(Step(s.nodes[i], act), s.replies)
  {
    var n, n' := s.nodes[i], Step(s.nodes[i], act);
    StepHolder(n, act);
    forall b | b in n'.bodies && n'.bodies[b].Accepted?
      ensures GrantReply(MakeLeaseID(n'.cell.holder, n'.bodies[b].nonce), n'.bodies[b].grant) in s.replies
    {
      AcceptedFrom(n, act, b);
    }
    LogExtends(n, act);
    forall k | 0 <= k < |n'.log| && n'.log[k].Installed?
      ensures GrantReply(n'.log[k].chunk.leaseID, n'.log[k].grant) in s.replies
    {
      if k < |n.log| {
        assert n'.log[k] == n.log[k];
      } else {
        InstalledFrom(n, act, k);
      }
    }
  }

  lemma LogExtends(n: Node, act: Act)
    requires Enabled(n, act)
    ensures |n.log| <= |Step(n, act).log| && Step(n, act).log[..|n.log|] == n.log
  {
    var n1 := n.(mono := act.now);
    match act.lab
    case Spender(t, call) =>
    case Refiller(b, call) =>
      RefillExtends(n1, b, call, act.now);
    case Closer(r, call) =>
      var events := CloseEvents(n1, r, call);
  }

  lemma RefillExtends(n: Node, b: nat, call: RefillCall, now: int64)
    requires RefillEnabled(n, b, call)
    ensures var log' := RefillStep(n, b, call, now).log; |n.log| <= |log'| && log'[..|n.log|] == n.log
  {
    if !call.LockInstall? {
      var events := PaperEvents(n, b, call, now);
    }
  }

  /** A new install is that of a body past the gate, a new serve happens at the step's instant. */
  lemma InstalledFrom(n: Node, act: Act, k: nat)
    requires Enabled(n, act) && |n.log| <= k < |Step(n, act).log|
    ensures var e := Step(n, act).log[k];
            && (e.Installed? ==>
                  && act.lab.Refiller? && act.lab.b in n.bodies && n.bodies[act.lab.b].Accepted?
                  && e.chunk.leaseID == MakeLeaseID(n.cell.holder, n.bodies[act.lab.b].nonce)
                  && e.grant == n.bodies[act.lab.b].grant)
            && (e.Served? ==> e.now == act.now)
  {
    var n1, s' := n.(mono := act.now), Step(n, act);
    match act.lab {
      case Spender(t, call) =>
        SpendNow(n1, t, call, act.now, k);
      case Refiller(b, call) =>
        RefillInstall(n1, b, call, act.now, k);
      case Closer(r, call) =>
        var events := CloseEvents(n1, r, call);
        assert s'.log[k] in events;
    }
  }

  lemma SpendNow(n: Node, t: nat, call: SpendCall, now: int64, k: nat)
    requires SpendEnabled(n, t, call) && |n.log| <= k < |SpendStep(n, t, call, now).log|
    ensures var e := SpendStep(n, t, call, now).log[k]; !e.Installed? && (e.Served? ==> e.now == now)
  {
    var pc := n.spends[t];
    var o := SpendLocked(n.cell, pc.n, now);
    SpendHasShape(n.cell, pc.n, now);
    SpendEventKinds(n.cell, o, pc.n, now, pc.late);
    assert SpendStep(n, t, call, now).log[k] in SpendEvents(n.cell, o, pc.n, now, pc.late);
  }

  lemma RefillInstall(n: Node, b: nat, call: RefillCall, now: int64, k: nat)
    requires RefillEnabled(n, b, call) && |n.log| <= k < |RefillStep(n, b, call, now).log|
    ensures var e := RefillStep(n, b, call, now).log[k];
            && !e.Served?
            && (e.Installed? ==>
                  && n.bodies[b].Accepted? && e.grant == n.bodies[b].grant
                  && e.chunk.leaseID == MakeLeaseID(n.cell.holder, n.bodies[b].nonce))
  {
    if call.LockInstall? {
      var drawn := FreshChunk(n.cell.holder, n.bodies[b].nonce, n.bodies[b].grant, now);
      var left := Departures(n.cell.(next := Some(drawn)), RefillStep(n, b, call, now).cell, false);
      DeparturesLeave(n.cell.(next := Some(drawn)), RefillStep(n, b, call, now).cell, false);
      if k > |n.log| {
        assert RefillStep(n, b, call, now).log[k] in left;
      }
    }
  }

  // ----- after the expiry -----

  /** The j-th lease is the settled l, every reply about it was made before, and its cell has served no more of it. */
  predicate Reclaimed(replies: set<GrantReply>, l: Lease, s: System, j: nat) {
    && j < |s.pool.leases| && !s.pool.leases[j].live
    && s.pool.leases[j].id == l.id && s.pool.leases[j].grantee == l.grantee
    && forall r | r in s.replies && r.id == l.id :: r in replies
  }

  lemma {:induction false} ReclaimedRun(s: System, replies: set<GrantReply>, l: Lease, j: nat, at: int,
                                        moves: seq<Stamped>, clocks: Clocks, slack: Slack)
    requires SystemOk(s) && AllSourced(s) && Reclaimed(replies, l, s, j) && GraceOver(replies, l.id, at, slack)
    requires (forall i :: KeepsUp(clocks(i), slack)) && forall k | 0 <= k < |moves| :: at <= moves[k].at
    requires var s' := StampedRun(s, moves, clocks);
             s'.Some? && FewDraws(s'.value) && AllTimed(s'.value.nodes, clocks, slack)
    ensures var s' := StampedRun(s, moves, clocks).value;
            SystemOk(s') && AllSourced(s') && Reclaimed(replies, l, s', j)
                && ServedOf(s'.nodes, l) == ServedOf(s.nodes, l)
  {
    if moves != [] {
      var before, m := moves[..|moves| - 1], moves[|moves| - 1];
      var s1 := StampedRun(s, before, clocks).value;
      DrawsBefore(s1, m.move);
      TimedBefore(s1, m.move, clocks, slack);
      ReclaimedRun(s, replies, l, j, at, before, clocks, slack);
      MoveKeeps(s1, m.move);
      MoveSourced(s1, m.move);
      ReclaimedMove(s1, replies, l, j, m.move);
      if m.move.CellMoves? {
        ServesNoMore(s1, replies, l, at, m.move.i, m.move.act, clocks(m.move.i), slack);
      }
    }
  }

  lemma TimedBefore(s: System, m: Move, clocks: Clocks, slack: Slack)
    requires MoveEnabled(s, m) && AllTimed(Moved(s, m).nodes, clocks, slack)
    ensures AllTimed(s.nodes, clocks, slack)
  {
    var nodes' := Moved(s, m).nodes;
    forall i, k | 0 <= i < |s.nodes| && 0 <= k < |s.nodes[i].log| && s.nodes[i].log[k].Installed?
      && 0 < s.nodes[i].log[k].grant.ttlMs
      ensures WellTimed(s.nodes[i].log[k], clocks(i), slack)
    {
      if m.CellMoves? && m.i == i {
        LogExtends(s.nodes[i], m.act);
      }
      assert nodes'[i].log[k] == s.nodes[i].log[k];
    }
  }

  lemma ReclaimedMove(s: System, replies: set<GrantReply>, l: Lease, j: nat, m: Move)
    requires PoolOk(s.pool) && Reclaimed(replies, l, s, j) && MoveEnabled(s, m)
    ensures Reclaimed(replies, l, Moved(s, m), j)
  {
    match m
    case ServeGrant(i, k, echo) =>
      assert Known(s.pool, l.id);
    case ServeRegrant(i, k, j', echo) =>
      assert j' != j && s.pool.leases[j'].id != l.id;
    case ServeReport(i, k, j') =>
      OthersStay(s.pool, j', j, s.nodes[i].log[k].spent);
    case ServeReturn(i, k, j') =>
      OthersStay(s.pool, j', j, s.nodes[i].log[k].spent);
    case ForceExpiry(j') =>
      OthersStay(s.pool, j', j, 0);
    case CellMoves(i, act) =>
  }

  /** An operation on some row leaves a settled row as it is. */
  lemma OthersStay(p: Pool, j': nat, j: nat, c: int)
    requires j' < |p.leases| && j < |p.leases| && !p.leases[j].live
    ensures forall p' | p' in {Report(p, j', c), Return(p, j', c), Expire(p, j')} ::
              j < |p'.leases| && p'.leases[j] == p.leases[j]
  {
  }

  /** A move that served a settled lease would have been before its grace was over. */
  lemma ServesNoMore(s: System, replies: set<GrantReply>, l: Lease, at: int, i: nat, act: Act, clock: Clock,
      slack: Slack)
    requires NodesOk(s.nodes) && FewDraws(s) && i < |s.nodes| && Enabled(s.nodes[i], act) && at <= clock(act.now)
    requires (forall r | r in s.replies && r.id == l.id :: r in replies) && GraceOver(replies, l.id, at, slack)
    requires Sourced(s.nodes[i], s.replies) && KeepsUp(clock, slack)
    requires forall k | 0 <= k < |s.nodes[i].log| && s.nodes[i].log[k].Installed?
             && 0 < s.nodes[i].log[k].grant.ttlMs ::
               WellTimed(s.nodes[i].log[k], clock, slack)
    ensures ServedOf(s.nodes[i := Step(s.nodes[i], act)], l) == ServedOf(s.nodes, l)
  {
    if l.grantee == i {
      var v, events := NodeServes(s.nodes, i, act);
      ServingTotals(s.nodes[i], v, events, l.id);
      if Share(v, l.id) != 0 {
        LogFacts(s.nodes, i);
        StepTimes(s.nodes, i, act);
        ServeRefuted(s.nodes[i], act, v, events, s.replies, replies, l.id, at, clock, slack);
      }
    }
  }

  lemma StepTimes(nodes: seq<Node>, i: nat, act: Act)
    requires NodesOk(nodes) && i < |nodes| && Enabled(nodes[i], act) && Total(Draws, nodes[i].log) < TWO64
    ensures Times(Step(nodes[i], act).log, act.now) && Times(nodes[i].log, nodes[i].mono)
  {
    var _ := StepKeepsInvariant(nodes[i], act);
    TimesOf(nodes[i]);
    TimesOf(Step(nodes[i], act));
  }

  lemma ServeRefuted(n: Node, act: Act, v: Serving, events: Log, made: set<GrantReply>, replies: set<GrantReply>,
                     id: Bytes, at: int, clock: Clock, slack: Slack)
    requires Enabled(n, act) && Step(n, act).log == n.log + events && ServingOk(n, v, events) && Share(v, id) != 0
    requires HeldOk(v.from.value, n.log) && 0 < v.from.value.amount
    requires Times(n.log + events, act.now) && Times(n.log, n.mono) && KeepsUp(clock, slack)
    requires Sourced(n, made) && (forall r | r in made && r.id == id :: r in replies)
             && GraceOver(replies, id, at, slack)
    requires forall k | 0 <= k < |n.log| && n.log[k].Installed? && 0 < n.log[k].grant.ttlMs ::
             WellTimed(n.log[k], clock, slack)
    ensures clock(act.now) < at
  {
    var k := InstallOf(n.log, v.from.value);
    var e := ServedAmong(events);
    assert events[e] in events && GateOk(n.log[k]);
    assert GrantReply(id, n.log[k].grant) in replies;
    ServedNow(n, act, events, e);
    TooLate(n.log, events, act.now, k, e, clock, slack, at);
  }

  lemma ServedNow(n: Node, act: Act, events: Log, e: nat)
    requires Enabled(n, act) && Step(n, act).log == n.log + events && e < |events| && events[e].Served?
    ensures events[e].now == act.now
  {
    var n1 := n.(mono := act.now);
    match act.lab
    case Spender(t, call) => SpendServedNow(n1, t, call, act.now, events, e);
    case Refiller(b, call) => RefillServedNone(n1, b, call, act.now, events, e);
    case Closer(r, call) => CloseServedNone(n1, r, call, events, e);
  }

  lemma SpendServedNow(n: Node, t: nat, call: SpendCall, now: int64, events: Log, e: nat)
    requires SpendEnabled(n, t, call) && SpendStep(n, t, call, now).log == n.log + events && e < |events|
    ensures events[e].Served? ==> events[e].now == now
  {
    SpendNow(n, t, call, now, |n.log| + e);
  }

  lemma RefillServedNone(n: Node, b: nat, call: RefillCall, now: int64, events: Log, e: nat)
    requires RefillEnabled(n, b, call) && RefillStep(n, b, call, now).log == n.log + events && e < |events|
    ensures !events[e].Served?
  {
    RefillInstall(n, b, call, now, |n.log| + e);
  }

  lemma CloseServedNone(n: Node, r: nat, call: CloseCall, events: Log, e: nat)
    requires CloseEnabled(n, r, call) && CloseStep(n, r, call).log == n.log + events && e < |events|
    ensures !events[e].Served?
  {
    var left := CloseEvents(n, r, call);
    SameTail(n.log, left, events);
    assert left[e] in left;
  }

  lemma SameTail(log: Log, a: Log, b: Log)
    requires log + a == log + b
    ensures a == b
  {
    assert a == (log + a)[|log|..] && b == (log + b)[|log|..];
  }

  /** A cached chunk of positive amount was installed. */
  lemma InstallOf(log: Log, ch: Chunk) returns (k: nat)
    requires HeldOk(ch, log) && 0 < ch.amount
    ensures k < |log| && log[k].Installed? && log[k].chunk.leaseID == ch.leaseID
  {
    k := InstallAmong(log, ch.leaseID);
  }

  lemma {:induction false} InstallAmong(log: Log, id: Bytes) returns (k: nat)
    requires Total(InstalledFor(id), log) != 0
    ensures k < |log| && log[k].Installed? && log[k].chunk.leaseID == id
  {
    k := |log| - 1;
    if Weigh(InstalledFor(id), log[k]) == 0 {
      k := InstallAmong(log[..k], id);
    }
  }

  lemma {:induction false} ServedAmong(events: Log) returns (k: nat)
    requires Total(ServedUnits, events) != 0
    ensures k < |events| && events[k].Served?
  {
    k := |events| - 1;
    if Weigh(ServedUnits, events[k]) == 0 {
      k := ServedAmong(events[..k]);
    }
  }

  lemma TooLate(log: Log, events: Log, now: int64, k: nat, e: nat, clock: Clock, slack: Slack, at: int)
    requires Times(log + events, now) && KeepsUp(clock, slack)
    requires k < |log| && log[k].Installed? && 0 < log[k].grant.ttlMs && WellTimed(log[k], clock, slack)
    requires e < |events| && events[e].Served? && events[e].id == log[k].chunk.leaseID && events[e].now == now
    requires Grace(log[k].grant, slack) <= at
    ensures clock(now) < at
  {
    var log', j := log + events, |log| + e;
    assert log'[k] == log[k] && log'[j] == events[e];
    ServedBeforeGrace(log', now, k, j, clock, slack);
  }
}
