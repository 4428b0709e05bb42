/** Every step of the cell's interleaving keeps the invariant. */
module CellSteps {
  import opened Int64
  import opened Encoding
  import opened Options
  import opened LeaseCell
  import opened CellProtocol
  import opened CellLedger
  import opened CellInvariant

  predicate Core(s: Node) {
    0 < s.cell.chunk && Ledger(s.cell, s.log) && Flight(s) && Bodies(s) && Owing(s) && Lateness(s)
  }

  lemma DrewKeeps(c: Cell, log: Log, nonce: uint64)
    requires Ledger(c, log)
    ensures Ledger(c, log + [Drew(MakeLeaseID(c.holder, nonce), c.chunk)])
  {
    assert MakeLeaseID(c.holder, nonce)[..|c.holder|] == c.holder;
    PaperKeeps(c, log, Drew(MakeLeaseID(c.holder, nonce), c.chunk));
  }

  lemma {:induction false} DrawsGrow(log: Log, events: Log)
    ensures Total(Draws, log) <= Total(Draws, log + events)
  {
    if events == [] {
      assert log + events == log;
    } else {
      var front, e := events[..|events| - 1], events[|events| - 1];
      assert log + events == log + front + [e];
      DrawsGrow(log, front);
      Appended(log + front, e);
    }
  }

  // ----- the ledger, step by step -----

  lemma SpendKeeps(s: Node, t: nat, now: int64)
    requires Ledger(s.cell, s.log) && t in s.spends && s.spends[t].Checked? && 0 < s.spends[t].n
    ensures Ledger(AfterSpend(s, t, now).cell, AfterSpend(s, t, now).log)
  {
    var pc := s.spends[t];
    SpendHasShape(s.cell, pc.n, now);
    SpendKeepsLedger(s.cell, SpendLocked(s.cell, pc.n, now), pc.n, now, pc.late, s.log);
  }

  lemma SnapshotKeeps(s: Node, b: nat)
    requires Ledger(s.cell, s.log)
    ensures Ledger(AfterSnapshot(s, b).cell, AfterSnapshot(s, b).log)
  {
    var due := ReportDue(s.cell);
    if due.Some? {
      PaperKeeps(s.cell, s.log, Attested(due.value.0, due.value.1));
    }
    DrewKeeps(s.cell, s.log, s.cell.nonce);
  }

  lemma WriteBackKeeps(s: Node, b: nat)
    requires Ledger(s.cell, s.log) && b in s.bodies && s.bodies[b].WritingBack?
    requires ReportOk(s.bodies[b].repID, s.bodies[b].repSpent, s.cell)
    ensures Ledger(AfterWriteBack(s, b).cell, AfterWriteBack(s, b).log)
  {
    var pc := s.bodies[b];
    var c' := WriteBack(s.cell, pc.repID, pc.repSpent);
    if c' != s.cell {
      ReportedKeeps(s.cell, c', s.log, pc.repSpent);
    }
    DrewKeeps(c', s.log, pc.nonce);
  }

  lemma ReplyKeeps(s: Node, b: nat, outcome: DrawOutcome, wall: int64, now: int64)
    requires Ledger(s.cell, s.log) && b in s.bodies && s.bodies[b].Drawing?
    ensures Ledger(AfterReply(s, b, outcome, wall, now).cell, AfterReply(s, b, outcome, wall, now).log)
  {
    DrewKeeps(s.cell, s.log, Bump(s.bodies[b].nonce));
  }

  lemma InstallKeeps(s: Node, b: nat, now: int64)
    requires Ledger(s.cell, s.log) && b in s.bodies && s.bodies[b].Accepted?
    requires BodyOk(s.bodies[b], s.cell, s.log, s.mono) && Total(Draws, s.log) < TWO64
    ensures Ledger(AfterInstall(s, b, now).cell, AfterInstall(s, b, now).log)
  {
    var pc := s.bodies[b];
    InstallKeepsLedger(s.cell, pc.nonce, pc.grant, pc.wall, pc.gateNow, now, s.log);
  }

  lemma SendKeeps(s: Node, r: nat)
    requires Ledger(s.cell, s.log) && r in s.closers && s.closers[r].Settling? && s.closers[r].chunks != []
    requires OwedOk(s.closers[r].chunks[0], s.cell, s.log)
    ensures Ledger(AfterSend(s, r).cell, AfterSend(s, r).log)
  {
    var ch := s.closers[r].chunks[0];
    SettleKeeps(s.cell, s.log, ch.leaseID, ch.spent);
  }

  lemma SpendStepKeepsLedger(s: Node, t: nat, call: SpendCall, now: int64)
    requires Core(s) && SpendEnabled(s, t, call)
    ensures Ledger(SpendStep(s, t, call, now).cell, SpendStep(s, t, call, now).log)
  {
    match call
    case LockSpend => SpendKeeps(s, t, now);
    case Claim(_) => LedgerFrame(s.cell, s.cell.(refilling := true), s.log);
    case _ =>
  }

  lemma RefillStepKeepsLedger(s: Node, b: nat, call: RefillCall, now: int64)
    requires Core(s) && RefillEnabled(s, b, call) && Total(Draws, s.log) < TWO64
    ensures Ledger(RefillStep(s, b, call, now).cell, RefillStep(s, b, call, now).log)
  {
    match call
    case Snapshot => SnapshotKeeps(s, b);
    case ReportReply(_) => DrewKeeps(s.cell, s.log, s.bodies[b].nonce);
    case LockWriteBack => WriteBackKeeps(s, b);
    case DrawReply(outcome, wall) => ReplyKeeps(s, b, outcome, wall, now);
    case LockInstall => InstallKeeps(s, b, now);
    case Finish => LedgerFrame(s.cell, s.cell.(refilling := false), s.log);
  }

  lemma CloseStepKeepsLedger(s: Node, r: nat, call: CloseCall)
    requires Core(s) && CloseEnabled(s, r, call)
    ensures Ledger(CloseStep(s, r, call).cell, CloseStep(s, r, call).log)
  {
    match call
    case Close => LedgerFrame(s.cell, s.cell.(closed := true), s.log);
    case LockTake => EmptyingKeeps(s.cell, s.cell.(cur := None, next := None), s.log, true);
    case SendReturn => SendKeeps(s, r);
    case EndReturn =>
  }

  // ----- single flight and lateness -----

  lemma SpendStepKeepsFlight(s: Node, t: nat, call: SpendCall, now: int64)
    requires Core(s) && SpendEnabled(s, t, call)
    ensures var s' := SpendStep(s, t, call, now); Flight(s') && Lateness(s') && s'.cell.chunk == s.cell.chunk
  {
    if call.LockSpend? {
      var pc := s.spends[t];
      var o := SpendLocked(s.cell, pc.n, now);
      SpendHasShape(s.cell, pc.n, now);
      SpendEventKinds(s.cell, o, pc.n, now, pc.late);
      var events := SpendEvents(s.cell, o, pc.n, now, pc.late);
      LatenessFrame(s, AfterSpend(s, t, now), events);
    }
  }

  lemma LatenessFrame(s: Node, s': Node, events: Log)
    requires Lateness(s) && s'.log == s.log + events && forall e | e in events && e.Served? :: !e.late
    requires s.cell.closed ==> s'.cell.closed
    requires forall t | t in s'.spends && (s'.spends[t].Called? || s'.spends[t].Checked?) ::
               t in s.spends && s'.spends[t] == s.spends[t]
    ensures Lateness(s')
  {
    forall i | 0 <= i < |s'.log| && s'.log[i].Served?
      ensures !s'.log[i].late
    {
      if i < |s.log| {
        assert s'.log[i] == s.log[i];
      } else {
        assert s'.log[i] in events;
      }
    }
  }

  lemma RefillStepKeepsFlight(s: Node, b: nat, call: RefillCall, now: int64)
    requires Core(s) && RefillEnabled(s, b, call)
    ensures var s' := RefillStep(s, b, call, now); Flight(s') && s'.cell.chunk == s.cell.chunk
  {
  }

  lemma RefillStepKeepsLateness(s: Node, b: nat, call: RefillCall, now: int64)
    requires Core(s) && RefillEnabled(s, b, call) && Total(Draws, s.log) < TWO64
    ensures Lateness(RefillStep(s, b, call, now))
  {
    assert BodyOk(s.bodies[b], s.cell, s.log, s.mono);
    var events := RefillEvents(s, b, call, now);
    RefillKeepsSpends(s, b, call, now);
    LatenessFrame(s, RefillStep(s, b, call, now), events);
  }

  lemma RefillKeepsSpends(s: Node, b: nat, call: RefillCall, now: int64)
    requires RefillEnabled(s, b, call)
    ensures var s' := RefillStep(s, b, call, now); s'.spends == s.spends && s'.cell.closed == s.cell.closed
  {
  }

  lemma CloseStepKeepsFlight(s: Node, r: nat, call: CloseCall)
    requires Core(s) && CloseEnabled(s, r, call)
    ensures var s' := CloseStep(s, r, call); Flight(s') && Lateness(s') && s'.cell.chunk == s.cell.chunk
  {
    var s' := CloseStep(s, r, call);
    assert forall i | |s.log| <= i < |s'.log| :: !s'.log[i].Served?;
  }

  // ----- refill bodies -----

  lemma BodiesFrame(s: Node, s': Node, events: Log)
    requires Bodies(s) && s'.bodies == s.bodies && s'.mono == s.mono && s'.log == s.log + events
    requires s'.cell.holder == s.cell.holder && s'.cell.nonce == s.cell.nonce
    requires s.cell.next.None? ==> s'.cell.next.None? && (s'.cell.cur.Some? ==>
               && s.cell.cur.Some? && s'.cell.cur.value.leaseID == s.cell.cur.value.leaseID
               && s.cell.cur.value.spent <= s'.cell.cur.value.spent)
    ensures Bodies(s')
  {
    DrawsGrow(s.log, events);
    forall b | b in s'.bodies
      ensures BodyOk(s'.bodies[b], s'.cell, s'.log, s'.mono)
    {
      assert BodyOk(s.bodies[b], s.cell, s.log, s.mono);
    }
  }

  lemma SpendStepKeepsBodies(s: Node, t: nat, call: SpendCall, now: int64)
    requires Core(s) && SpendEnabled(s, t, call)
    ensures Bodies(SpendStep(s, t, call, now))
  {
    match call
    case LockSpend =>
      var pc := s.spends[t];
      var o := SpendLocked(s.cell, pc.n, now);
      SpendHasShape(s.cell, pc.n, now);
      SpentCur(s.cell, pc.n, now, o);
      BodiesFrame(s, AfterSpend(s, t, now), SpendEvents(s.cell, o, pc.n, now, pc.late));
    case _ =>
      assert s.log == s.log + [];
  }

  /** With nothing buffered, a spend leaves the current chunk in place or drops it, and its spend only grows. */
  lemma SpentCur(c: Cell, n: int64, now: int64, o: Outcome)
    requires 0 < n && CellOk(c) && SpendShape(c, n, now, o)
    ensures c.next.None? ==> o.cell.next.None? && (o.cell.cur.Some? ==>
              && c.cur.Some? && o.cell.cur.value.leaseID == c.cur.value.leaseID
              && c.cur.value.spent <= o.cell.cur.value.spent)
  {
  }

  lemma RefillStepKeepsBodies(s: Node, b: nat, call: RefillCall, now: int64)
    requires Core(s) && RefillEnabled(s, b, call) && Total(Draws, s.log) < TWO64
    requires 0 < s.mono == now
    ensures Bodies(RefillStep(s, b, call, now))
  {
    assert BodyOk(s.bodies[b], s.cell, s.log, s.mono);
    RefillBodyOk(s, b, call, now);
    var s' := RefillStep(s, b, call, now);
    forall b' | b' in s'.bodies
      ensures BodyOk(s'.bodies[b'], s'.cell, s'.log, s'.mono)
    {
      assert b' in s.bodies && b' == b;
    }
  }

  lemma RefillBodyOk(s: Node, b: nat, call: RefillCall, now: int64)
    requires Core(s) && RefillEnabled(s, b, call) && Total(Draws, s.log) < TWO64
    requires 0 < s.mono == now && BodyOk(s.bodies[b], s.cell, s.log, s.mono)
    ensures var s' := RefillStep(s, b, call, now);
            b in s'.bodies ==> BodyOk(s'.bodies[b], s'.cell, s'.log, s'.mono)
  {
    match call {
      case Snapshot => SnapshotBody(s, b);
      case ReportReply(ok) =>
        if !ok {
          DrawingOk(s, b, s.bodies[b].nonce, 0);
        }
      case LockWriteBack =>
        var pc := s.bodies[b];
        DrawingOk(s.(cell := WriteBack(s.cell, pc.repID, pc.repSpent)), b, pc.nonce, 0);
      case DrawReply(outcome, wall) => ReplyBody(s, b, outcome, wall, now);
      case LockInstall =>
      case Finish =>
    }
  }

  lemma DrawingOk(s: Node, b: nat, nonce: uint64, attempt: nat)
    requires s.cell.next.None? && attempt < MAX_REFILL_ATTEMPTS
             && nonce == s.cell.nonce + attempt <= Total(Draws, s.log)
    ensures var s' := StartDraw(s, b, nonce, attempt); BodyOk(s'.bodies[b], s'.cell, s'.log, s'.mono)
  {
    Appended(s.log, Drew(MakeLeaseID(s.cell.holder, nonce), s.cell.chunk));
  }

  lemma SnapshotBody(s: Node, b: nat)
    requires Core(s)
    ensures var s' := AfterSnapshot(s, b); BodyOk(s'.bodies[b], s'.cell, s'.log, s'.mono)
  {
    if s.cell.next.None? {
      DrawingOk(s, b, s.cell.nonce, 0);
    }
  }

  lemma ReplyBody(s: Node, b: nat, outcome: DrawOutcome, wall: int64, now: int64)
    requires b in s.bodies && s.bodies[b].Drawing? && BodyOk(s.bodies[b], s.cell, s.log, s.mono)
    requires Total(Draws, s.log) < TWO64 && 0 < s.mono == now
    ensures var s' := AfterReply(s, b, outcome, wall, now); BodyOk(s'.bodies[b], s'.cell, s'.log, s'.mono)
  {
    match Rule(outcome, wall)
    case Redraw => RedrawBody(s, b);
    case _ =>
  }

  lemma RedrawBody(s: Node, b: nat)
    requires b in s.bodies && s.bodies[b].Drawing? && BodyOk(s.bodies[b], s.cell, s.log, s.mono)
    requires Total(Draws, s.log) < TWO64
    ensures var pc := s.bodies[b];
            pc.attempt + 1 < MAX_REFILL_ATTEMPTS ==>
              var s' := StartDraw(s, b, Bump(pc.nonce), pc.attempt + 1); BodyOk(s'.bodies[b], s'.cell, s'.log, s'.mono)
  {
    var pc := s.bodies[b];
    if pc.attempt + 1 < MAX_REFILL_ATTEMPTS {
      assert Bump(pc.nonce) == pc.nonce + 1;
      DrawingOk(s, b, Bump(pc.nonce), pc.attempt + 1);
    }
  }

  lemma CloseStepKeepsBodies(s: Node, r: nat, call: CloseCall)
    requires Core(s) && CloseEnabled(s, r, call)
    ensures Bodies(CloseStep(s, r, call))
  {
    var s' := CloseStep(s, r, call);
    assert s.log == s.log + [];
    BodiesFrame(s, s', s'.log[|s.log|..]);
  }

  // ----- owed settlements -----

  lemma {:induction false} TotalConcat(m: Meter, log: Log, events: Log)
    ensures Total(m, log + events) == Total(m, log) + Total(m, events)
  {
    if events == [] {
      assert log + events == log;
    } else {
      var front, e := events[..|events| - 1], events[|events| - 1];
      assert log + events == log + front + [e];
      TotalConcat(m, log, front);
      Appended(log + front, e);
    }
  }

  /** These events neither serve nor settle the lease. */
  predicate Foreign(events: Log, id: Bytes) {
    forall e | e in events :: !(e.Served? && e.id == id) && !(e.Settled? && e.id == id)
  }

  lemma {:induction false} ForeignTotals(events: Log, id: Bytes)
    requires Foreign(events, id)
    ensures Total(ServedFrom(id), events) == Total(SettlesOf(id), events) == 0
    ensures 0 <= Total(LeavesOf(id), events)
  {
    if events != [] {
      assert events[|events| - 1] in events;
      ForeignTotals(events[..|events| - 1], id);
    }
  }

  lemma OwedStays(ch: Chunk, c: Cell, c': Cell, log: Log, events: Log)
    requires OwedOk(ch, c, log) && Foreign(events, ch.leaseID)
    requires c'.holder == c.holder && c.nonce <= c'.nonce
    ensures OwedOk(ch, c', log + events)
  {
    ForeignTotals(events, ch.leaseID);
    TotalConcat(ServedFrom(ch.leaseID), log, events);
    TotalConcat(SettlesOf(ch.leaseID), log, events);
    TotalConcat(LeavesOf(ch.leaseID), log, events);
  }

  lemma OwingFrame(s: Node, s': Node, events: Log)
    requires Owing(s) && s'.closers == s.closers && s'.log == s.log + events
    requires s'.cell.holder == s.cell.holder && s.cell.nonce <= s'.cell.nonce
    requires forall e | e in events && e.Served? :: Total(LeavesOf(e.id), s.log) == 0
    requires forall e | e in events :: !e.Settled?
    ensures Owing(s')
  {
    forall r, i | r in s'.closers && s'.closers[r].Settling? && 0 <= i < |s'.closers[r].chunks|
      ensures OwedOk(s'.closers[r].chunks[i], s'.cell, s'.log)
    {
      var ch := s.closers[r].chunks[i];
      assert OwedOk(ch, s.cell, s.log);
      OwedStays(ch, s.cell, s'.cell, s.log, events);
    }
  }

  lemma SpendStepKeepsOwing(s: Node, t: nat, call: SpendCall, now: int64)
    requires Core(s) && SpendEnabled(s, t, call)
    ensures Owing(SpendStep(s, t, call, now))
  {
    match call
    case LockSpend => LockSpendKeepsOwing(s, t, now);
    case _ => CloseFrame(s, SpendStep(s, t, call, now));
  }

  lemma LockSpendKeepsOwing(s: Node, t: nat, now: int64)
    requires Core(s) && t in s.spends && s.spends[t].Checked? && 0 < s.spends[t].n
    ensures Owing(AfterSpend(s, t, now))
  {
    var pc := s.spends[t];
    var o := SpendLocked(s.cell, pc.n, now);
    SpendHasShape(s.cell, pc.n, now);
    SpendEventsFresh(s.cell, o, pc.n, now, pc.late, s.log);
    OwingFrame(s, AfterSpend(s, t, now), SpendEvents(s.cell, o, pc.n, now, pc.late));
  }

  /** A spend serves only a lease that has not left the cache. */
  lemma SpendEventsFresh(c: Cell, o: Outcome, n: int64, now: int64, late: bool, log: Log)
    requires 0 < n && SpendShape(c, n, now, o) && CacheOk(c, log)
    ensures var events := SpendEvents(c, o, n, now, late);
            && (forall e | e in events && e.Served? :: Total(LeavesOf(e.id), log) == 0)
            && (forall e | e in events :: !e.Settled?)
  {
    SpendEventKinds(c, o, n, now, late);
    if o.verdict == Success {
      var p := Promote(c, now);
      assert p.cur == c.cur || p.cur == c.next;
      assert HeldOk(p.cur.value, log);
    }
  }

  lemma SpendEventKinds(c: Cell, o: Outcome, n: int64, now: int64, late: bool)
    requires 0 < n && SpendShape(c, n, now, o)
    ensures forall e | e in SpendEvents(c, o, n, now, late) ::
              e.Left? || e == Fenced(now) || (o.verdict == Success && e == ServeOf(c, n, now, late))
  {
  }

  lemma RefillStepKeepsOwing(s: Node, b: nat, call: RefillCall, now: int64)
    requires Core(s) && RefillEnabled(s, b, call) && Total(Draws, s.log) < TWO64
    ensures Owing(RefillStep(s, b, call, now))
  {
    var s' := RefillStep(s, b, call, now);
    assert BodyOk(s.bodies[b], s.cell, s.log, s.mono);
    var events := RefillEvents(s, b, call, now);
    OwingFrame(s, s', events);
  }

  lemma RefillEvents(s: Node, b: nat, call: RefillCall, now: int64) returns (events: Log)
    requires RefillEnabled(s, b, call) && BodyOk(s.bodies[b], s.cell, s.log, s.mono) && Total(Draws, s.log) < TWO64
    ensures var s' := RefillStep(s, b, call, now);
            && s'.log == s.log + events && (forall e | e in events :: !e.Served? && !e.Settled?)
            && s'.closers == s.closers && s'.cell.holder == s.cell.holder && s.cell.nonce <= s'.cell.nonce
  {
    var pc := s.bodies[b];
    match call
    case LockInstall =>
      var drawn := FreshChunk(s.cell.holder, pc.nonce, pc.grant, now);
      events := [Installed(drawn, pc.grant, pc.wall, pc.gateNow, now)]
                + Departures(s.cell.(next := Some(drawn)), Install(s.cell, pc.nonce, pc.grant, now), false);
    case _ =>
      events := PaperEvents(s, b, call, now);
  }

  lemma PaperEvents(s: Node, b: nat, call: RefillCall, now: int64) returns (events: Log)
    requires RefillEnabled(s, b, call) && !call.LockInstall?
    ensures var s' := RefillStep(s, b, call, now);
            && s'.log == s.log + events && (forall e | e in events :: e.Drew? || e.Attested?)
            && s'.closers == s.closers && s'.cell.holder == s.cell.holder && s.cell.nonce == s'.cell.nonce
  {
    var s' := RefillStep(s, b, call, now);
    if s'.log == s.log {
      events := [];
    } else {
      events := [s'.log[|s.log|]];
      assert s'.log == s.log + events;
    }
  }

  lemma SendStepKeepsOwing(s: Node, r: nat)
    requires Owing(s) && r in s.closers && s.closers[r].Settling? && s.closers[r].chunks != []
    ensures Owing(AfterSend(s, r))
  {
    var s' := AfterSend(s, r);
    var sent := s.closers[r].chunks[0];
    var events := s'.log[|s.log|..];
    assert s'.log == s.log + events && forall e | e in events :: e == Settled(sent.leaseID, sent.spent);
    forall r', i | r' in s'.closers && s'.closers[r'].Settling? && 0 <= i < |s'.closers[r'].chunks|
      ensures OwedOk(s'.closers[r'].chunks[i], s'.cell, s'.log)
    {
      var k := if r' == r then i + 1 else i;
      var ch := s.closers[r'].chunks[k];
      assert s'.closers[r'].chunks[i] == ch && OwedOk(ch, s.cell, s.log);
      assert ch.leaseID != sent.leaseID;
      OwedStays(ch, s.cell, s'.cell, s.log, events);
    }
    SentDistinct(s, r);
  }

  lemma SentDistinct(s: Node, r: nat)
    requires Owing(s) && r in s.closers && s.closers[r].Settling? && s.closers[r].chunks != []
    ensures var q := AfterSend(s, r).closers;
            forall r1, i, r2, j | r1 in q && q[r1].Settling? && 0 <= i < |q[r1].chunks|
              && r2 in q && q[r2].Settling? && 0 <= j < |q[r2].chunks| && (r1, i) != (r2, j) ::
              q[r1].chunks[i].leaseID != q[r2].chunks[j].leaseID
  {
    var q := AfterSend(s, r).closers;
    forall r1, i, r2, j | r1 in q && q[r1].Settling? && 0 <= i < |q[r1].chunks|
      && r2 in q && q[r2].Settling? && 0 <= j < |q[r2].chunks| && (r1, i) != (r2, j)
      ensures q[r1].chunks[i].leaseID != q[r2].chunks[j].leaseID
    {
      var i', j' := if r1 == r then i + 1 else i, if r2 == r then j + 1 else j;
      assert q[r1].chunks[i] == s.closers[r1].chunks[i'] && q[r2].chunks[j] == s.closers[r2].chunks[j'];
    }
  }

  lemma TakeStepKeepsOwing(s: Node, r: nat)
    requires Core(s) && r in s.closers && s.closers[r].Waiting?
    ensures Owing(AfterTake(s, r))
  {
    var s' := AfterTake(s, r);
    var events := Departures(s.cell, s'.cell, true);
    forall r', i | r' in s'.closers && s'.closers[r'].Settling? && 0 <= i < |s'.closers[r'].chunks|
      ensures OwedOk(s'.closers[r'].chunks[i], s'.cell, s'.log)
    {
      var ch := s'.closers[r'].chunks[i];
      if r' == r {
        TakenOwed(s, ch, events);
      } else {
        assert ch == s.closers[r'].chunks[i] && OwedOk(ch, s.cell, s.log);
        OwedStays(ch, s.cell, s'.cell, s.log, events);
      }
    }
    TakenDistinct(s, r);
  }

  /** The chunks just taken differ from each other and from everything owed before. */
  lemma TakenDistinct(s: Node, r: nat)
    requires Core(s) && r in s.closers && s.closers[r].Waiting?
    ensures var q := AfterTake(s, r).closers;
            forall r1, i, r2, j | r1 in q && q[r1].Settling? && 0 <= i < |q[r1].chunks|
              && r2 in q && q[r2].Settling? && 0 <= j < |q[r2].chunks| && (r1, i) != (r2, j) ::
              q[r1].chunks[i].leaseID != q[r2].chunks[j].leaseID
  {
    var q, held := AfterTake(s, r).closers, Held(s.cell);
    assert forall i | 0 <= i < |held| :: Total(LeavesOf(held[i].leaseID), s.log) == 0;
    forall r1, i, r2, j | r1 in q && q[r1].Settling? && 0 <= i < |q[r1].chunks|
      && r2 in q && q[r2].Settling? && 0 <= j < |q[r2].chunks| && (r1, i) != (r2, j)
      ensures q[r1].chunks[i].leaseID != q[r2].chunks[j].leaseID
    {
      if r1 != r {
        assert q[r1] == s.closers[r1] && OwedOk(s.closers[r1].chunks[i], s.cell, s.log);
      }
      if r2 != r {
        assert q[r2] == s.closers[r2] && OwedOk(s.closers[r2].chunks[j], s.cell, s.log);
      }
    }
  }

  lemma TakenOwed(s: Node, ch: Chunk, events: Log)
    requires Ledger(s.cell, s.log) && ch in Held(s.cell)
             && events == Departures(s.cell, s.cell.(cur := None, next := None), true)
    ensures OwedOk(ch, s.cell, s.log + events)
  {
    var i := if s.cell.cur == Some(ch) then 0 else |events| - 1;
    assert events[i] == Left(ch.leaseID, ch.remaining, true);
    assert HeldOk(ch, s.log) && ChunkOk(ch, s.cell);
    LeavingOwes(ch, s.cell, s.log, events, i);
  }

  lemma LeavingOwes(ch: Chunk, c: Cell, log: Log, events: Log, i: nat)
    requires HeldOk(ch, log) && Minted(c.holder, ch.leaseID, c.nonce)
    requires (forall e | e in events :: e.Left?) && i < |events| && events[i].id == ch.leaseID
    ensures OwedOk(ch, c, log + events)
  {
    Counted(events, i);
    ForeignTotals(events, ch.leaseID);
    TotalConcat(ServedFrom(ch.leaseID), log, events);
    TotalConcat(SettlesOf(ch.leaseID), log, events);
    TotalConcat(LeavesOf(ch.leaseID), log, events);
  }

  lemma CloseStepKeepsOwing(s: Node, r: nat, call: CloseCall)
    requires Core(s) && CloseEnabled(s, r, call)
    ensures Owing(CloseStep(s, r, call))
  {
    match call
    case Close => CloseFrame(s, CloseStep(s, r, call));
    case LockTake => TakeStepKeepsOwing(s, r);
    case SendReturn => SendStepKeepsOwing(s, r);
    case EndReturn => CloseFrame(s, CloseStep(s, r, call));
  }

  lemma CloseFrame(s: Node, s': Node)
    requires Owing(s) && s'.log == s.log && s'.cell.holder == s.cell.holder && s'.cell.nonce == s.cell.nonce
    requires forall r' | r' in s'.closers && s'.closers[r'].Settling? ::
             r' in s.closers && s'.closers[r'] == s.closers[r']
    ensures Owing(s')
  {
    forall r', i | r' in s'.closers && s'.closers[r'].Settling? && 0 <= i < |s'.closers[r'].chunks|
      ensures OwedOk(s'.closers[r'].chunks[i], s'.cell, s'.log)
    {
      assert OwedOk(s.closers[r'].chunks[i], s.cell, s.log);
    }
  }

  // ----- the step -----

  lemma TickKeeps(s: Node, now: int64)
    requires Core(s) && s.mono <= now
    ensures Core(s.(mono := now))
  {
    var s' := s.(mono := now);
    assert Flight(s') && Lateness(s');
    assert Bodies(s') by {
      forall b | b in s'.bodies
        ensures BodyOk(s'.bodies[b], s'.cell, s'.log, s'.mono)
      {
        assert BodyOk(s.bodies[b], s.cell, s.log, s.mono);
      }
    }
    CloseFrame(s, s');
  }

  lemma StepKeepsCore(s: Node, act: Act)
    requires Core(s) && 0 < s.mono && Enabled(s, act) && Total(Draws, s.log) < TWO64
    ensures Core(Step(s, act)) && 0 < Step(s, act).mono
  {
    var s1 := s.(mono := act.now);
    TickKeeps(s, act.now);
    match act.lab {
      case Spender(t, call) => SpendStepKeepsCore(s1, t, call, act.now);
      case Refiller(b, call) => RefillStepKeepsCore(s1, b, call, act.now);
      case Closer(r, call) => CloseStepKeepsCore(s1, r, call);
    }
  }

  lemma SpendStepKeepsCore(s: Node, t: nat, call: SpendCall, now: int64)
    requires Core(s) && SpendEnabled(s, t, call)
    ensures var s' := SpendStep(s, t, call, now); Core(s') && s'.mono == s.mono
  {
    SpendStepKeepsLedger(s, t, call, now);
    SpendStepKeepsFlight(s, t, call, now);
    SpendStepKeepsBodies(s, t, call, now);
    SpendStepKeepsOwing(s, t, call, now);
  }

  lemma RefillStepKeepsCore(s: Node, b: nat, call: RefillCall, now: int64)
    requires Core(s) && RefillEnabled(s, b, call) && Total(Draws, s.log) < TWO64 && 0 < s.mono == now
    ensures var s' := RefillStep(s, b, call, now); Core(s') && s'.mono == s.mono
  {
    RefillStepKeepsLedger(s, b, call, now);
    RefillStepKeepsFlight(s, b, call, now);
    RefillStepKeepsLateness(s, b, call, now);
    RefillStepKeepsBodies(s, b, call, now);
    RefillStepKeepsOwing(s, b, call, now);
  }

  lemma CloseStepKeepsCore(s: Node, r: nat, call: CloseCall)
    requires Core(s) && CloseEnabled(s, r, call)
    ensures var s' := CloseStep(s, r, call); Core(s') && s'.mono == s.mono
  {
    CloseStepKeepsLedger(s, r, call);
    CloseStepKeepsFlight(s, r, call);
    CloseStepKeepsBodies(s, r, call);
    CloseStepKeepsOwing(s, r, call);
  }
}
