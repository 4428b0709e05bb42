/** The steps of one refill body or one Return, run without interleaving, do what the methods of BudgetCell do. */
module CellAlone {
  import opened Int64
  import opened Encoding
  import opened Options
  import opened LeaseCell
  import opened BudgetCells
  import opened CellProtocol
  import opened CellRuns

  /** The instants from the given reply on never step back. */
  predicate InOrder(mono: int64, replies: seq<Reply>, attempt: nat) {
    && (forall i | attempt <= i < |replies| :: mono <= replies[i].now)
    && (forall i, j | attempt <= i < j < |replies| :: replies[i].now <= replies[j].now)
  }

  // ----- a refill body -----

  /** A refill body whose steps nothing interleaves with leaves the cell that the method RefillOnce leaves. */
  lemma BodyAlone(s: Node, b: nat, reportOk: bool, replies: seq<Reply>) returns (s': Node)
    requires b in s.bodies && s.bodies[b].Starting? && |replies| == MAX_REFILL_ATTEMPTS && InOrder(s.mono, replies, 0)
    ensures Follows(s, s') && s'.cell == RefillAlone(s.cell, reportOk, replies) && b in s'.bodies && s'.bodies[b].Done?
  {
    Stays(s);
    var snapshot := Act(Refiller(b, Snapshot), s.mono);
    FollowStep(s, s, snapshot);
    s' := Step(s, snapshot);
    if s'.bodies[b].Reporting? {
      s' := ReportAlone(s, s', b, reportOk);
    }
    if !s'.bodies[b].Done? {
      s' := DrawsAlone(s, s', b, replies, 0);
    }
  }

  lemma ReportAlone(s: Node, s1: Node, b: nat, reportOk: bool) returns (s': Node)
    requires Follows(s, s1) && b in s1.bodies && s1.mono == s.mono && s1.cell == s.cell && ReportDue(s.cell).Some?
    requires var due := ReportDue(s.cell).value; s1.bodies[b] == Reporting(due.0, due.1, s.cell.nonce)
    ensures Follows(s, s') && s'.cell == AfterReport(s.cell, reportOk) && s'.mono == s.mono
    ensures b in s'.bodies && s'.bodies[b] == Drawing(s.cell.nonce, 0)
  {
    var reply := Act(Refiller(b, ReportReply(reportOk)), s.mono);
    FollowStep(s, s1, reply);
    s' := Step(s1, reply);
    if reportOk {
      var write := Act(Refiller(b, LockWriteBack), s.mono);
      FollowStep(s, s', write);
      s' := Step(s', write);
    }
  }

  lemma {:induction false} DrawsAlone(s: Node, s1: Node, b: nat, replies: seq<Reply>, attempt: nat) returns (s': Node)
    requires Follows(s, s1) && b in s1.bodies && attempt < MAX_REFILL_ATTEMPTS == |replies|
    requires s1.bodies[b].Drawing? && s1.bodies[b].attempt == attempt
    requires InOrder(s1.mono, replies, attempt)
    ensures Follows(s, s') && b in s'.bodies && s'.bodies[b].Done?
    ensures s'.cell == RedrawLoop(s1.cell, s1.bodies[b].nonce, attempt, replies)
    decreases MAX_REFILL_ATTEMPTS - attempt
  {
    s' := ReplyAlone(s, s1, b, replies[attempt]);
    if s'.bodies[b].Accepted? {
      s' := InstallAlone(s, s', b);
    } else if s'.bodies[b].Drawing? {
      s' := DrawsAlone(s, s', b, replies, attempt + 1);
    }
  }

  lemma ReplyAlone(s: Node, s1: Node, b: nat, r: Reply) returns (s': Node)
    requires Follows(s, s1) && b in s1.bodies && s1.bodies[b].Drawing? && s1.mono <= r.now
    ensures Follows(s, s') && s'.cell == s1.cell && s'.mono == r.now && b in s'.bodies
    ensures var pc := s1.bodies[b];
            s'.bodies[b] == match Rule(r.outcome, r.wall)
                            case GiveUp => Done
                            case Accept(gr) => Accepted(pc.nonce, gr, r.wall, r.now)
                            case Redraw =>
                              if pc.attempt + 1 < MAX_REFILL_ATTEMPTS then Drawing(Bump(pc.nonce), pc.attempt + 1)
                                  else Done
  {
    var reply := Act(Refiller(b, DrawReply(r.outcome, r.wall)), r.now);
    FollowStep(s, s1, reply);
    s' := Step(s1, reply);
  }

  lemma InstallAlone(s: Node, s1: Node, b: nat) returns (s': Node)
    requires Follows(s, s1) && b in s1.bodies && s1.bodies[b].Accepted?
    ensures Follows(s, s') && b in s'.bodies && s'.bodies[b].Done?
    ensures s'.cell == Install(s1.cell, s1.bodies[b].nonce, s1.bodies[b].grant, s1.mono)
  {
    var install := Act(Refiller(b, LockInstall), s1.mono);
    FollowStep(s, s1, install);
    s' := Step(s1, install);
  }

  // ----- a Return -----

  function SettledEvents(sent: seq<(Bytes, int64)>): Log {
    if sent == [] then [] else [Settled(sent[0].0, sent[0].1)] + SettledEvents(sent[1..])
  }

  /** A Return whose steps nothing interleaves with empties the cell and sends what the method Return sends. */
  lemma ReturnAlone(s: Node, r: nat) returns (s': Node)
    requires !s.acquiring && r !in s.closers
    ensures Follows(s, s') && s'.cell == s.cell.(closed := true, cur := None, next := None)
    ensures s'.log == s.log + Departures(s.cell, s'.cell, true) + SettledEvents(Settlements(Held(s.cell)))
    ensures r in s'.closers && s'.closers[r] == Settling([])
  {
    Stays(s);
    FollowStep(s, s, Act(Closer(r, Close), s.mono));
    var s1 := Step(s, Act(Closer(r, Close), s.mono));
    FollowStep(s, s1, Act(Closer(r, LockTake), s.mono));
    var s2 := Step(s1, Act(Closer(r, LockTake), s.mono));
    s' := SendsAlone(s, s2, r);
  }

  lemma {:induction false} SendsAlone(s: Node, s1: Node, r: nat) returns (s': Node)
    requires Follows(s, s1) && r in s1.closers && s1.closers[r].Settling?
    ensures Follows(s, s') && s'.cell == s1.cell && r in s'.closers && s'.closers[r] == Settling([])
    ensures s'.log == s1.log + SettledEvents(Settlements(s1.closers[r].chunks))
    decreases |s1.closers[r].chunks|
  {
    s' := s1;
    var chunks := s1.closers[r].chunks;
    if chunks != [] {
      var s2 := SendAlone(s, s1, r);
      s' := SendsAlone(s, s2, r);
      SentFirst(chunks);
      LogsJoin(s1.log, SentEvent(chunks[0]), SettledEvents(Settlements(chunks[1..])));
    }
  }

  lemma LogsJoin(a: Log, b: Log, c: Log)
    ensures a + b + c == a + (b + c)
  {
  }

  function SentEvent(ch: Chunk): Log {
    if |ch.leaseID| > 0 then [Settled(ch.leaseID, ch.spent)] else []
  }

  lemma SendAlone(s: Node, s1: Node, r: nat) returns (s': Node)
    requires Follows(s, s1) && r in s1.closers && s1.closers[r].Settling? && s1.closers[r].chunks != []
    ensures Follows(s, s') && s'.cell == s1.cell && r in s'.closers
            && s'.closers[r] == Settling(s1.closers[r].chunks[1..])
    ensures s'.log == s1.log + SentEvent(s1.closers[r].chunks[0])
  {
    FollowStep(s, s1, Act(Closer(r, SendReturn), s1.mono));
    s' := Step(s1, Act(Closer(r, SendReturn), s1.mono));
  }

  lemma SentFirst(chunks: seq<Chunk>)
    requires chunks != []
    ensures SettledEvents(Settlements(chunks))
            == SentEvent(chunks[0]) + SettledEvents(Settlements(chunks[1..]))
  {
    var rest := Settlements(chunks[1..]);
    var all := Settlements(chunks);
    if |chunks[0].leaseID| > 0 {
      assert all == [(chunks[0].leaseID, chunks[0].spent)] + rest;
      assert all[1..] == rest;
    } else {
      assert all == [] + rest == rest;
    }
  }
}
