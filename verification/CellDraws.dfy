/** What a cell draws in any run: its own chunk size, close to its committed nonce, and nothing while a chunk waits. */
module CellDraws {
  import opened Int64
  import opened Encoding
  import opened Options
  import opened CellProtocol
  import opened CellLedger
  import opened CellInvariant
  import opened CellSteps
  import opened CellTheorems

  /** Every draw asks for one chunk. */
  predicate DrawsChunk(s: Node) {
    forall k | 0 <= k < |s.log| && s.log[k].Drew? :: s.log[k].units == s.cell.chunk
  }

  /** While a chunk waits in the second buffer, every draw was made before the latest install. */
  predicate QuietBuffer(s: Node) {
    s.cell.next.Some? ==> forall k | 0 <= k < |s.log| && s.log[k].Drew? :: NextNonce(s.log[..k]) < s.cell.nonce
  }

  lemma DrawsHold(s: Node)
    requires Lived(s)
    ensures DrawsChunk(s) && QuietBuffer(s)
  {
    var s0: Node, acts: seq<Act> :| Init(s0) && Run(s0, acts) == Some(s);
    RunDraws(s0, acts);
  }

  lemma {:induction false} RunDraws(s0: Node, acts: seq<Act>)
    requires Init(s0) && Run(s0, acts).Some? && Total(Draws, Run(s0, acts).value.log) < TWO64
    ensures DrawsChunk(Run(s0, acts).value) && QuietBuffer(Run(s0, acts).value)
  {
    if acts != [] {
      var before, act := acts[..|acts| - 1], acts[|acts| - 1];
      var s := Run(s0, before).value;
      DrawsOnlyGrow(s0, before, act);
      RunDraws(s0, before);
      RunKeepsInvariant(s0, before);
      CoreFacts(s);
      var events := StepExtends(s, act);
      StepDraws(s, act, events);
    }
  }

  lemma CoreFacts(s: Node)
    requires Invariant(s)
    ensures Core(s) && 0 < s.mono && Increasing(s.log) && NextNonce(s.log) == s.cell.nonce
  {
  }

  lemma StepDraws(s: Node, act: Act, events: Log)
    requires Core(s) && Increasing(s.log) && NextNonce(s.log) == s.cell.nonce && Enabled(s, act)
    requires DrawsChunk(s) && QuietBuffer(s) && Total(Draws, s.log) < TWO64
    requires Step(s, act).log == s.log + events
    requires (forall e | e in events :: !e.Drew?)
             || (act.lab.Refiller? && |events| == 1 && Drawn(Step(s, act), act.lab.b, events[0]))
    ensures DrawsChunk(Step(s, act)) && QuietBuffer(Step(s, act))
  {
    var s' := Step(s, act);
    StepBuffer(s, act);
    assert (exists e :: e in events && e.Drew?) ==>
             |events| == 1 && events[0].units == s.cell.chunk && s'.cell.next.None?;
    EventsDraw(s, s', events);
  }

  lemma EventsDraw(s: Node, s': Node, events: Log)
    requires Increasing(s.log) && NextNonce(s.log) == s.cell.nonce && DrawsChunk(s) && QuietBuffer(s)
    requires s'.log == s.log + events && s'.cell.chunk == s.cell.chunk && s.cell.nonce <= s'.cell.nonce
    requires s'.cell.next.Some? ==> s.cell.next.Some? || s.cell.nonce < s'.cell.nonce
    requires (exists e :: e in events && e.Drew?) ==>
               |events| == 1 && events[0].units == s.cell.chunk && s'.cell.next.None?
    ensures DrawsChunk(s') && QuietBuffer(s')
  {
    forall k | 0 <= k < |s'.log| && s'.log[k].Drew?
      ensures s'.log[k].units == s'.cell.chunk
      ensures s'.cell.next.Some? ==> NextNonce(s'.log[..k]) < s'.cell.nonce
    {
      if k < |s.log| {
        assert s'.log[k] == s.log[k] && s'.log[..k] == s.log[..k];
        NonceGrows(s.log, k);
      } else {
        assert s'.log[k] in events;
      }
    }
  }

  /** A chunk enters the second buffer only by an install, which moves the committed nonce on; and a body in its draw
      has nothing buffered. */
  lemma StepBuffer(s: Node, act: Act)
    requires Core(s) && Enabled(s, act) && Total(Draws, s.log) < TWO64
    ensures var s' := Step(s, act);
            && s'.cell.chunk == s.cell.chunk && s.cell.nonce <= s'.cell.nonce
            && (s'.cell.next.Some? ==> s.cell.next.Some? || s.cell.nonce < s'.cell.nonce)
            && (forall b | b in s'.bodies && s'.bodies[b].Drawing? :: s'.cell.next.None?)
  {
    var s1 := s.(mono := act.now);
    StepBodies(s, act);
    match act.lab
    case Spender(t, call) => SpendBuffer(s1, t, call, act.now);
    case Refiller(b, call) => RefillBuffer(s1, b, call, act.now);
    case Closer(r, call) =>
  }

  lemma StepBodies(s: Node, act: Act)
    requires Core(s) && Enabled(s, act) && Total(Draws, s.log) < TWO64
    ensures forall b | b in Step(s, act).bodies && Step(s, act).bodies[b].Drawing? :: Step(s, act).cell.next.None?
    ensures act.lab.Refiller? ==> BodyOk(s.bodies[act.lab.b], s.cell, s.log, s.mono)
  {
    var s1 := s.(mono := act.now);
    AloneFacts(s);
    match act.lab
    case Spender(t, call) => SpendBodies(s1, t, call, act.now);
    case Refiller(b, call) => RefillBodies(s1, b, call, act.now);
    case Closer(r, call) => CloseBodies(s1, r, call);
  }

  lemma AloneFacts(s: Node)
    requires Core(s)
    ensures DrawsAlone(s) && (forall b, b' | b in s.bodies && b' in s.bodies :: b == b')
    ensures forall b | b in s.bodies :: BodyOk(s.bodies[b], s.cell, s.log, s.mono)
  {
  }

  lemma CloseBodies(s: Node, r: nat, call: CloseCall)
    requires DrawsAlone(s) && CloseEnabled(s, r, call)
    ensures DrawsAlone(CloseStep(s, r, call))
  {
  }

  /** No body is in its draw while a chunk waits. */
  predicate DrawsAlone(s: Node) {
    forall b | b in s.bodies :: s.bodies[b].Starting? || s.bodies[b].Done? || s.cell.next.None?
  }

  lemma SpendBodies(s: Node, t: nat, call: SpendCall, now: int64)
    requires DrawsAlone(s) && SpendEnabled(s, t, call)
    ensures DrawsAlone(SpendStep(s, t, call, now))
  {
    if call.LockSpend? {
      SpendHasShape(s.cell, s.spends[t].n, now);
    }
  }

  lemma RefillBodies(s: Node, b: nat, call: RefillCall, now: int64)
    requires DrawsAlone(s) && (forall b' | b' in s.bodies :: b' == b) && RefillEnabled(s, b, call)
    ensures DrawsAlone(RefillStep(s, b, call, now))
  {
  }

  lemma SpendBuffer(s: Node, t: nat, call: SpendCall, now: int64)
    requires SpendEnabled(s, t, call)
    ensures var s' := SpendStep(s, t, call, now);
            && s'.cell.chunk == s.cell.chunk && s'.cell.nonce == s.cell.nonce
            && (s'.cell.next.Some? ==> s.cell.next.Some?)
  {
    if call.LockSpend? {
      SpendHasShape(s.cell, s.spends[t].n, now);
    }
  }

  lemma RefillBuffer(s: Node, b: nat, call: RefillCall, now: int64)
    requires RefillEnabled(s, b, call) && BodyOk(s.bodies[b], s.cell, s.log, s.mono) && Total(Draws, s.log) < TWO64
    ensures var s' := RefillStep(s, b, call, now);
            && s'.cell.chunk == s.cell.chunk && s.cell.nonce <= s'.cell.nonce
            && (s'.cell.next.Some? ==> s.cell.next.Some? || s.cell.nonce < s'.cell.nonce)
  {
    match call
    case LockInstall =>
      assert RefillStep(s, b, call, now).cell.nonce == s.bodies[b].nonce + 1;
    case _ =>
      SameSlots(s, b, call, now);
  }

  lemma SameSlots(s: Node, b: nat, call: RefillCall, now: int64)
    requires RefillEnabled(s, b, call) && !call.LockInstall?
    ensures var c' := RefillStep(s, b, call, now).cell;
            c'.chunk == s.cell.chunk && c'.nonce == s.cell.nonce && c'.next == s.cell.next
  {
  }

  // ----- nonces -----

  lemma {:induction false} LatestInstall(log: Log) returns (i: nat)
    requires NextNonce(log) != 0
    ensures i < |log| && log[i].Installed? && NextNonce(log) == NonceOf(log[i].chunk.leaseID) + 1
  {
    i := |log| - 1;
    if !log[i].Installed? {
      i := LatestInstall(log[..i]);
    }
  }

  /** The next nonce never steps back. */
  lemma {:induction false} NonceGrows(log: Log, k: nat)
    requires Increasing(log) && k <= |log|
    ensures NextNonce(log[..k]) <= NextNonce(log)
  {
    if k == |log| {
      assert log[..k] == log;
    } else {
      var n := |log| - 1;
      var front := log[..n];
      assert front[..k] == log[..k];
      NonceGrows(front, k);
      if log[n].Installed? && NextNonce(front) != 0 {
        var i := LatestInstall(front);
        assert front[i] == log[i];
      }
    }
  }

  function Installs(log: Log): nat {
    if log == [] then 0 else Installs(log[..|log| - 1]) + if log[|log| - 1].Installed? then 1 else 0
  }

  /** When every install is within d ids of the one before, the committed nonce is at most d times their number. */
  lemma {:induction false} NonceByInstalls(log: Log, d: nat)
    requires forall p | 0 <= p < |log| && log[p].Installed? :: NonceOf(log[p].chunk.leaseID) < NextNonce(log[..p]) + d
    ensures NextNonce(log) <= d * Installs(log)
  {
    if log != [] {
      var n := |log| - 1;
      var front := log[..n];
      forall p | 0 <= p < |front| && front[p].Installed?
        ensures NonceOf(front[p].chunk.leaseID) < NextNonce(front[..p]) + d
      {
        assert front[p] == log[p] && front[..p] == log[..p];
      }
      NonceByInstalls(front, d);
      assert d * (Installs(front) + 1) == d * Installs(front) + d;
    }
  }
}
