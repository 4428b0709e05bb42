/** Exactly what a closed cell may still serve, over all its continuations: what is cached, what a refill past the gate
    is about to install, and whatever a refill that can still draw may be granted. */
module CellClosing {
  import opened Int64
  import opened TokenBucket
  import opened Options
  import opened LeaseCell
  import opened CellProtocol
  import opened CellInvariant
  import opened CellSteps
  import opened CellTheorems
  import opened CellRuns
  import opened CellShutdown

  /** The pacing is off, or its partial refill does not wrap. */
  predicate PacingFits(c: Cell) {
    c.rate <= 0 || PartialFits(c.rate, c.burst)
  }

  /** A refill body before its draw's reply. */
  predicate BeforeReply(pc: RefillPc) {
    pc.Starting? || pc.Reporting? || pc.WritingBack? || pc.Drawing?
  }

  /** A body will still draw, or a spend is about to start one. */
  predicate CanDraw(s: Node) {
    (exists b | b in s.bodies :: BeforeReply(s.bodies[b])) || (exists t | t in s.spends :: s.spends[t].Claiming?)
  }

  function Emptied(c: Cell): Cell {
    c.(cur := None, next := None)
  }

  /** The bucket pays for n at this instant, which is not the last one. */
  predicate Affords(c: Cell, n: int64, now: int64) {
    now < MAX64 && (0 < c.rate ==> n <= AccrueTokens(c, now).tokens)
  }

  /** The body's grant, installed at some instant before, serves n: behind what is cached, or once a Return took
      that. */
  ghost predicate InstallServes(c: Cell, pc: RefillPc, mono: int64, n: int64, now: int64) {
    pc.Accepted? &&
    exists at: int64 :: mono <= at <= now &&
      (Servable(Install(c, pc.nonce, pc.grant, at), n, now)
          || Servable(Install(Emptied(c), pc.nonce, pc.grant, at), n, now))
  }

  /** What s offers a spend of n at an instant. */
  ghost predicate Offers(s: Node, n: int64, now: int64) {
    if CanDraw(s) then Affords(s.cell, n, now)
    else
      || Servable(s.cell, n, now)
      || exists b :: b in s.bodies && InstallServes(s.cell, s.bodies[b], s.mono, n, now)
  }

  /** This spend is past its check, and s offers it what it asks for at this instant. */
  ghost predicate Promised(s: Node, t: nat, now: int64) {
    Passed(s, t) && s.mono <= now && Offers(s, s.spends[t].n, now)
  }

  /** A closed cell serves in some continuation when it offers a spend past its check what it asks for; and, unless its
      pacing can wrap, only then. */
  lemma CloseExact(s: Node)
    requires Lived(s) && s.cell.closed
    ensures (exists t: nat, now: int64 :: Promised(s, t, now)) ==> MayServe(s)
    ensures PacingFits(s.cell) ==> (MayServe(s) <==> exists t: nat, now: int64 :: Promised(s, t, now))
  {
    LivedHolds(s);
    if NonePassed(s) {
      QuietClose(s);
    } else if t: nat, now: int64 :| Promised(s, t, now) {
      OfferedMayServe(s, t, now);
    } else if PacingFits(s.cell) {
      NeverServed(s);
    }
  }

  lemma NeverServed(s: Node)
    requires Invariant(s) && s.cell.closed && PacingFits(s.cell) && !NonePassed(s)
    requires forall t: nat, now: int64 :: !Promised(s, t, now)
    ensures !MayServe(s)
  {
    StartSettled(s);
    forall acts: seq<Act> | Run(s, acts).Some?
      ensures ServesNothing(s.log, Run(s, acts).value.log)
    {
      RunShrinks(s, acts);
    }
  }

  // ----- what is offered only shrinks -----

  /** The bucket's level and clock are in range. */
  predicate BucketOk(c: Cell, mono: int64) {
    0 < c.rate ==> 0 < c.burst && 0 <= c.tokens <= c.burst && 0 < c.lastTokenMon <= mono
  }

  /** At most one body, the flag tells whether there is one, and nothing is buffered while it reports, draws or
      installs. */
  predicate OneBody(s: Node) {
    && OneFlight(s) && !s.acquiring
    && (forall b | b in s.bodies :: s.bodies[b].Starting? || s.bodies[b].Done? || s.cell.next.None?)
  }

  predicate OneFlight(s: Node) {
    && (forall b, b' | b in s.bodies && b' in s.bodies :: b == b')
    && (s.cell.refilling <==> s.bodies != map[])
  }

  predicate Closing(s: Node) {
    s.cell.closed && BucketOk(s.cell, s.mono) && OneBody(s) && PacingFits(s.cell)
  }

  lemma StartSettled(s: Node)
    requires Invariant(s) && s.cell.closed && PacingFits(s.cell) && !s.acquiring
    ensures Closing(s)
  {
    assert forall b | b in s.bodies :: BodyOk(s.bodies[b], s.cell, s.log, s.mono);
  }

  /** Every spend past its check in s' is in s. */
  predicate FewerPassed(s: Node, s': Node) {
    forall t | t in s'.spends && s'.spends[t].Checked? :: t in s.spends && s'.spends[t] == s.spends[t]
  }

  /** s' offers nothing from its instant on that s did not. */
  ghost predicate OffersLess(s: Node, s': Node) {
    forall n: int64, now: int64 | 0 < n && s'.mono <= now && Offers(s', n, now) :: Offers(s, n, now)
  }

  ghost predicate Shrunk(s: Node, s': Node) {
    && Closing(s') && s.mono <= s'.mono && ServesNothing(s.log, s'.log) && FewerPassed(s, s') && OffersLess(s, s')
  }

  lemma {:induction false} RunShrinks(s: Node, acts: seq<Act>)
    requires Closing(s) && Run(s, acts).Some?
    requires forall t: nat, now: int64 :: !Promised(s, t, now)
    ensures Shrunk(s, Run(s, acts).value)
  {
    if acts != [] {
      var s1, act := Run(s, acts[..|acts| - 1]).value, acts[|acts| - 1];
      RunShrinks(s, acts[..|acts| - 1]);
      if LocksSpend(act) && Servable(s1.cell, s1.spends[act.lab.t].n, act.now) {
        ServedPromise(s, s1, act.lab.t, act.now);
        assert false;
      }
      StepShrinks(s1, act);
      ShrunkChains(s, s1, Step(s1, act));
    }
  }

  /** A spend that is served later was offered what it gets at the start. */
  lemma ServedPromise(s: Node, s1: Node, t: nat, now: int64)
    requires Shrunk(s, s1) && Passed(s1, t) && s1.mono <= now && Servable(s1.cell, s1.spends[t].n, now)
    ensures Promised(s, t, now)
  {
    assert Offers(s1, s1.spends[t].n, now);
  }

  lemma ShrunkChains(s: Node, s1: Node, s2: Node)
    requires Shrunk(s, s1) && Shrunk(s1, s2)
    ensures Shrunk(s, s2)
  {
    forall i | |s.log| <= i < |s2.log|
      ensures !s2.log[i].Served?
    {
      assert i < |s1.log| ==> s2.log[i] == s1.log[i];
    }
  }

  /** A step that serves nothing shrinks what is offered. */
  lemma StepShrinks(s: Node, act: Act)
    requires Closing(s) && Enabled(s, act)
    requires LocksSpend(act) ==> !Servable(s.cell, s.spends[act.lab.t].n, act.now)
    ensures Shrunk(s, Step(s, act))
  {
    StaysClosed(s, act);
    StepSilent(s, act);
    StepKeepsBucket(s, act);
    StepKeepsBody(s, act);
    StepMono(s, act);
    StepOffersLess(s, act);
  }

  lemma StepSilent(s: Node, act: Act)
    requires Enabled(s, act) && (LocksSpend(act) ==> !Servable(s.cell, s.spends[act.lab.t].n, act.now))
    ensures ServesNothing(s.log, Step(s, act).log)
  {
    if LocksSpend(act) {
      var pc := s.spends[act.lab.t];
      var o := SpendLocked(s.cell, pc.n, act.now);
      ServedExactly(s.cell, pc.n, act.now);
      SpendHasShape(s.cell, pc.n, act.now);
      SpendEventKinds(s.cell, o, pc.n, act.now, pc.late);
      Extends(s.log, SpendEvents(s.cell, o, pc.n, act.now, pc.late));
    } else {
      SilentStep(s, act);
    }
  }

  // ----- the bucket -----

  /** From m on, c' accrues to no more than c. */
  ghost predicate Behind(c: Cell, c': Cell, m: int64) {
    && c'.rate == c.rate && c'.burst == c.burst
    && forall now: int64 | m <= now && 0 < c.rate :: AccrueTokens(c', now).tokens <= AccrueTokens(c, now).tokens
  }

  predicate SameBucket(c: Cell, c': Cell) {
    c'.rate == c.rate && c'.burst == c.burst && c'.tokens == c.tokens && c'.lastTokenMon == c.lastTokenMon
  }

  lemma StepKeepsBucket(s: Node, act: Act)
    requires Closing(s) && Enabled(s, act)
    requires LocksSpend(act) ==> !Servable(s.cell, s.spends[act.lab.t].n, act.now)
    ensures var c' := Step(s, act).cell;
            BucketOk(c', act.now) && Behind(s.cell, c', act.now) && PacingFits(c')
  {
    if LocksSpend(act) {
      FailedBucket(s.cell, s.spends[act.lab.t].n, s.mono, act.now);
    } else {
      OtherBucket(s, act);
    }
  }

  lemma OtherBucket(s: Node, act: Act)
    requires Enabled(s, act) && !LocksSpend(act)
    ensures SameBucket(s.cell, Step(s, act).cell)
  {
    var s1 := s.(mono := act.now);
    match act.lab
    case Spender(t, call) =>
    case Refiller(b, call) => RefillBucket(s1, b, call, act.now);
    case Closer(r, call) =>
  }

  lemma RefillBucket(s: Node, b: nat, call: RefillCall, now: int64)
    requires RefillEnabled(s, b, call)
    ensures SameBucket(s.cell, RefillStep(s, b, call, now).cell)
  {
  }

  lemma FailedBucket(c: Cell, n: int64, mono: int64, mid: int64)
    requires 0 < n && !Servable(c, n, mid) && mono <= mid && BucketOk(c, mono) && PacingFits(c)
    ensures var c' := SpendLocked(c, n, mid).cell;
            BucketOk(c', mid) && Behind(c, c', mid) && PacingFits(c')
  {
    var c' := SpendLocked(c, n, mid).cell;
    ServedExactly(c, n, mid);
    if 0 < c.rate && !Fences(c, mid) {
      var b := Bucket(c.tokens, c.lastTokenMon);
      assert Bucket(c'.tokens, c'.lastTokenMon) == Accrue(c.rate, c.burst, b, mid);
      AccrueInRange(c.rate, c.burst, b, mid);
      forall now: int64 | mid <= now
        ensures AccrueTokens(c', now).tokens <= AccrueTokens(c, now).tokens
      {
        AccrueSplit(c.rate, c.burst, b, mid, now);
      }
    }
  }

  lemma AccrueInRange(rate: int64, burst: int64, b: Bucket, now: int64)
    requires 0 < rate && 0 < burst && PartialFits(rate, burst) && 0 <= b.tokens <= burst && 0 < b.last <= now
    ensures var b' := Accrue(rate, burst, b, now); 0 <= b'.tokens <= burst && b'.last == now
  {
    AccrueForward(rate, burst, b, now);
    if b.last < now {
      PartialExact(rate, burst, b.tokens, now - b.last);
    }
  }

  // ----- the bodies -----

  lemma StepKeepsBody(s: Node, act: Act)
    requires OneBody(s) && Enabled(s, act)
    ensures OneBody(Step(s, act))
  {
    var s1 := s.(mono := act.now);
    match act.lab
    case Spender(t, call) => SpendKeepsBody(s1, t, call, act.now);
    case Refiller(b, call) => RefillKeepsBody(s1, b, call, act.now);
    case Closer(r, call) =>
  }

  lemma SpendKeepsBody(s: Node, t: nat, call: SpendCall, now: int64)
    requires OneBody(s) && SpendEnabled(s, t, call)
    ensures OneBody(SpendStep(s, t, call, now))
  {
    if call.LockSpend? {
      SpendHasShape(s.cell, s.spends[t].n, now);
    }
  }

  lemma RefillKeepsBody(s: Node, b: nat, call: RefillCall, now: int64)
    requires OneBody(s) && RefillEnabled(s, b, call)
    ensures OneBody(RefillStep(s, b, call, now))
  {
    var s' := RefillStep(s, b, call, now);
    assert s.bodies.Keys == {b};
    if call.Finish? {
      assert s'.bodies == map[];
    } else {
      assert s'.bodies.Keys == {b};
    }
  }

  /** Without a draw to come, none comes. */
  lemma StepDrawsNot(s: Node, act: Act)
    requires s.cell.closed && !CanDraw(s) && Enabled(s, act)
    ensures var s' := Step(s, act);
            !CanDraw(s') && (forall b | b in s'.bodies ::
                b in s.bodies && (s'.bodies[b] == s.bodies[b] || s'.bodies[b].Done?))
  {
    var s1 := s.(mono := act.now);
    assert forall b | b in s.bodies :: !BeforeReply(s.bodies[b]);
    match act.lab
    case Spender(t, call) => SpendDrawsNot(s1, t, call, act.now);
    case Refiller(b, call) => RefillDrawsNot(s1, b, call, act.now);
    case Closer(r, call) =>
  }

  lemma SpendDrawsNot(s: Node, t: nat, call: SpendCall, now: int64)
    requires s.cell.closed && (forall u | u in s.spends :: !s.spends[u].Claiming?) && SpendEnabled(s, t, call)
    ensures var s' := SpendStep(s, t, call, now);
            s'.bodies == s.bodies && forall u | u in s'.spends :: !s'.spends[u].Claiming?
  {
  }

  lemma RefillDrawsNot(s: Node, b: nat, call: RefillCall, now: int64)
    requires RefillEnabled(s, b, call) && !BeforeReply(s.bodies[b])
    ensures var s' := RefillStep(s, b, call, now);
            s'.spends == s.spends && (s'.bodies == s.bodies[b := Done] || s'.bodies == s.bodies - {b})
  {
  }

  // ----- what a step leaves to be offered -----

  lemma OffersNeeds(s: Node, n: int64, now: int64)
    requires Offers(s, n, now)
    ensures Affords(s.cell, n, now)
  {
    if !CanDraw(s) && !Servable(s.cell, n, now) {
      var b :| b in s.bodies && InstallServes(s.cell, s.bodies[b], s.mono, n, now);
      InstallNeeds(s.cell, s.bodies[b], s.mono, n, now);
    } else {
      ServableNeeds(s.cell, n, now);
    }
  }

  lemma ServableNeeds(c: Cell, n: int64, now: int64)
    ensures Servable(c, n, now) ==> Affords(c, n, now)
  {
  }

  lemma InstallNeeds(c: Cell, pc: RefillPc, mono: int64, n: int64, now: int64)
    requires InstallServes(c, pc, mono, n, now)
    ensures Affords(c, n, now)
  {
    var at: int64 :| mono <= at <= now &&
      (Servable(Install(c, pc.nonce, pc.grant, at), n, now)
          || Servable(Install(Emptied(c), pc.nonce, pc.grant, at), n, now));
    ServableNeeds(Install(c, pc.nonce, pc.grant, at), n, now);
    ServableNeeds(Install(Emptied(c), pc.nonce, pc.grant, at), n, now);
  }

  lemma StepOffersLess(s: Node, act: Act)
    requires Closing(s) && Enabled(s, act) && Closing(Step(s, act))
    requires LocksSpend(act) ==> !Servable(s.cell, s.spends[act.lab.t].n, act.now)
    requires Behind(s.cell, Step(s, act).cell, act.now)
    ensures OffersLess(s, Step(s, act))
  {
    var s' := Step(s, act);
    forall n: int64, now: int64 | 0 < n && s'.mono <= now && Offers(s', n, now)
      ensures Offers(s, n, now)
    {
      OffersNeeds(s', n, now);
      StepMono(s, act);
      if !CanDraw(s) {
        OfferedBefore(s, act, n, now);
      }
    }
  }

  lemma StepMono(s: Node, act: Act)
    requires Enabled(s, act)
    ensures Step(s, act).mono == act.now
  {
  }

  lemma OfferedBefore(s: Node, act: Act, n: int64, now: int64)
    requires Closing(s) && !CanDraw(s) && Enabled(s, act) && act.now <= now && 0 < n && Offers(Step(s, act), n, now)
    requires LocksSpend(act) ==> !Servable(s.cell, s.spends[act.lab.t].n, act.now)
    requires Behind(s.cell, Step(s, act).cell, act.now)
    ensures Offers(s, n, now)
  {
    var s' := Step(s, act);
    StepDrawsNot(s, act);
    StepMono(s, act);
    if act.lab.Refiller? && act.lab.refill.LockInstall? {
      InstallOffers(s, act.lab.b, act.now, n, now);
    } else {
      CellAfter(s, act);
      if Servable(s'.cell, n, now) {
        CacheOffers(s.cell, s'.cell, act.now, n, now);
      } else {
        var b :| b in s'.bodies && InstallServes(s'.cell, s'.bodies[b], s'.mono, n, now);
        BehindInstall(s.cell, s'.cell, s.bodies[b], s.mono, act.now, n, now);
      }
    }
  }

  lemma InstallOffers(s: Node, b: nat, at: int64, n: int64, now: int64)
    requires !CanDraw(s) && OneBody(s) && RefillEnabled(s, b, LockInstall) && s.mono <= at <= now
    requires Offers(Step(s, Act(Refiller(b, LockInstall), at)), n, now)
    requires !CanDraw(Step(s, Act(Refiller(b, LockInstall), at)))
    ensures Offers(s, n, now)
  {
    var s', pc := Step(s, Act(Refiller(b, LockInstall), at)), s.bodies[b];
    assert s'.cell == Install(s.cell, pc.nonce, pc.grant, at) && s'.bodies == s.bodies[b := Done];
    assert Servable(s'.cell, n, now);
    assert InstallServes(s.cell, pc, s.mono, n, now);
  }

  predicate SameOrPromoted(c: Cell, c': Cell, mid: int64) {
    || (c'.cur == c.cur && c'.next == c.next)
    || (c'.cur == Promote(c, mid).cur && c'.next == Promote(c, mid).next)
  }

  /** A cache that a step without an install left: promoted, emptied, or untouched, and fenced no less. */
  predicate CacheAfter(c: Cell, c': Cell, mid: int64) {
    && c'.maxPauseNs == c.maxPauseNs && c'.holder == c.holder
    && (c' == c'.(cur := None, next := None) || (c'.lastSeenMon == c.lastSeenMon && SameOrPromoted(c, c', mid)))
  }

  lemma CellAfter(s: Node, act: Act)
    requires s.cell.closed && !CanDraw(s) && Enabled(s, act) && !(act.lab.Refiller? && act.lab.refill.LockInstall?)
    requires LocksSpend(act) ==> !Servable(s.cell, s.spends[act.lab.t].n, act.now)
    ensures CacheAfter(s.cell, Step(s, act).cell, act.now)
  {
    if LocksSpend(act) {
      ServedExactly(s.cell, s.spends[act.lab.t].n, act.now);
      SpendHasShape(s.cell, s.spends[act.lab.t].n, act.now);
    } else if act.lab.Refiller? {
      assert !BeforeReply(s.bodies[act.lab.b]);
    }
  }

  lemma CacheOffers(c: Cell, c': Cell, mid: int64, n: int64, now: int64)
    requires CacheAfter(c, c', mid) && Behind(c, c', mid) && mid <= now && 0 < n && Servable(c', n, now)
    ensures Servable(c, n, now)
  {
    SourceOnlyShrinks(c, mid, now);
  }

  /** What promotion leaves at an instant offers later no more than the cache it came from. */
  lemma SourceOnlyShrinks(c: Cell, mid: int64, now: int64)
    requires mid <= now
    ensures var p, q := Source(Promote(c, mid), now), Source(c, now);
            p.Some? && p.value.remaining != 0 ==> q == p
  {
  }

  /** An install after the step serves no more than one before it, or one into an emptied cache. */
  lemma BehindInstall(c: Cell, c': Cell, pc: RefillPc, mono: int64, mid: int64, n: int64, now: int64)
    requires CacheAfter(c, c', mid) && Behind(c, c', mid) && c.next.None? && mono <= mid <= now
    requires InstallServes(c', pc, mid, n, now)
    ensures InstallServes(c, pc, mono, n, now)
  {
    var at: int64 :| mid <= at <= now &&
      (Servable(Install(c', pc.nonce, pc.grant, at), n, now)
          || Servable(Install(Emptied(c'), pc.nonce, pc.grant, at), n, now));
    InstalledBehind(c, c', pc.nonce, pc.grant, at, n, now);
  }

  lemma InstalledBehind(c: Cell, c': Cell, nonce: uint64, gr: DrawResult, at: int64, n: int64, now: int64)
    requires c'.maxPauseNs == c.maxPauseNs && c'.rate == c.rate && c'.burst == c.burst && at <= now
    requires c'.holder == c.holder
    requires 0 < c.rate ==> AccrueTokens(c', now).tokens <= AccrueTokens(c, now).tokens
    requires c'.cur == c.cur || c'.cur.None?
    requires Servable(Install(c', nonce, gr, at), n, now) || Servable(Install(Emptied(c'), nonce, gr, at), n, now)
    ensures Servable(Install(c, nonce, gr, at), n, now) || Servable(Install(Emptied(c), nonce, gr, at), n, now)
  {
    if Servable(Install(c', nonce, gr, at), n, now) && c'.cur == c.cur {
      InstalledAlike(c, c', nonce, gr, at, n, now);
    } else {
      if c'.cur.None? {
        EmptyAlike(c', nonce, gr, at);
      }
      InstalledAlike(Emptied(c), Emptied(c'), nonce, gr, at, n, now);
    }
  }

  /** What an install leaves in the cache depends only on the current chunk. */
  lemma InstalledAlike(c: Cell, c': Cell, nonce: uint64, gr: DrawResult, at: int64, n: int64, now: int64)
    requires c'.maxPauseNs == c.maxPauseNs && c'.rate == c.rate && c'.burst == c.burst && c'.cur == c.cur
    requires c'.holder == c.holder && Servable(Install(c', nonce, gr, at), n, now)
    requires 0 < c.rate ==> AccrueTokens(c', now).tokens <= AccrueTokens(c, now).tokens
    ensures Servable(Install(c, nonce, gr, at), n, now)
  {
    var d, d' := Install(c, nonce, gr, at), Install(c', nonce, gr, at);
    assert d'.cur == d.cur && d'.next == d.next && d'.lastSeenMon == d.lastSeenMon && d'.maxPauseNs == d.maxPauseNs;
    assert Source(d', now) == Source(d, now);
    SameCacheServes(d, d', n, now);
  }

  lemma EmptyAlike(c: Cell, nonce: uint64, gr: DrawResult, at: int64)
    requires c.cur.None?
    ensures Install(c, nonce, gr, at) == Install(Emptied(c), nonce, gr, at)
  {
  }

  lemma SameCacheServes(c: Cell, c': Cell, n: int64, now: int64)
    requires c'.maxPauseNs == c.maxPauseNs && c'.lastSeenMon == c.lastSeenMon && c'.rate == c.rate
    requires Source(c', now).Some? && Source(c, now).Some?
             ==> Source(c', now).value.remaining == Source(c, now).value.remaining
    requires Source(c', now).Some? ==> Source(c, now).Some?
    requires 0 < c.rate ==> AccrueTokens(c', now).tokens <= AccrueTokens(c, now).tokens
    requires Servable(c', n, now)
    ensures Servable(c, n, now)
  {
  }

  // ----- what is offered can be served -----

  lemma OfferedMayServe(s: Node, t: nat, now: int64)
    requires Invariant(s) && s.cell.closed && Promised(s, t, now)
    ensures MayServe(s)
  {
    if CanDraw(s) {
      DrawServes(s, t, now);
    } else if Servable(s.cell, s.spends[t].n, now) {
      PassedMayServe(s, t, now);
    } else {
      var b :| b in s.bodies && InstallServes(s.cell, s.bodies[b], s.mono, s.spends[t].n, now);
      GrantServes(s, t, b, now);
    }
  }

  /** s1 comes after s, at the same instant, with the spend still waiting for the lock and the bucket as it was. */
  ghost predicate Waits(s: Node, s1: Node, t: nat) {
    && Follows(s, s1) && |s.log| <= |s1.log| && s1.mono == s.mono && !s1.acquiring
    && t in s.spends && t in s1.spends && s1.spends[t] == s.spends[t] && Passed(s, t)
    && SameBucket(s.cell, s1.cell)
  }

  lemma WaitsAtFirst(s: Node, t: nat)
    requires Invariant(s) && Passed(s, t)
    ensures Waits(s, s, t) && OneFlight(s)
  {
    Stays(s);
  }

  lemma WaitStep(s: Node, s1: Node, t: nat, act: Act) returns (s2: Node)
    requires Waits(s, s1, t) && Enabled(s1, act) && act.now == s1.mono && !LocksSpend(act)
    requires act.lab.Spender? ==> act.lab.t != t
    ensures s2 == Step(s1, act) && Waits(s, s2, t)
  {
    s2 := Step(s1, act);
    FollowStep(s, s1, act);
    SilentStep(s1, act);
    OtherBucket(s1, act);
    StillWaits(s1, t, act);
  }

  lemma StillWaits(s: Node, t: nat, act: Act)
    requires Enabled(s, act) && t in s.spends && !s.acquiring && (act.lab.Spender? ==> act.lab.t != t)
    ensures var s' := Step(s, act);
            t in s'.spends && s'.spends[t] == s.spends[t] && !s'.acquiring && s'.mono == act.now
  {
    var s1 := s.(mono := act.now);
    match act.lab
    case Spender(u, call) =>
    case Refiller(b, call) => RefillKeepsSpends(s1, b, call, act.now);
    case Closer(r, call) =>
  }

  /** Some number outside the set. */
  lemma {:induction false} Unused(keys: set<nat>) returns (r: nat)
    ensures r !in keys && forall k | k in keys :: k < r
  {
    r := 0;
    if keys != {} {
      var k :| k in keys;
      var rest := Unused(keys - {k});
      r := if k < rest then rest else k + 1;
      assert forall x | x in keys :: x == k || x in keys - {k};
    }
  }

  /** Another Return empties the cache. */
  lemma TakeFirst(s: Node, s1: Node, t: nat) returns (s2: Node)
    requires Waits(s, s1, t)
    ensures Waits(s, s2, t) && s2.bodies == s1.bodies
    ensures s2.cell == Emptied(s1.cell).(closed := true)
  {
    var r := Unused(s1.closers.Keys);
    s2 := WaitStep(s, s1, t, Act(Closer(r, Close), s1.mono));
    s2 := WaitStep(s, s2, t, Act(Closer(r, LockTake), s1.mono));
  }

  /** A body past the gate installs its grant, then the spend takes the lock. */
  lemma GrantServes(s: Node, t: nat, b: nat, now: int64)
    requires Invariant(s) && s.cell.closed && Passed(s, t) && b in s.bodies
    requires InstallServes(s.cell, s.bodies[b], s.mono, s.spends[t].n, now)
    ensures MayServe(s)
  {
    var pc, n := s.bodies[b], s.spends[t].n;
    var at: int64 :| s.mono <= at <= now &&
      (Servable(Install(s.cell, pc.nonce, pc.grant, at), n, now)
          || Servable(Install(Emptied(s.cell), pc.nonce, pc.grant, at), n, now));
    WaitsAtFirst(s, t);
    var s1 := s;
    if !Servable(Install(s.cell, pc.nonce, pc.grant, at), n, now) {
      s1 := TakeFirst(s, s, t);
      assert s1.cell == Emptied(s.cell);
    }
    InstallThenServe(s, s1, t, b, at, now);
  }

  lemma InstallThenServe(s: Node, s1: Node, t: nat, b: nat, at: int64, now: int64)
    requires Waits(s, s1, t) && b in s1.bodies && s1.bodies[b].Accepted? && s1.mono <= at <= now
    requires Servable(Install(s1.cell, s1.bodies[b].nonce, s1.bodies[b].grant, at), s.spends[t].n, now)
    ensures MayServe(s)
  {
    var act := Act(Refiller(b, LockInstall), at);
    FollowStep(s, s1, act);
    SilentStep(s1, act);
    StillWaits(s1, t, act);
    LastServes(s, Step(s1, act), t, now);
  }

  /** A refill that can still draw is granted what the spend needs, once a Return emptied the cache. */
  lemma DrawServes(s: Node, t: nat, now: int64)
    requires Invariant(s) && s.cell.closed && Passed(s, t) && s.mono <= now && CanDraw(s)
    requires Affords(s.cell, s.spends[t].n, now)
    ensures MayServe(s)
  {
    WaitsAtFirst(s, t);
    var s1, b := ReadyBody(s, t);
    var s2 := TakeFirst(s, s1, t);
    var s3 := ReachDraw(s, s2, t, b);
    ReplyServes(s, s3, t, b, now);
  }

  /** A body before its draw's reply: one that is there, or one that the spend in its claim starts. */
  lemma ReadyBody(s: Node, t: nat) returns (s1: Node, b: nat)
    requires Waits(s, s, t) && OneFlight(s) && CanDraw(s)
    ensures Waits(s, s1, t) && b in s1.bodies && BeforeReply(s1.bodies[b])
  {
    s1 := s;
    if exists b | b in s.bodies :: BeforeReply(s.bodies[b]) {
      b :| b in s.bodies && BeforeReply(s.bodies[b]);
    } else {
      var u :| u in s.spends && s.spends[u].Claiming?;
      if s.bodies != map[] {
        var b0 :| b0 in s.bodies;
        s1 := BodyEnds(s, t, b0);
      }
      b := 0;
      s1 := WaitStep(s, s1, t, Act(Spender(u, Claim(b)), s1.mono));
    }
  }

  lemma BodyEnds(s: Node, t: nat, b: nat) returns (s1: Node)
    requires Waits(s, s, t) && OneFlight(s) && b in s.bodies && !BeforeReply(s.bodies[b])
    ensures Waits(s, s1, t) && s1.bodies == map[] && !s1.cell.refilling && s1.spends == s.spends
  {
    s1 := s;
    if s.bodies[b].Accepted? {
      s1 := WaitStep(s, s, t, Act(Refiller(b, LockInstall), s.mono));
    }
    assert s1.bodies.Keys == s.bodies.Keys == {b};
    s1 := WaitStep(s, s1, t, Act(Refiller(b, Finish), s.mono));
  }

  /** From an empty cache a body reaches its draw. */
  lemma ReachDraw(s: Node, s1: Node, t: nat, b: nat) returns (s2: Node)
    requires Waits(s, s1, t) && b in s1.bodies && BeforeReply(s1.bodies[b]) && s1.cell.cur.None? && s1.cell.next.None?
    ensures Waits(s, s2, t) && b in s2.bodies && s2.bodies[b].Drawing?
    ensures s2.cell.cur.None? && s2.cell.next.None?
  {
    s2 := s1;
    match s1.bodies[b] {
      case Starting =>
        s2 := WaitStep(s, s1, t, Act(Refiller(b, Snapshot), s1.mono));
      case Reporting(_, _, _) =>
        s2 := WaitStep(s, s1, t, Act(Refiller(b, ReportReply(false)), s1.mono));
      case WritingBack(_, _, _) =>
        s2 := WaitStep(s, s1, t, Act(Refiller(b, LockWriteBack), s1.mono));
      case Drawing(_, _) =>
    }
  }

  /** The server grants exactly what the spend asks for. */
  lemma ReplyServes(s: Node, s1: Node, t: nat, b: nat, now: int64)
    requires Waits(s, s1, t) && b in s1.bodies && s1.bodies[b].Drawing? && s1.cell.cur.None? && s1.cell.next.None?
    requires s.mono <= now && Affords(s.cell, s.spends[t].n, now)
    ensures MayServe(s)
  {
    var gr := Untimed(s.spends[t].n);
    var act := Act(Refiller(b, DrawReply(Granted(gr), 0)), s1.mono);
    var s2 := WaitStep(s, s1, t, act);
    assert s2.cell == s1.cell && s2.bodies[b] == Accepted(s1.bodies[b].nonce, gr, 0, s1.mono);
    FreshServes(s1.cell, s1.bodies[b].nonce, s.spends[t].n, now);
    InstallThenServe(s, s2, t, b, now, now);
  }

  lemma FreshServes(c: Cell, nonce: uint64, n: int64, now: int64)
    requires c.cur.None? && c.next.None? && 0 < n && Affords(c, n, now)
    ensures Servable(Install(c, nonce, Untimed(n), now), n, now)
  {
  }
}
