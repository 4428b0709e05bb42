/** The holder stops early: against the leader's clock, every unit of a timed lease is served before the grantor's
    reclaim time. */
module StopEarly {
  import opened Int64
  import opened Options
  import opened LeaseCell
  import opened CellProtocol
  import opened CellLedger
  import opened CellTiming
  import opened CellTheorems

  /** The deadline a timed grant should get, on unbounded integers. */
  function IdealDeadline(gr: DrawResult, now: int): int {
    now + (gr.ttlMs - gr.selfGuardMs) * 1_000_000
  }

  /** The int64 deadline of a timed grant never lies after the ideal one exactly when the ideal one is not below the
      int64 range; an overflow upward only stops earlier. */
  lemma DeadlineExact(gr: DrawResult, now: int64)
    requires 0 < gr.ttlMs
    ensures Deadline(gr, now) <= IdealDeadline(gr, now) <==> -TWO63 <= IdealDeadline(gr, now)
    ensures -TWO63 <= IdealDeadline(gr, now) <= MAX64 ==> Deadline(gr, now) == IdealDeadline(gr, now)
  {
    var d := gr.ttlMs - gr.selfGuardMs;
    WrapTwice(d, NS_PER_MS);
    WrapTwice(d * NS_PER_MS, now);
    WrapAtMost(IdealDeadline(gr, now));
  }

  /** The transit of a timed grant, on unbounded integers, is within its self-guard band. */
  predicate WithinBand(gr: DrawResult, wall: int) {
    0 < gr.ttlMs ==> wall - gr.grantedMs <= gr.selfGuardMs
  }

  /** The gate agrees with the unbounded comparison exactly when the transit fits in int64 or its wrap falls on the same
      side of the band. */
  lemma GateExact(gr: DrawResult, wall: int64)
    requires 0 < gr.granted
    ensures var transit := wall - gr.grantedMs;
            (Rule(Granted(gr), wall).Accept? <==> WithinBand(gr, wall))
            <==> || gr.ttlMs <= 0 || -TWO63 <= transit < TWO63
                 || (transit < -TWO63 && transit + TWO64 <= gr.selfGuardMs)
                 || (TWO63 <= transit && gr.selfGuardMs < transit - TWO64)
  {
  }

  // ----- the leader's clock -----

  /** The leader's clock, in ns, as seen at the holder's monotonic instants. */
  type Clock = int -> int

  /** eps bounds how far the holder's wall clock lags the leader at the gate, delay the time from the gate to the
      install, drift how much the leader's clock may gain on the holder's over any stretch. */
  datatype Slack = Slack(epsMs: int, delayNs: int, driftNs: int)

  ghost predicate KeepsUp(leader: Clock, slack: Slack) {
    forall a: int, b: int | a <= b :: leader(b) - leader(a) <= b - a + slack.driftNs
  }

  /** The leader time from which a timed grant may be reclaimed. */
  function Grace(gr: DrawResult, slack: Slack): int {
    (gr.grantedMs + gr.ttlMs + slack.epsMs) * 1_000_000 + slack.delayNs + slack.driftNs
  }

  /** The clocks around this install kept within the slack, and neither its transit nor its deadline overflowed. */
  predicate WellTimed(e: Event, leader: Clock, slack: Slack)
    requires e.Installed?
  {
    && leader(e.gateNow) <= (e.wall + slack.epsMs) * 1_000_000
    && e.now - e.gateNow <= slack.delayNs
    && e.wall - e.grant.grantedMs <= MAX64 && -TWO63 <= IdealDeadline(e.grant, e.now)
  }

  /** Everything served from a timed lease is served before its grace is over. */
  lemma StopsEarly(s: Node, i: nat, j: nat, leader: Clock, slack: Slack)
    requires Lived(s) && KeepsUp(leader, slack)
    requires i < j < |s.log| && s.log[i].Installed? && s.log[j].Served? && s.log[i].chunk.leaseID == s.log[j].id
    requires 0 < s.log[i].grant.ttlMs && WellTimed(s.log[i], leader, slack)
    ensures leader(s.log[j].now) < Grace(s.log[i].grant, slack)
  {
    LivedHolds(s);
    TimesOf(s);
    ServedBeforeGrace(s.log, s.mono, i, j, leader, slack);
  }

  /** The times in a log: gates, deadlines and order. */
  predicate Times(log: Log, mono: int64) {
    TimeLog(log, mono) && InTime(log)
  }

  lemma TimesOf(s: Node)
    requires Invariant(s)
    ensures Times(s.log, s.mono)
  {
  }

  lemma ServedBeforeGrace(log: Log, mono: int64, i: nat, j: nat, leader: Clock, slack: Slack)
    requires Times(log, mono) && KeepsUp(leader, slack)
    requires i < j < |log| && log[i].Installed? && log[j].Served? && log[i].chunk.leaseID == log[j].id
    requires 0 < log[i].grant.ttlMs && WellTimed(log[i], leader, slack)
    ensures leader(log[j].now) < Grace(log[i].grant, slack)
  {
    var e, t := log[i], log[j].now;
    assert GateOk(e) && t < e.chunk.deadlineMon;
    assert AnchorOf(log[i]) == Some(e.now) && AnchorOf(log[j]) == Some(t);
    DeadlineExact(e.grant, e.now);
    assert e.wall - e.grant.grantedMs <= e.grant.selfGuardMs;
    assert leader(t) - leader(e.gateNow) <= t - e.gateNow + slack.driftNs;
  }
}
