/** The node-side pacing gate: an integer token bucket topped up from a nanosecond clock.
    Every int64 intermediate is written with its wrap-around. */
module TokenBucket {
  import opened Int64
  import opened Sums

  const NS_PER_SEC := 1_000_000_000

  function FullRefillNs(rate: int64, burst: int64): int64 {
    Wrap(Wrap(Quo(burst, Max(rate, 1)) + 1) * NS_PER_SEC)
  }

  /** The bucket level after a positive gap. */
  function TopUp(rate: int64, burst: int64, tokens: int64, elapsed: int64): (t: int64) {
    if elapsed >= FullRefillNs(rate, burst) then burst
    else
      var sum := Wrap(tokens + Quo(Wrap(rate * elapsed), NS_PER_SEC));
      if sum > burst then burst else sum
  }

  datatype Bucket = Bucket(tokens: int64, last: int64)

  function Accrue(rate: int64, burst: int64, b: Bucket, now: int64): Bucket {
    if rate <= 0 then b
    else
      var elapsed := Wrap(now - b.last);
      if elapsed <= 0 then b.(last := now)
      else Bucket(TopUp(rate, burst, b.tokens, elapsed), now)
  }

  // ----- the simple accrual that the guarded one refines -----

  /** Tokens earned over a gap, on unbounded integers. */
  function Earned(rate: int, elapsed: int): int {
    rate * elapsed / NS_PER_SEC
  }

  function SimpleTopUp(rate: int, burst: int, tokens: int, elapsed: int): int {
    Min(burst, tokens + Earned(rate, elapsed))
  }

  /** The largest product of the partial-refill branch stays inside int64. */
  predicate ProductFits(rate: int64, burst: int64)
    requires 0 < rate
  {
    rate * ((burst / rate + 1) * NS_PER_SEC - 1) <= MAX64
  }

  /** The full-refill gap itself stays inside int64. */
  predicate GapFits(rate: int64, burst: int64)
    requires 0 < rate
  {
    (burst / rate + 1) * NS_PER_SEC <= MAX64
  }

  /** The guarded accrual equals the simple one at every level and gap exactly when ProductFits. */
  lemma AccrualRefinesSimple(rate: int64, burst: int64)
    requires 0 < rate && 0 < burst
    ensures ProductFits(rate, burst) <==>
            forall tokens: int64, elapsed: int64 | 0 <= tokens <= burst && 0 < elapsed ::
              TopUp(rate, burst, tokens, elapsed) == SimpleTopUp(rate, burst, tokens, elapsed)
  {
    if ProductFits(rate, burst) {
      forall tokens: int64, elapsed: int64 | 0 <= tokens <= burst && 0 < elapsed
        ensures TopUp(rate, burst, tokens, elapsed) == SimpleTopUp(rate, burst, tokens, elapsed)
      {
        NoIntermediateOverflow(rate, burst, tokens, elapsed);
      }
    } else if !GapFits(rate, burst) {
      var elapsed := EarlyRefill(rate, burst, 0);
      assert TopUp(rate, burst, 0, elapsed) != SimpleTopUp(rate, burst, 0, elapsed);
    } else {
      var elapsed := LostProduct(rate, burst);
      assert TopUp(rate, burst, 0, elapsed) != SimpleTopUp(rate, burst, 0, elapsed);
    }
  }

  /** Under ProductFits nothing wraps, and the result is the simple one. */
  lemma NoIntermediateOverflow(rate: int64, burst: int64, tokens: int64, elapsed: int64)
    requires 0 < rate && 0 < burst && ProductFits(rate, burst) && 0 <= tokens <= burst && 0 < elapsed
    ensures FullRefillNs(rate, burst) == (burst / rate + 1) * NS_PER_SEC
    ensures elapsed < FullRefillNs(rate, burst) ==> rate * elapsed <= MAX64 && tokens + Earned(rate, elapsed) <= MAX64
    ensures TopUp(rate, burst, tokens, elapsed) == SimpleTopUp(rate, burst, tokens, elapsed)
    ensures 0 <= TopUp(rate, burst, tokens, elapsed) <= burst
  {
    GuardBounds(rate, burst);
    if elapsed < FullRefillNs(rate, burst) {
      MulAtLeast(rate, elapsed, FullRefillNs(rate, burst) - 1);
      MulAtLeast(rate, 0, elapsed);
      PartialIsSimple(rate, burst, tokens, elapsed);
    } else {
      FullGapEarnsBurst(rate, burst, elapsed);
    }
  }

  lemma GuardBounds(rate: int64, burst: int64)
    requires 0 < rate && 0 < burst && ProductFits(rate, burst)
    ensures FullRefillNs(rate, burst) == (burst / rate + 1) * NS_PER_SEC
    ensures rate * (FullRefillNs(rate, burst) - 1) <= MAX64
    ensures burst * NS_PER_SEC <= 2 * MAX64
  {
    var full := (burst / rate + 1) * NS_PER_SEC;
    QuotientShrinks(burst, rate);
    MulAtLeast(full - 1, 1, rate);
    GapIsExact(rate, burst);
    FullGapEarnsBurst(rate, burst, full);
    MulDistributes(rate, full, 1);
  }

  lemma PartialIsSimple(rate: int64, burst: int64, tokens: int64, elapsed: int64)
    requires elapsed < FullRefillNs(rate, burst)
    requires 0 <= rate * elapsed <= MAX64 && 0 <= tokens <= burst && burst * NS_PER_SEC <= 2 * MAX64
    ensures tokens + Earned(rate, elapsed) <= MAX64
    ensures TopUp(rate, burst, tokens, elapsed) == SimpleTopUp(rate, burst, tokens, elapsed)
    ensures 0 <= TopUp(rate, burst, tokens, elapsed)
  {
    var x := rate * elapsed;
    assert Wrap(x) == x && Quo(x, NS_PER_SEC) == x / NS_PER_SEC;
  }

  /** A sum bound that implies ProductFits. */
  lemma SumBoundFits(rate: int64, burst: int64)
    requires 0 < rate && 0 < burst && burst + rate <= MAX64 / NS_PER_SEC
    ensures ProductFits(rate, burst)
  {
  }

  lemma GapIsExact(rate: int64, burst: int64)
    requires 0 < rate && 0 < burst && (burst / rate + 1) * NS_PER_SEC - 1 <= MAX64
    ensures GapFits(rate, burst) && FullRefillNs(rate, burst) == (burst / rate + 1) * NS_PER_SEC
  {
    QuotientShrinks(burst, rate);
  }

  /** A full-refill gap earns at least a burst. */
  lemma FullGapEarnsBurst(rate: int64, burst: int64, elapsed: int)
    requires 0 < rate && 0 < burst && (burst / rate + 1) * NS_PER_SEC <= elapsed
    ensures burst <= Earned(rate, elapsed)
    ensures burst * NS_PER_SEC < rate * elapsed
  {
    var q := burst / rate;
    MulDistributes(rate, q, 1);
    assert burst < rate * (q + 1);
    assert (rate * (q + 1)) * NS_PER_SEC == rate * ((q + 1) * NS_PER_SEC);
    MulAtLeast(rate, (q + 1) * NS_PER_SEC, elapsed);
  }

  /** When the full-refill gap overflows, some gap fills the bucket without having earned a burst. */
  lemma EarlyRefill(rate: int64, burst: int64, tokens: int64) returns (elapsed: int64)
    requires 0 < rate && 0 < burst && !GapFits(rate, burst)
    ensures 0 < elapsed < MAX64 - 1 && elapsed == Max(FullRefillNs(rate, burst), 1)
    ensures TopUp(rate, burst, tokens, elapsed) == burst
    ensures Earned(rate, elapsed) < burst
  {
    var q := burst / rate;
    QuotientShrinks(burst, rate);
    FullRefillWraps(rate, burst);
    elapsed := EarlyGap(q);
    BelowQuotient(rate, burst, elapsed);
  }

  lemma EarlyGap(q: nat) returns (elapsed: int64)
    requires MAX64 < (q + 1) * NS_PER_SEC
    ensures elapsed == Max(Wrap((q + 1) * NS_PER_SEC), 1)
    ensures 0 < elapsed < MAX64 - 1 && elapsed < q * NS_PER_SEC
  {
    var gap := q * NS_PER_SEC + NS_PER_SEC;
    WrapsBelow(gap, q * 250_000_000 + 250_000_000);
    assert (q + 1) * NS_PER_SEC == gap && 0 < q;
    elapsed := Max(Wrap(gap), 1);
  }

  lemma FullRefillWraps(rate: int64, burst: int64)
    requires 0 < rate && 0 < burst
    ensures FullRefillNs(rate, burst) == Wrap((burst / rate + 1) * NS_PER_SEC)
  {
    WrapTwice(burst / rate + 1, NS_PER_SEC);
  }

  /** A multiple of four above the int64 range wraps to at least 2^64 less, and not onto the top of the range. */
  lemma WrapsBelow(x: int, quarter: int)
    requires MAX64 < x == 4 * quarter
    ensures Wrap(x) <= x - TWO64 && Wrap(x) < MAX64 - 1
  {
    var k := (x - Wrap(x)) / TWO64;
    assert x == Wrap(x) + k * TWO64 && 1 <= k;
    assert Wrap(x) == 4 * (quarter - k * 0x4000_0000_0000_0000);
  }

  lemma BelowQuotient(rate: int64, burst: int64, elapsed: int)
    requires 0 < rate && 0 < burst && 0 <= elapsed < (burst / rate) * NS_PER_SEC
    ensures Earned(rate, elapsed) < burst
  {
    var q := burst / rate;
    MulAtLeast(rate, elapsed, q * NS_PER_SEC - 1);
    MulDistributes(rate, q * NS_PER_SEC, 1);
    assert rate * (q * NS_PER_SEC) == (rate * q) * NS_PER_SEC;
    assert rate * q <= burst;
  }

  /** When only the product overflows, some gap leaves an empty bucket empty although tokens were earned. */
  lemma LostProduct(rate: int64, burst: int64) returns (elapsed: int64)
    requires 0 < rate && 0 < burst && GapFits(rate, burst) && !ProductFits(rate, burst)
    ensures 0 < elapsed
    ensures TopUp(rate, burst, 0, elapsed) <= 0 < SimpleTopUp(rate, burst, 0, elapsed)
  {
    var full := (burst / rate + 1) * NS_PER_SEC;
    GapIsExact(rate, burst);
    elapsed := JustOverflowing(rate, full);
    OverflowEarnsNothing(rate, burst, elapsed);
  }

  lemma JustOverflowing(rate: int64, full: int) returns (elapsed: int64)
    requires 0 < rate && 0 < full <= MAX64 && MAX64 < rate * (full - 1)
    ensures 0 < elapsed < full && MAX64 < rate * elapsed <= MAX64 + rate
  {
    var e := MAX64 / rate + 1;
    MulDistributes(rate, MAX64 / rate, 1);
    if full - 1 < e {
      MulAtLeast(rate, full - 1, MAX64 / rate);
      assert false;
    }
    elapsed := e;
  }

  lemma OverflowEarnsNothing(rate: int64, burst: int64, elapsed: int64)
    requires 0 < rate && 0 < burst && elapsed < FullRefillNs(rate, burst)
    requires MAX64 < rate * elapsed <= MAX64 + rate
    ensures TopUp(rate, burst, 0, elapsed) <= 0 < SimpleTopUp(rate, burst, 0, elapsed)
  {
    EarnsNothing(rate * elapsed, rate);
    assert SimpleTopUp(rate, burst, 0, elapsed) == Min(burst, (rate * elapsed) / NS_PER_SEC);
  }

  lemma EarnsNothing(x: int, rate: int64)
    requires MAX64 < x <= MAX64 + rate
    ensures Wrap(Quo(Wrap(x), NS_PER_SEC)) <= 0 < x / NS_PER_SEC
  {
    assert Wrap(x) == x - TWO64 < 0;
  }

  // ----- the rate bound over windows of paced spends -----

  /** One paced spend: asked at `now` for n units; `funded` says whether a cached chunk could serve it. */
  datatype Attempt = Attempt(now: int64, n: int64, funded: bool)

  function Taken(rate: int64, burst: int64, b: Bucket, a: Attempt): int {
    if Accrue(rate, burst, b, a.now).tokens < a.n || !a.funded || a.n <= 0 then 0 else a.n
  }

  function Paced(rate: int64, burst: int64, b: Bucket, a: Attempt): Bucket {
    var b1 := Accrue(rate, burst, b, a.now);
    b1.(tokens := b1.tokens - Taken(rate, burst, b, a))
  }

  function TotalTaken(rate: int64, burst: int64, b: Bucket, run: seq<Attempt>): int
    decreases |run|
  {
    if run == [] then 0
    else Taken(rate, burst, b, run[0]) + TotalTaken(rate, burst, Paced(rate, burst, b, run[0]), run[1..])
  }

  /** A positive clock that never steps back. */
  predicate Timely(from: int64, run: seq<Attempt>) {
    && 0 < from
    && (forall i | 0 <= i < |run| :: from <= run[i].now)
    && (forall i, j | 0 <= i < j < |run| :: run[i].now <= run[j].now)
  }

  /** Every window of paced spends, from any level up to the ceiling, stays within burst plus what the span earns. */
  ghost predicate WindowsBounded(rate: int64, burst: int64) {
    forall b: Bucket, run: seq<Attempt> | b.tokens <= burst && run != [] && Timely(b.last, run) ::
      TotalTaken(rate, burst, b, run) <= burst + Earned(rate, run[|run| - 1].now - run[0].now)
  }

  /** The rate bound holds over all windows exactly when the full-refill gap fits in int64. */
  lemma RateBoundExact(rate: int64, burst: int64)
    requires 0 < rate && 0 < burst
    ensures WindowsBounded(rate, burst) <==> GapFits(rate, burst)
  {
    if GapFits(rate, burst) {
      forall b: Bucket, run: seq<Attempt> | b.tokens <= burst && run != [] && Timely(b.last, run)
        ensures TotalTaken(rate, burst, b, run) <= burst + Earned(rate, run[|run| - 1].now - run[0].now)
      {
        WindowBounded(rate, burst, b, run);
      }
    } else {
      var b, run := TwoBursts(rate, burst);
    }
  }

  lemma WindowBounded(rate: int64, burst: int64, b: Bucket, run: seq<Attempt>)
    requires 0 < rate && 0 < burst && GapFits(rate, burst) && b.tokens <= burst && run != [] && Timely(b.last, run)
    ensures TotalTaken(rate, burst, b, run) <= burst + Earned(rate, run[|run| - 1].now - run[0].now)
  {
    var b0 := Accrue(rate, burst, b, run[0].now);
    AccrueTwice(rate, burst, b, run[0].now);
    SameFirst(rate, burst, b, b0, run);
    WindowFrom(rate, burst, b0, run, burst);
  }

  lemma SameFirst(rate: int64, burst: int64, b: Bucket, b0: Bucket, run: seq<Attempt>)
    requires run != [] && Accrue(rate, burst, b0, run[0].now) == Accrue(rate, burst, b, run[0].now)
    ensures TotalTaken(rate, burst, b0, run) == TotalTaken(rate, burst, b, run)
  {
    assert Paced(rate, burst, b0, run[0]) == Paced(rate, burst, b, run[0]);
  }

  /** A second accrual at the same instant changes nothing. */
  lemma AccrueTwice(rate: int64, burst: int64, b: Bucket, now: int64)
    requires 0 < rate && 0 < burst && b.tokens <= burst && 0 < b.last <= now
    ensures var b0 := Accrue(rate, burst, b, now);
            b0.last == now && b0.tokens <= burst && Accrue(rate, burst, b0, now) == b0
  {
  }

  /** When the full-refill gap overflows, two bursts fit in a gap that has not earned the second. */
  lemma TwoBursts(rate: int64, burst: int64) returns (b: Bucket, run: seq<Attempt>)
    requires 0 < rate && 0 < burst && !GapFits(rate, burst)
    ensures b.tokens <= burst && run != [] && Timely(b.last, run)
    ensures burst + Earned(rate, run[|run| - 1].now - run[0].now) < TotalTaken(rate, burst, b, run)
  {
    var e := EarlyRefill(rate, burst, 0);
    b, run := Bucket(burst, 1), [Attempt(1, burst, true), Attempt(1 + e, burst, true)];
    var b1 := Paced(rate, burst, b, run[0]);
    assert b1 == Bucket(0, 1) && Taken(rate, burst, b, run[0]) == burst;
    assert TotalTaken(rate, burst, b1, run[1..]) == burst by {
      assert run[1..] == [run[1]] && run[1..][1..] == [];
    }
  }

  /** room: what the window may still serve. It covers the level, and it also covers a level that an
      overflowing product has driven below zero, so that a wrap back to the ceiling is paid for. */
  predicate HasRoom(room: int, burst: int, tokens: int) {
    tokens <= room && (-tokens <= room || burst <= room)
  }

  lemma AccrualKeepsRoom(rate: int64, burst: int64, tokens: int64, elapsed: int64, room: int)
    requires 0 < rate && 0 < burst && GapFits(rate, burst) && 0 < elapsed
    requires tokens <= burst && HasRoom(room, burst, tokens)
    ensures TopUp(rate, burst, tokens, elapsed) <= burst
    ensures HasRoom(room + Earned(rate, elapsed), burst, TopUp(rate, burst, tokens, elapsed))
  {
    GapIsExact(rate, burst);
    MulAtLeast(rate, 1, elapsed);
    if elapsed >= FullRefillNs(rate, burst) {
      FullGapEarnsBurst(rate, burst, elapsed);
    } else {
      CreditAtMost(rate * elapsed);
      CreditKeepsRoom(burst, tokens, Quo(Wrap(rate * elapsed), NS_PER_SEC), Earned(rate, elapsed), room);
    }
  }

  /** A wrapped product credits no more than the product is worth. */
  lemma CreditAtMost(x: int)
    requires 0 < x
    ensures var c := Quo(Wrap(x), NS_PER_SEC);
            c <= x / NS_PER_SEC && 0 <= x / NS_PER_SEC && -(TWO63 / NS_PER_SEC) - 1 <= c <= MAX64 / NS_PER_SEC
            && (c < 0 ==> -c <= x / NS_PER_SEC)
  {
    WrapAtMost(x);
  }

  lemma CreditKeepsRoom(burst: int64, tokens: int64, c: int, earned: int, room: int)
    requires 0 < burst && tokens <= burst && HasRoom(room, burst, tokens) && c <= earned && 0 <= earned
    requires -(TWO63 / NS_PER_SEC) - 1 <= c <= MAX64 / NS_PER_SEC && (c < 0 ==> -c <= earned)
    ensures HasRoom(room + earned, burst, Min(burst, Wrap(tokens + c)))
  {
  }

  /** Accruing in two steps never credits more than accruing once. */
  lemma AccrueSplit(rate: int64, burst: int64, b: Bucket, mid: int64, now: int64)
    requires 0 < rate && 0 < burst && PartialFits(rate, burst)
    requires 0 <= b.tokens <= burst && 0 < b.last <= mid <= now
    ensures Accrue(rate, burst, Accrue(rate, burst, b, mid), now).tokens <= Accrue(rate, burst, b, now).tokens
  {
    var b1 := Accrue(rate, burst, b, mid);
    AccrueForward(rate, burst, b, mid);
    AccrueForward(rate, burst, b, now);
    AccrueForward(rate, burst, b1, now);
    ForwardSplit(rate, burst, b, mid, now);
  }

  /** Accrual at an instant that is not in the past. */
  function Forward(rate: int64, burst: int64, b: Bucket, now: int64): Bucket
    requires 0 < b.last <= now
  {
    Bucket(if b.last < now then TopUp(rate, burst, b.tokens, now - b.last) else b.tokens, now)
  }

  lemma ForwardSplit(rate: int64, burst: int64, b: Bucket, mid: int64, now: int64)
    requires 0 < rate && 0 < burst && PartialFits(rate, burst)
    requires 0 <= b.tokens <= burst && 0 < b.last <= mid <= now
    ensures Forward(rate, burst, Forward(rate, burst, b, mid), now).tokens <= Forward(rate, burst, b, now).tokens
  {
    if b.last < mid < now {
      TopUpSplit(rate, burst, b.tokens, mid - b.last, now - mid);
    }
  }

  /** Without a rate nothing accrues, and a step back of the clock only moves the anchor. */
  lemma AccrueIdles(rate: int64, burst: int64, b: Bucket, now: int64)
    requires -TWO63 <= now - b.last && (rate <= 0 || now <= b.last)
    ensures Accrue(rate, burst, b, now) == if rate <= 0 then b else Bucket(b.tokens, now)
  {
  }

  lemma AccrueForward(rate: int64, burst: int64, b: Bucket, now: int64)
    requires 0 < rate && 0 < b.last <= now
    ensures Accrue(rate, burst, b, now) == Forward(rate, burst, b, now)
  {
  }

  lemma TopUpSplit(rate: int64, burst: int64, tokens: int64, g1: int64, g2: int64)
    requires 0 < rate && 0 < burst && PartialFits(rate, burst) && 0 <= tokens <= burst
    requires 0 < g1 && 0 < g2 && g1 + g2 <= MAX64
    ensures TopUp(rate, burst, TopUp(rate, burst, tokens, g1), g2) <= TopUp(rate, burst, tokens, g1 + g2)
  {
    var mid, both := TopUp(rate, burst, tokens, g1), TopUp(rate, burst, tokens, g1 + g2);
    CreditsAtMost(rate, burst, tokens, g1);
    CreditsAtMost(rate, burst, mid, g2);
    PartialExact(rate, burst, tokens, g1 + g2);
    EarnedAdds(rate, g1, g2);
  }

  /** Below the full-refill threshold an accrual credits no more than its gap earns. */
  lemma CreditsAtMost(rate: int64, burst: int64, tokens: int64, elapsed: int64)
    requires 0 < rate && 0 < burst && PartialFits(rate, burst) && 0 <= tokens <= burst && 0 < elapsed
    ensures 0 <= TopUp(rate, burst, tokens, elapsed) <= burst
    ensures elapsed < FullRefillNs(rate, burst)
            ==> TopUp(rate, burst, tokens, elapsed) <= tokens + Earned(rate, elapsed)
  {
    PartialExact(rate, burst, tokens, elapsed);
  }

  lemma EarnedAdds(rate: int, a: int, b: int)
    ensures Earned(rate, a) + Earned(rate, b) <= Earned(rate, a + b) <= Earned(rate, a) + Earned(rate, b) + 1
  {
    MulDistributes(rate, a, b);
  }

  lemma {:induction false} WindowFrom(rate: int64, burst: int64, b: Bucket, run: seq<Attempt>, room: int)
    requires 0 < rate && 0 < burst && GapFits(rate, burst)
    requires run != [] && Timely(b.last, run)
    requires b.tokens <= burst && HasRoom(room, burst, b.tokens)
    ensures TotalTaken(rate, burst, b, run) <= room + Earned(rate, run[|run| - 1].now - b.last)
    decreases |run|
  {
    var a := run[0];
    var b1 := Paced(rate, burst, b, a);
    var left := PacedKeepsRoom(rate, burst, b, a, room);
    if |run| == 1 {
      assert run[1..] == [];
    } else {
      var rest := run[1..];
      assert rest[|rest| - 1] == run[|run| - 1];
      WindowFrom(rate, burst, b1, rest, left);
      EarnedAdds(rate, a.now - b.last, run[|run| - 1].now - a.now);
    }
  }

  lemma PacedKeepsRoom(rate: int64, burst: int64, b: Bucket, a: Attempt, room: int) returns (left: int)
    requires 0 < rate && 0 < burst && GapFits(rate, burst) && 0 < b.last <= a.now
    requires b.tokens <= burst && HasRoom(room, burst, b.tokens)
    ensures left == room + Earned(rate, a.now - b.last) - Taken(rate, burst, b, a)
    ensures var b1 := Paced(rate, burst, b, a);
            b1.tokens <= burst && b1.last == a.now && HasRoom(left, burst, b1.tokens)
    ensures 0 <= left
  {
    var gap := a.now - b.last;
    if 0 < gap {
      AccrualKeepsRoom(rate, burst, b.tokens, gap, room);
    } else {
      assert Earned(rate, gap) == 0;
    }
    left := room + Earned(rate, gap) - Taken(rate, burst, b, a);
  }

  // ----- how much truncation loses -----

  /** Levels left by successive accruals over these gaps, none of which reaches the ceiling. */
  predicate LevelsBelowCeiling(rate: int64, burst: int64, gaps: seq<int64>, levels: seq<int64>) {
    && |levels| == |gaps| + 1
    && 0 <= levels[0] <= burst
    && forall i | 0 <= i < |gaps| :: 0 < gaps[i] && levels[i + 1] == TopUp(rate, burst, levels[i], gaps[i]) < burst
  }

  /** Below its threshold, as computed, the partial refill wraps neither its product nor its sum. */
  predicate PartialFits(rate: int64, burst: int64) {
    var longest := FullRefillNs(rate, burst) - 1;
    longest < 1 || (rate * longest <= MAX64 && burst + Earned(rate, longest) <= MAX64)
  }

  /** k accruals below the ceiling credit what their whole span earns, short by at most k - 1 units. */
  ghost predicate ShortfallBounded(rate: int64, burst: int64) {
    forall gaps: seq<int64>, levels: seq<int64> | gaps != [] && LevelsBelowCeiling(rate, burst, gaps, levels) ::
      Earned(rate, Sum(gaps)) - (|gaps| - 1) <= levels[|gaps|] - levels[0] <= Earned(rate, Sum(gaps))
  }

  /** Truncation loses less than a unit per accrual exactly when the partial refill fits. */
  lemma AccrualShortfall(rate: int64, burst: int64)
    requires 0 < rate && 0 < burst
    ensures ShortfallBounded(rate, burst) <==> PartialFits(rate, burst)
  {
    if PartialFits(rate, burst) {
      forall gaps: seq<int64>, levels: seq<int64> | gaps != [] && LevelsBelowCeiling(rate, burst, gaps, levels)
        ensures Earned(rate, Sum(gaps)) - (|gaps| - 1) <= levels[|gaps|] - levels[0] <= Earned(rate, Sum(gaps))
      {
        forall i | 0 <= i < |gaps|
          ensures levels[i + 1] == levels[i] + Earned(rate, gaps[i])
        {
          LevelRises(rate, burst, gaps, levels, i);
        }
        CreditsAddUp(rate, gaps, levels);
      }
    } else {
      var level, gap := WrappingRefill(rate, burst);
      var gaps, levels := [gap], [level, TopUp(rate, burst, level, gap)];
      assert gaps[1..] == [] && Sum(gaps) == gap;
      assert LevelsBelowCeiling(rate, burst, gaps, levels);
    }
  }

  /** When the partial refill can wrap, some accrual credits less than its gap earned and stays below the ceiling. */
  lemma WrappingRefill(rate: int64, burst: int64) returns (level: int64, gap: int64)
    requires 0 < rate && 0 < burst && !PartialFits(rate, burst)
    ensures 0 <= level <= burst && 0 < gap
    ensures TopUp(rate, burst, level, gap) < burst && TopUp(rate, burst, level, gap) < level + Earned(rate, gap)
  {
    var full := FullRefillNs(rate, burst);
    if MAX64 < rate * (full - 1) {
      gap := JustOverflowing(rate, full);
      OverflowEarnsNothing(rate, burst, gap);
      level := 0;
    } else {
      level, gap := burst, full - 1;
      MulAtLeast(rate, 0, gap);
      SumWraps(burst, rate * gap);
    }
  }

  lemma SumWraps(burst: int64, x: int64)
    requires 0 < burst && 0 <= x && MAX64 < burst + x / NS_PER_SEC
    ensures Wrap(burst + Quo(Wrap(x), NS_PER_SEC)) < 0 < burst + x / NS_PER_SEC
  {
  }

  /** When the partial refill fits, an accrual adds what the gap earns or fills the bucket. */
  lemma PartialExact(rate: int64, burst: int64, tokens: int64, elapsed: int64)
    requires 0 < rate && 0 < burst && PartialFits(rate, burst) && 0 <= tokens <= burst && 0 < elapsed
    ensures TopUp(rate, burst, tokens, elapsed)
            == if elapsed < FullRefillNs(rate, burst) then SimpleTopUp(rate, burst, tokens, elapsed) else burst
    ensures 0 <= TopUp(rate, burst, tokens, elapsed) <= burst
  {
    var longest := FullRefillNs(rate, burst) - 1;
    MulAtLeast(rate, 0, elapsed);
    if elapsed <= longest {
      MulAtLeast(rate, elapsed, longest);
      QuotientsGrow(rate * elapsed, rate * longest);
      assert Wrap(rate * elapsed) == rate * elapsed && Quo(rate * elapsed, NS_PER_SEC) == Earned(rate, elapsed);
    }
  }

  lemma QuotientsGrow(x: int, y: int)
    requires 0 <= x <= y
    ensures 0 <= x / NS_PER_SEC <= y / NS_PER_SEC
  {
  }

  lemma {:induction false} LevelRises(rate: int64, burst: int64, gaps: seq<int64>, levels: seq<int64>, i: nat)
    requires 0 < rate && 0 < burst && PartialFits(rate, burst)
    requires LevelsBelowCeiling(rate, burst, gaps, levels) && i < |gaps|
    ensures 0 <= levels[i] && levels[i + 1] == levels[i] + Earned(rate, gaps[i])
  {
    var level, gap, after := levels[i], gaps[i], levels[i + 1];
    assert after == TopUp(rate, burst, level, gap) < burst && 0 < gap;
    if i > 0 {
      LevelRises(rate, burst, gaps, levels, i - 1);
      EarnedNonNegative(rate, gaps[i - 1]);
    }
    PartialExact(rate, burst, level, gap);
  }

  lemma EarnedNonNegative(rate: int, gap: int)
    requires 0 <= rate && 0 <= gap
    ensures 0 <= Earned(rate, gap)
  {
    MulAtLeast(rate, 0, gap);
  }

  lemma {:induction false} CreditsAddUp(rate: int, gaps: seq<int64>, levels: seq<int64>)
    requires gaps != [] && |levels| == |gaps| + 1
    requires forall i | 0 <= i < |gaps| :: levels[i + 1] == levels[i] + Earned(rate, gaps[i])
    ensures Earned(rate, Sum(gaps)) - (|gaps| - 1) <= levels[|gaps|] - levels[0] <= Earned(rate, Sum(gaps))
  {
    var k := |gaps| - 1;
    if k > 0 {
      CreditsAddUp(rate, gaps[..k], levels[..k + 1]);
      EarnedAdds(rate, Sum(gaps[..k]), gaps[k]);
    } else {
      assert gaps[..k] == [];
    }
  }

  // ----- when the level stays non-negative -----

  /** No accrual takes a level between empty and full below zero. */
  ghost predicate NeverNegative(rate: int64, burst: int64) {
    forall tokens: int64, elapsed: int64 | 0 <= tokens <= burst && 0 < elapsed ::
        0 <= TopUp(rate, burst, tokens, elapsed)
  }

  /** The partial refill fits; or the rate is the largest one, whose wrapped products come out as whole refills or as
      less than one unit, and the burst leaves room for the former. */
  predicate LevelFits(rate: int64, burst: int64) {
    PartialFits(rate, burst) || (rate == MAX64 && burst <= MAX64 - MAX64 / NS_PER_SEC)
  }

  /** The level stays non-negative exactly when LevelFits. */
  lemma LevelExact(rate: int64, burst: int64)
    requires 0 < rate && 0 < burst
    ensures NeverNegative(rate, burst) <==> LevelFits(rate, burst)
  {
    if LevelFits(rate, burst) {
      forall tokens: int64, elapsed: int64 | 0 <= tokens <= burst && 0 < elapsed
        ensures 0 <= TopUp(rate, burst, tokens, elapsed)
      {
        LevelStays(rate, burst, tokens, elapsed);
      }
    } else {
      var tokens, elapsed := NegativeLevel(rate, burst);
    }
  }

  lemma LevelStays(rate: int64, burst: int64, tokens: int64, elapsed: int64)
    requires 0 < rate && 0 < burst && LevelFits(rate, burst) && 0 <= tokens <= burst && 0 < elapsed
    ensures 0 <= TopUp(rate, burst, tokens, elapsed) <= burst
  {
    if PartialFits(rate, burst) {
      PartialExact(rate, burst, tokens, elapsed);
    } else {
      GapIsExact(rate, burst);
      if elapsed < NS_PER_SEC {
        TopRateWraps(elapsed);
      }
    }
  }

  /** An even gap wraps to its negative, an odd one to just below the int64 ceiling. */
  lemma TopRateWraps(elapsed: int64)
    requires 0 < elapsed < NS_PER_SEC
    ensures 0 <= Quo(Wrap(MAX64 * elapsed), NS_PER_SEC) <= MAX64 / NS_PER_SEC
  {
    var half := elapsed / 2;
    if elapsed % 2 == 0 {
      assert MAX64 * elapsed == -elapsed + half * TWO64;
      WrapPeriod(-elapsed, half);
    } else {
      assert MAX64 * elapsed == TWO63 - elapsed + half * TWO64;
      WrapPeriod(TWO63 - elapsed, half);
    }
  }

  /** Otherwise a full or an empty bucket goes negative after some gap below the full-refill threshold. */
  lemma NegativeLevel(rate: int64, burst: int64) returns (tokens: int64, elapsed: int64)
    requires 0 < rate && 0 < burst && !LevelFits(rate, burst)
    ensures tokens in {0, burst} && 0 < elapsed < MAX64
    ensures TopUp(rate, burst, tokens, elapsed) < 0
  {
    var full := FullRefillNs(rate, burst);
    if rate * (full - 1) <= MAX64 {
      tokens, elapsed := burst, full - 1;
      MulAtLeast(rate, 0, elapsed);
      SumWraps(burst, rate * elapsed);
    } else if rate <= MAX64 - NS_PER_SEC {
      tokens := 0;
      elapsed := OverflowingGap(rate, full);
    } else if rate < MAX64 {
      tokens, elapsed := 0, NS_PER_SEC - 2;
      HighRateGap(rate, burst);
    } else {
      tokens, elapsed := burst, 1;
      HighRateGap(rate, burst);
      SumWraps(burst, MAX64);
    }
  }

  lemma OverflowingGap(rate: int64, full: int64) returns (elapsed: int64)
    requires 0 < rate <= MAX64 - NS_PER_SEC && MAX64 < rate * (full - 1)
    ensures 0 < elapsed < full && Wrap(Quo(Wrap(rate * elapsed), NS_PER_SEC)) < 0
  {
    elapsed := JustOverflowing(rate, full);
    BelowZero(rate * elapsed, 1);
  }

  /** A rate this close to the int64 ceiling refills within two seconds, and an even gap wraps to a small negative. */
  lemma HighRateGap(rate: int64, burst: int64)
    requires 0 < burst && MAX64 - NS_PER_SEC < rate
    ensures NS_PER_SEC <= FullRefillNs(rate, burst)
    ensures rate < MAX64 ==> Wrap(Quo(Wrap(rate * (NS_PER_SEC - 2)), NS_PER_SEC)) < 0
  {
    FewTimes(burst, rate);
    GapIsExact(rate, burst);
    if rate < MAX64 {
      HighRateWraps(rate);
    }
  }

  lemma FewTimes(burst: int, rate: int)
    requires 0 < burst < 2 * rate
    ensures 0 <= burst / rate <= 1
  {
    var q := burst / rate;
    QuotientShrinks(burst, rate);
    MulAtLeast(rate, Min(q, 2), q);
  }

  lemma HighRateWraps(rate: int64)
    requires MAX64 - NS_PER_SEC < rate < MAX64
    ensures Wrap(Quo(Wrap(rate * (NS_PER_SEC - 2)), NS_PER_SEC)) < 0
  {
    var x := 999_999_998 * rate;
    assert x == rate * (NS_PER_SEC - 2);
    BelowZero(x, 499_999_999);
  }

  /** A product that lies k wraps above a value under minus one second's divisor credits less than nothing. */
  lemma BelowZero(x: int, k: int)
    requires -TWO63 <= x - k * TWO64 <= -NS_PER_SEC
    ensures Wrap(Quo(Wrap(x), NS_PER_SEC)) < 0
  {
    WrapPeriod(x - k * TWO64, k);
  }

  /** A rate of 10^10 units per second with a burst of one second's worth: 0.95 s after it was drained, the bucket holds
      -8946744073 tokens. */
  lemma NegativeExample()
    ensures GapFits(10_000_000_000, 10_000_000_000) && !LevelFits(10_000_000_000, 10_000_000_000)
    ensures TopUp(10_000_000_000, 10_000_000_000, 0, 950_000_000) == -8_946_744_073
  {
    var rate: int64 := 10_000_000_000;
    assert rate / rate == 1;
    assert Wrap(rate * 950_000_000) == -8_946_744_073_709_551_616;
  }
}
