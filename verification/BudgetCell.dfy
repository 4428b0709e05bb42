/** The lease cache as the objects the program updates in place. Clock readings and RPC outcomes are
    parameters; each method is proved against the value-level section of module LeaseCell. */
module BudgetCells {
  import opened Int64
  import opened Encoding
  import opened TokenBucket
  import opened Options
  import opened LeaseCell

  class LeaseChunk {
    var remaining: int64
    const deadlineMon: int64
    var spent: int64
    var reported: int64
    const amount: int64
    const leaseID: Bytes

    constructor (granted: int64, deadlineMon: int64, leaseID: Bytes)
      ensures Value() == Chunk(granted, deadlineMon, 0, 0, granted, leaseID)
    {
      this.remaining, this.amount, this.deadlineMon, this.leaseID := granted, granted, deadlineMon, leaseID;
      this.spent, this.reported := 0, 0;
    }

    function Value(): Chunk
      reads this
    {
      Chunk(remaining, deadlineMon, spent, reported, amount, leaseID)
    }
  }

  class BudgetCell {
    var cur: LeaseChunk?
    var next: LeaseChunk?
    const rate: int64
    const burst: int64
    var tokens: int64
    var lastTokenMon: int64
    const chunk: int64
    const lowWatermark: int64
    var maxPauseNs: int64
    var lastSeenMon: int64
    var closed: bool
    var refilling: bool
    const holder: Bytes
    var nonce: uint64

    /** The two buffers never hold the same chunk object. */
    ghost predicate Valid()
      reads this
    {
      cur != null && next != null ==> cur != next
    }

    function ValueOf(ch: LeaseChunk?): Option<Chunk>
      reads ch
    {
      if ch == null then None else Some(ch.Value())
    }

    function Value(): Cell
      reads this, cur, next
    {
      Cell(ValueOf(cur), ValueOf(next), rate, burst, tokens, lastTokenMon, chunk, lowWatermark, maxPauseNs,
           lastSeenMon, closed, refilling, holder, nonce)
    }

    /** The chunk object in a slot, if there is one. */
    function Present(ch: LeaseChunk?): seq<LeaseChunk> {
      if ch == null then [] else [ch]
    }

    /** Acquire without its initial refill. */
    constructor (rate: int64, burst: int64, chunk: int64, holder: Bytes, now: int64)
      ensures Valid() && Value() == NewCell(rate, burst, chunk, holder, now)
    {
      var units: int64 := if chunk <= 0 then DEFAULT_CHUNK_UNITS else chunk;
      var ceiling := if burst <= 0 then units else burst;
      this.cur, this.next := null, null;
      this.rate, this.burst, this.tokens, this.lastTokenMon := rate, ceiling, ceiling, now;
      this.chunk, this.lowWatermark := units, LowWatermarkFor(units);
      this.maxPauseNs, this.lastSeenMon, this.closed, this.refilling := 0, 0, false, false;
      this.holder, this.nonce := holder, 0;
    }

    method AccrueTokensLocked(now: int64)
      requires Valid()
      modifies this`tokens, this`lastTokenMon
      ensures Valid() && Value() == AccrueTokens(old(Value()), now)
    {
      if rate <= 0 {
        return;
      }
      var elapsed := Wrap(now - lastTokenMon);
      if elapsed <= 0 {
        lastTokenMon := now;
        return;
      }
      var fullRefillNs := FullRefillNs(rate, burst);
      if elapsed >= fullRefillNs {
        tokens := burst;
      } else {
        tokens := Wrap(tokens + Quo(Wrap(rate * elapsed), NS_PER_SEC));
        if tokens > burst {
          tokens := burst;
        }
      }
      lastTokenMon := now;
    }

    method PromoteLocked(now: int64)
      requires Valid()
      modifies this`cur, this`next
      ensures Valid() && Value() == Promote(old(Value()), now)
      ensures cur in {null, old(cur), old(next)} && next in {null, old(next)}
    {
      if cur != null && (now >= cur.deadlineMon || cur.remaining == 0) {
        cur := null;
      }
      if cur == null && next != null {
        cur := next;
        next := null;
        if now >= cur.deadlineMon {
          cur := null;
        }
      }
    }

    method ServeLocked(n: int64, now: int64) returns (verdict: Verdict, trigger: bool)
      requires Valid() && 0 < n
      modifies this, cur, next
      ensures Valid() && Outcome(Value(), verdict, trigger) == Serve(old(Value()), n, now)
    {
      PromoteLocked(now);
      if cur != null && cur.remaining >= n {
        cur.remaining := cur.remaining - n;
        cur.spent := Wrap(cur.spent + n);
        if rate > 0 {
          tokens := Wrap(tokens - n);
        }
        lastSeenMon := now;
        return Success, cur.remaining < lowWatermark && next == null;
      }
      return BudgetUnavailable, true;
    }

    /** Spend up to the release of the lock. trigger: call RequestRefill next. */
    method Spend(n: int64, now: int64) returns (verdict: Verdict, trigger: bool)
      requires Valid()
      modifies this, cur, next
      ensures Valid()
      ensures n <= 0 ==> verdict == Success && !trigger && Value() == old(Value())
      ensures 0 < n && old(closed) ==> verdict == BudgetUnavailable && !trigger && Value() == old(Value())
      ensures 0 < n && !old(closed) ==> Outcome(Value(), verdict, trigger) == SpendLocked(old(Value()), n, now)
    {
      if n <= 0 {
        return Success, false;
      }
      if closed {
        return BudgetUnavailable, false;
      }
      if maxPauseNs > 0 && lastSeenMon != 0 && Wrap(now - lastSeenMon) > maxPauseNs {
        cur := null;
        next := null;
        lastSeenMon := now;
        return BudgetUnavailable, true;
      }
      if rate > 0 {
        AccrueTokensLocked(now);
        if tokens < n {
          return PacingThrottled, false;
        }
      }
      verdict, trigger := ServeLocked(n, now);
    }

    /** Claims the single refill slot; start: run a refill body. */
    method RequestRefill() returns (start: bool)
      requires Valid()
      modifies this`refilling
      ensures Valid() && Value() == old(Value()).(refilling := if old(closed) then old(refilling) else true)
      ensures start <==> !old(closed) && !old(refilling)
    {
      if closed {
        return false;
      }
      if refilling {
        return false;
      }
      refilling := true;
      return true;
    }

    /** The install section of a refill. */
    method InstallLocked(nonce: uint64, gr: DrawResult, now: int64)
      requires Valid()
      modifies this
      ensures Valid() && Value() == Install(old(Value()), nonce, gr, now)
    {
      var deadline: int64 := MAX64;
      if gr.ttlMs > 0 {
        deadline := Wrap(now + Wrap(Wrap(gr.ttlMs - gr.selfGuardMs) * NS_PER_MS));
      }
      next := new LeaseChunk(gr.granted, deadline, MakeLeaseID(holder, nonce));
      if gr.maxPauseMs > 0 {
        maxPauseNs := Wrap(gr.maxPauseMs * NS_PER_MS);
      }
      lastSeenMon := now;
      this.nonce := (nonce + 1) % TWO64;
      assert ValueOf(next) == Some(FreshChunk(holder, nonce, gr, now));
      PromoteLocked(now);
    }

    /** The report of a refill: its snapshot, and the write-back once it was acknowledged. */
    method Attest(reportOk: bool)
      requires Valid()
      modifies cur
      ensures Valid() && Value() == AfterReport(old(Value()), reportOk)
    {
      if cur != null && |cur.leaseID| > 0 && cur.spent > cur.reported {
        var repSpent := cur.spent;
        if reportOk {
          cur.reported := repSpent;
        }
      }
    }

    /** A whole refill that nothing interleaves with: replies[i] is what the i-th draw meets. */
    method RefillOnce(reportOk: bool, replies: seq<Reply>)
      requires Valid() && MAX_REFILL_ATTEMPTS <= |replies|
      modifies this, cur
      ensures Valid() && Value() == RefillAlone(old(Value()), reportOk, replies)
    {
      if next != null {
        return;
      }
      var nonce: uint64 := this.nonce;
      Attest(reportOk);
      ghost var attested := Value();
      ghost var result := RedrawLoop(attested, nonce, 0, replies);
      var attempt := 0;
      while attempt < MAX_REFILL_ATTEMPTS
        invariant 0 <= attempt <= MAX_REFILL_ATTEMPTS
        invariant Valid() && Value() == attested && cur == old(cur)
        invariant RedrawLoop(attested, nonce, attempt, replies) == result
      {
        var outcome, wall := replies[attempt].outcome, replies[attempt].wall;
        LoopTurn(attested, nonce, attempt, replies);
        if outcome == AlreadySettled {
          assert Rule(outcome, wall) == Redraw;
          nonce := (nonce + 1) % TWO64;
          attempt := attempt + 1;
          continue;
        }
        if outcome == Failed {
          return;
        }
        var gr := outcome.result;
        if gr.granted <= 0 {
          return;
        }
        if gr.ttlMs > 0 && Wrap(wall - gr.grantedMs) > gr.selfGuardMs {
          assert Rule(outcome, wall) == Redraw;
          nonce := (nonce + 1) % TWO64;
          attempt := attempt + 1;
          continue;
        }
        InstallLocked(nonce, gr, replies[attempt].now);
        return;
      }
    }

    /** The hint of Remaining, on int64. */
    method Remaining() returns (r: int64)
      requires Valid()
      ensures r == Wrap(Cached(Value()))
    {
      r := 0;
      if cur != null {
        r := Wrap(r + cur.remaining);
      }
      if next != null {
        r := Wrap(r + next.remaining);
      }
    }

    /** What Return sends for a slot: the id of its lease, if it has one, and all that was spent from it. */
    function Owed(ch: LeaseChunk?): seq<(Bytes, int64)>
      reads ch
    {
      if ch == null || ch.leaseID == [] then [] else [(ch.leaseID, ch.spent)]
    }

    /** The locked section of Return: empty the cache and keep the chunk objects. */
    method TakeChunks() returns (chunks: seq<LeaseChunk>)
      requires Valid()
      modifies this`cur, this`next
      ensures cur == null && next == null
      ensures Value() == old(Value()).(cur := None, next := None)
      ensures chunks == old(Present(cur)) + old(Present(next))
      ensures |chunks| == |Held(old(Value()))|
      ensures forall i | 0 <= i < |chunks| :: chunks[i].Value() == Held(old(Value()))[i]
    {
      chunks := [];
      if cur != null {
        chunks := chunks + [cur];
      }
      if next != null {
        chunks := chunks + [next];
      }
      cur, next := null, null;
    }

    /** Return as one call: the (lease id, final spend) pairs it sends, in order, and the first of their errors.
        failures[i] is the error of the i-th settlement, if any. */
    method Return(failures: seq<Option<int>>) returns (sent: seq<(Bytes, int64)>, error: Option<int>)
      requires Valid() && |failures| == |Settlements(Held(Value()))|
      modifies this`closed, this`cur, this`next
      ensures Value() == old(Value()).(closed := true, cur := None, next := None)
      ensures sent == Settlements(Held(old(Value())))
      ensures sent == old(Owed(cur)) + old(Owed(next))
      ensures IsFirstError(failures, error)
    {
      closed := true;
      SentPerSlot(ValueOf(cur), ValueOf(next));
      var chunks := TakeChunks();
      sent, error := Settle(chunks, Held(old(Value())), failures);
    }
  }

  /** The settlements of a cache, slot by slot. */
  lemma SentPerSlot(cur: Option<Chunk>, next: Option<Chunk>)
    ensures var held := (if cur.Some? then [cur.value] else []) + (if next.Some? then [next.value] else []);
            Settlements(held)
            == (if cur.Some? && cur.value.leaseID != [] then [(cur.value.leaseID, cur.value.spent)] else [])
               + (if next.Some? && next.value.leaseID != [] then [(next.value.leaseID, next.value.spent)] else [])
  {
    if next.Some? {
      assert [next.value][1..] == [] && Settlements([next.value]) == OneSettlement(next.value);
      assert [] + [next.value] == [next.value];
    }
    if cur.Some? {
      var rest := if next.Some? then [next.value] else [];
      assert ([cur.value] + rest)[1..] == rest;
      assert Settlements([cur.value] + rest) == OneSettlement(cur.value) + Settlements(rest);
    }
  }

  /** error is the first one in the list, absent when there is none. */
  predicate IsFirstError(failures: seq<Option<int>>, error: Option<int>) {
    if error.None? then forall i | 0 <= i < |failures| :: failures[i].None?
    else exists i | 0 <= i < |failures| :: failures[i] == error && forall k | 0 <= k < i :: failures[k].None?
  }

  /** The unlocked loop of Return: one settlement RPC per taken chunk with a lease id, reading its final spend. */
  method Settle(chunks: seq<LeaseChunk>, ghost held: seq<Chunk>, failures: seq<Option<int>>)
    returns (sent: seq<(Bytes, int64)>, error: Option<int>)
    requires |chunks| == |held| && forall i | 0 <= i < |chunks| :: chunks[i].Value() == held[i]
    requires |failures| == |Settlements(held)|
    ensures sent == Settlements(held) && IsFirstError(failures, error)
  {
    sent, error := [], None;
    assert held[0..] == held;
    for i := 0 to |chunks|
      invariant sent + Settlements(held[i..]) == Settlements(held)
      invariant IsFirstError(failures[..|sent|], error)
    {
      var ch := chunks[i];
      NextSettlement(sent, held, i);
      if |ch.leaseID| > 0 {
        var failure := failures[|sent|];
        FirstErrorExtends(failures, |sent|, error);
        sent := sent + [(ch.leaseID, ch.spent)];
        if failure.Some? && error.None? {
          error := failure;
        }
      }
    }
    assert failures[..|sent|] == failures;
  }

  lemma NextSettlement(sent: seq<(Bytes, int64)>, held: seq<Chunk>, i: nat)
    requires i < |held| && sent + Settlements(held[i..]) == Settlements(held)
    ensures var ch := held[i];
            if |ch.leaseID| > 0
            then |sent| < |Settlements(held)|
                && sent + [(ch.leaseID, ch.spent)] + Settlements(held[i + 1..]) == Settlements(held)
            else sent + Settlements(held[i + 1..]) == Settlements(held)
  {
    assert held[i..][0] == held[i] && held[i..][1..] == held[i + 1..];
    Joins(sent, [(held[i].leaseID, held[i].spent)], Settlements(held[i + 1..]));
    assert |held[i].leaseID| == 0 ==> Settlements(held[i..]) == Settlements(held[i + 1..]);
  }

  lemma Joins(a: seq<(Bytes, int64)>, b: seq<(Bytes, int64)>, c: seq<(Bytes, int64)>)
    ensures a + b + c == a + (b + c)
  {
  }

  lemma FirstErrorExtends(failures: seq<Option<int>>, k: nat, error: Option<int>)
    requires k < |failures| && IsFirstError(failures[..k], error)
    ensures IsFirstError(failures[..k + 1], if error.None? then failures[k] else error)
  {
    var front, all := failures[..k], failures[..k + 1];
    assert forall i | 0 <= i < k :: all[i] == front[i];
    assert all[k] == failures[k];
  }

  /** The settlements of a list of chunks; a chunk without a lease id has none. */
  function Settlements(chunks: seq<Chunk>): seq<(Bytes, int64)> {
    if chunks == [] then [] else OneSettlement(chunks[0]) + Settlements(chunks[1..])
  }

  function OneSettlement(ch: Chunk): seq<(Bytes, int64)> {
    if |ch.leaseID| > 0 then [(ch.leaseID, ch.spent)] else []
  }
}
