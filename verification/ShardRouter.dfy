/** Shard-aware routing: the static shard of a collection and the leader table learned from TierInfo replies.
    The 64-bit hash is an arbitrary function. */
module ShardRouting {
  import opened Int64
  import opened Encoding

  const FIRST_DATA_SHARD: uint64 := 2

  /** The floor between refreshes. */
  const REFRESH_MIN_NS := 1_000_000_000

  type Hash = Bytes -> uint64

  /** The shard of a hash value; the uint64 addition wraps. */
  function ShardOf(h: uint64, dataShards: uint64): uint64 {
    var n := if dataShards < 1 then 1 else dataShards;
    (FIRST_DATA_SHARD + h % n) % TWO64
  }

  function ShardForKey(hash: Hash, ns: Bytes, coll: Bytes, dataShards: uint64): uint64 {
    ShardOf(hash(RouteKey(ns, coll)), dataShards)
  }

  /** Every hash lands in [2, 2 + N) exactly when that range fits in uint64; N below 1 counts as 1. */
  lemma ShardRangeExact(dataShards: uint64)
    ensures (forall h: uint64 :: FIRST_DATA_SHARD <= ShardOf(h, dataShards) < FIRST_DATA_SHARD + Max(dataShards, 1))
            <==> dataShards <= TWO64 - FIRST_DATA_SHARD
  {
    if dataShards > TWO64 - FIRST_DATA_SHARD {
      LastShardWraps(dataShards);
      assert ShardOf(dataShards - 1, dataShards) < FIRST_DATA_SHARD;
    } else {
      forall h: uint64
        ensures FIRST_DATA_SHARD <= ShardOf(h, dataShards) < FIRST_DATA_SHARD + Max(dataShards, 1)
      {
        ShardFits(h, dataShards);
      }
    }
  }

  lemma ShardFits(h: uint64, dataShards: uint64)
    requires dataShards <= TWO64 - FIRST_DATA_SHARD
    ensures FIRST_DATA_SHARD <= ShardOf(h, dataShards) < FIRST_DATA_SHARD + Max(dataShards, 1)
  {
    var n := Max(dataShards, 1);
    ModBound(h, n);
    ModBound(FIRST_DATA_SHARD + h % n, TWO64);
  }

  lemma LastShardWraps(dataShards: uint64)
    requires TWO64 - FIRST_DATA_SHARD < dataShards
    ensures ShardOf(dataShards - 1, dataShards) < FIRST_DATA_SHARD
  {
    ModBound(dataShards - 1, dataShards);
    assert ShardOf(dataShards - 1, dataShards) == (FIRST_DATA_SHARD + (dataShards - 1)) % TWO64;
  }

  /** Two hashes share a shard exactly when they agree modulo N, in every width. */
  lemma SharedShard(h: uint64, h': uint64, dataShards: uint64)
    ensures ShardOf(h, dataShards) == ShardOf(h', dataShards) <==> (h - h') % Max(dataShards, 1) == 0
  {
    var n := Max(dataShards, 1);
    ModBound(h, n);
    ModBound(h', n);
    SameResidue(h, h', n);
    OffsetKeeps(h % n, h' % n);
  }

  lemma OffsetKeeps(x: uint64, y: uint64)
    ensures (FIRST_DATA_SHARD + x) % TWO64 == (FIRST_DATA_SHARD + y) % TWO64 <==> x == y
  {
  }

  lemma SameResidue(x: int, y: int, n: int)
    requires 0 < n
    ensures x % n == y % n <==> (x - y) % n == 0
  {
    var q := x / n - y / n;
    MulDistributes(n, x / n, y / n);
    assert x - y == n * q + (x % n - y % n);
    if x % n >= y % n {
      DivModUnique(x - y, n, q, x % n - y % n);
    } else {
      MulDistributes(n, q, 1);
      DivModUnique(x - y, n, q - 1, n + (x % n - y % n));
    }
  }

  /** The shard of a key: 2 and what is left of its hash modulo N, where the key is the routing key of (ns, coll). */
  lemma ShardExactly(hash: Hash, ns: Bytes, coll: Bytes, dataShards: uint64)
    requires dataShards <= 0xffff_ffff_ffff_fffe
    ensures var shard, h := ShardForKey(hash, ns, coll, dataShards), hash(RouteKey(ns, coll));
            && (dataShards == 0 ==> shard == 2)
            && (0 < dataShards ==> 2 <= shard < 2 + dataShards && (shard - 2 - h) % dataShards == 0)
  {
    var h, n := hash(RouteKey(ns, coll)), Max(dataShards, 1);
    ShardFits(h, dataShards);
    ModBound(FIRST_DATA_SHARD + h % n, TWO64);
    SameResidue(h % n, h, n);
    ModBound(h % n, n);
  }

  lemma ModBound(h: nat, n: int)
    requires 0 < n
    ensures 0 <= h % n < n
    ensures h < n ==> h % n == h
  {
  }

  // ----- the leader table -----

  datatype ShardStatus = ShardStatus(shardId: uint64, leaderReplicaId: uint64, hasLeader: bool, isData: bool)

  /** A TierInfo call: an error (or an empty response), or the reported shards. */
  datatype TierReply = Failed | Reported(shards: seq<ShardStatus>)

  type Table = map<uint64, nat>

  /** A data shard with a leader whose replica id maps to a known core. */
  predicate Eligible(sh: ShardStatus, cores: nat) {
    sh.isData && sh.hasLeader && 1 <= sh.leaderReplicaId && 0 <= Wrap(sh.leaderReplicaId - 1) < cores
  }

  function Project(shards: seq<ShardStatus>, cores: nat): Table {
    if shards == [] then map[]
    else
      var t, sh := Project(shards[..|shards| - 1], cores), shards[|shards| - 1];
      if Eligible(sh, cores) then t[sh.shardId := Wrap(sh.leaderReplicaId - 1)] else t
  }

  /** Entry k speaks last for its shard. */
  predicate Decides(shards: seq<ShardStatus>, cores: nat, k: nat) {
    && k < |shards| && Eligible(shards[k], cores)
    && forall j | k < j < |shards| && Eligible(shards[j], cores) :: shards[j].shardId != shards[k].shardId
  }

  /** The table of a reply: a shard is in it exactly when some entry decides it, and then it maps to that entry's
      core. */
  lemma ProjectMeans(shards: seq<ShardStatus>, cores: nat)
    ensures forall s :: s in Project(shards, cores)
              <==> exists k: nat :: Decides(shards, cores, k) && shards[k].shardId == s
    ensures forall k: nat | Decides(shards, cores, k) ::
              && shards[k].shardId in Project(shards, cores)
              && Project(shards, cores)[shards[k].shardId] == shards[k].leaderReplicaId - 1 < cores
    ensures forall s | s in Project(shards, cores) :: Project(shards, cores)[s] < cores
  {
    forall k: nat | Decides(shards, cores, k)
      ensures shards[k].shardId in Project(shards, cores)
      ensures Project(shards, cores)[shards[k].shardId] == shards[k].leaderReplicaId - 1 < cores
    {
      DeciderProjects(shards, cores, k);
    }
    forall s | s in Project(shards, cores)
      ensures exists k: nat :: Decides(shards, cores, k) && shards[k].shardId == s
    {
      var k := Decider(shards, cores, s);
    }
  }

  /** A data shard's entry with a leader among the cores, numbered from 1. */
  predicate Leads(sh: ShardStatus, cores: nat) {
    sh.isData && sh.hasLeader && 1 <= sh.leaderReplicaId <= cores
  }

  /** Entry k is the last that names a leader for shard s. */
  predicate Speaks(shards: seq<ShardStatus>, cores: nat, k: nat, s: uint64) {
    && k < |shards| && Leads(shards[k], cores) && shards[k].shardId == s
    && forall j | k < j < |shards| && Leads(shards[j], cores) :: shards[j].shardId != s
  }

  /** For any number of cores that an int64 counts: a shard is in the table exactly when some entry speaks for it, and
      then it maps to the core before that entry's replica id. */
  lemma TableExactly(shards: seq<ShardStatus>, cores: nat)
    requires cores <= MAX64
    ensures forall s: uint64 :: s in Project(shards, cores) <==> exists k: nat :: Speaks(shards, cores, k, s)
    ensures forall k: nat, s: uint64 | Speaks(shards, cores, k, s) ::
              s in Project(shards, cores) && Project(shards, cores)[s] == shards[k].leaderReplicaId - 1
  {
    ProjectMeans(shards, cores);
    forall s: uint64
      ensures s in Project(shards, cores) <==> exists k: nat :: Speaks(shards, cores, k, s)
    {
      if s in Project(shards, cores) {
        var k: nat :| Decides(shards, cores, k) && shards[k].shardId == s;
        SpeaksDecides(shards, cores, k, s);
      } else if k: nat :| Speaks(shards, cores, k, s) {
        SpeaksDecides(shards, cores, k, s);
      }
    }
    forall k: nat, s: uint64 | Speaks(shards, cores, k, s)
      ensures s in Project(shards, cores) && Project(shards, cores)[s] == shards[k].leaderReplicaId - 1
    {
      SpeaksDecides(shards, cores, k, s);
    }
  }

  lemma SpeaksDecides(shards: seq<ShardStatus>, cores: nat, k: nat, s: uint64)
    requires cores <= MAX64 && k < |shards|
    ensures Speaks(shards, cores, k, s) <==> Decides(shards, cores, k) && shards[k].shardId == s
  {
    LeadsEligible(shards, cores);
  }

  lemma LeadsEligible(shards: seq<ShardStatus>, cores: nat)
    requires cores <= MAX64
    ensures forall j | 0 <= j < |shards| :: Leads(shards[j], cores) <==> Eligible(shards[j], cores)
  {
  }

  lemma {:induction false} DeciderProjects(shards: seq<ShardStatus>, cores: nat, k: nat)
    requires Decides(shards, cores, k)
    ensures shards[k].shardId in Project(shards, cores)
    ensures Project(shards, cores)[shards[k].shardId] == shards[k].leaderReplicaId - 1 < cores
  {
    var n := |shards| - 1;
    if k < n {
      DecidesFront(shards, cores, k);
      DeciderProjects(shards[..n], cores, k);
    }
  }

  lemma {:induction false} Decider(shards: seq<ShardStatus>, cores: nat, s: uint64) returns (k: nat)
    requires s in Project(shards, cores)
    ensures Decides(shards, cores, k) && shards[k].shardId == s
  {
    var n := |shards| - 1;
    if Eligible(shards[n], cores) && shards[n].shardId == s {
      k := n;
    } else {
      k := Decider(shards[..n], cores, s);
      DecidesFront(shards, cores, k);
    }
  }

  lemma DecidesFront(shards: seq<ShardStatus>, cores: nat, k: nat)
    requires shards != [] && k < |shards| - 1
    ensures var n := |shards| - 1;
            Decides(shards, cores, k)
            <==>
            && Decides(shards[..n], cores, k)
            && !(Eligible(shards[n], cores) && shards[n].shardId == shards[k].shardId)
  {
    var n := |shards| - 1;
    var front := shards[..n];
    assert forall j | 0 <= j < n :: front[j] == shards[j];
    if Decides(front, cores, k) && !(Eligible(shards[n], cores) && shards[n].shardId == shards[k].shardId) {
      forall j | k < j < |shards| && Eligible(shards[j], cores)
        ensures shards[j].shardId != shards[k].shardId
      {
        assert j < n ==> front[j] == shards[j];
      }
    }
  }

  function TableOf(reply: TierReply, cores: nat): Table {
    match reply
    case Failed => map[]
    case Reported(shards) => Project(shards, cores)
  }

  /** The first core whose reply gives a non-empty table wins; with none the old table stays. */
  function Adopted(previous: Table, replies: seq<TierReply>, cores: nat): Table {
    if replies == [] then previous
    else if TableOf(replies[0], cores) != map[] then TableOf(replies[0], cores)
    else Adopted(previous, replies[1..], cores)
  }

  lemma {:induction false} AdoptsFirst(previous: Table, replies: seq<TierReply>, cores: nat, c: nat)
    requires c <= |replies| && forall i | 0 <= i < c :: TableOf(replies[i], cores) == map[]
    ensures c < |replies| && TableOf(replies[c], cores) != map[] ==>
              Adopted(previous, replies, cores) == TableOf(replies[c], cores)
    ensures c == |replies| ==> Adopted(previous, replies, cores) == previous
  {
    if c > 0 {
      AdoptsFirst(previous, replies[1..], cores, c - 1);
    }
  }

  /** The client a write to this shard uses. */
  function Pick(t: Table, shard: uint64, cores: nat): (idx: nat)
    requires 0 < cores
    ensures idx < cores
  {
    if shard in t && t[shard] < cores then t[shard] else shard % cores
  }

  // ----- the router as an object -----

  class ShardRouter {
    const cores: nat
    const dataShards: uint64
    const refreshMin: int
    var shardLeader: Table
    var lastRefresh: int

    constructor (cores: nat, dataShards: uint64, refreshMin: int, primed: seq<TierReply>, now: int)
      requires 0 < cores == |primed|
      ensures this.cores == cores && this.refreshMin == refreshMin && this.dataShards == Max(dataShards, 1)
      ensures shardLeader == Adopted(map[], primed, cores) && lastRefresh == now
    {
      this.cores, this.refreshMin := cores, refreshMin;
      this.dataShards := if dataShards < 1 then 1 else dataShards;
      this.shardLeader, this.lastRefresh := map[], now;
      new;
      Refresh(primed, now);
    }

    predicate Stale(now: int)
      reads this
    {
      now - lastRefresh >= refreshMin
    }

    /** Rebuilds the table; replies[i] is what core i's TierInfo returns when it is asked. */
    method Refresh(replies: seq<TierReply>, now: int)
      requires |replies| == cores
      modifies this
      ensures shardLeader == Adopted(old(shardLeader), replies, cores) && lastRefresh == now
    {
      var table: Table := map[];
      var i := 0;
      while i < cores
        invariant 0 <= i <= cores && table == map[] && shardLeader == old(shardLeader)
        invariant Adopted(old(shardLeader), replies, cores) == Adopted(old(shardLeader), replies[i..], cores)
      {
        assert replies[i..][0] == replies[i] && replies[i..][1..] == replies[i + 1..];
        if replies[i].Reported? {
          table := BuildTable(replies[i].shards);
          if table != map[] {
            break;
          }
        }
        i := i + 1;
      }
      lastRefresh := now;
      if table != map[] {
        shardLeader := table;
      }
    }

    method BuildTable(shards: seq<ShardStatus>) returns (t: Table)
      ensures t == Project(shards, cores)
    {
      t := map[];
      var i := 0;
      while i < |shards|
        invariant 0 <= i <= |shards| && t == Project(shards[..i], cores)
      {
        var sh := shards[i];
        assert shards[..i + 1][..i] == shards[..i];
        i := i + 1;
        if !sh.isData || !sh.hasLeader {
          continue;
        }
        if sh.leaderReplicaId < 1 {
          continue;
        }
        var idx := Wrap(sh.leaderReplicaId - 1);
        if idx < 0 || idx >= cores {
          continue;
        }
        t := t[sh.shardId := idx];
      }
      assert shards[..i] == shards;
    }

    /** The client for (ns, coll); an unknown leader in a stale table is refreshed first. */
    method ClientForKey(hash: Hash, ns: Bytes, coll: Bytes, now: int, replies: seq<TierReply>) returns (idx: nat)
      requires 0 < cores == |replies|
      modifies this
      ensures var shard := ShardForKey(hash, ns, coll, dataShards);
              var refreshes := shard !in old(shardLeader) && now - old(lastRefresh) >= refreshMin;
              && shardLeader == (if refreshes then Adopted(old(shardLeader), replies, cores) else old(shardLeader))
              && lastRefresh == (if refreshes then now else old(lastRefresh))
              && idx < cores
              && (shard in shardLeader && shardLeader[shard] < cores ==> idx == shardLeader[shard])
              && (shard in shardLeader ==> shardLeader[shard] < cores || idx == shard % cores)
              && (shard !in shardLeader ==> idx == shard % cores)
    {
      var shard: uint64 := ShardForKey(hash, ns, coll, dataShards);
      var known := shard in shardLeader;
      if !known && Stale(now) {
        Refresh(replies, now);
        known := shard in shardLeader;
      }
      if !known || shardLeader[shard] >= cores {
        idx := shard % cores;
      } else {
        idx := shardLeader[shard];
      }
    }

    /** After a write: a failure under a live context refreshes a stale table. */
    method NoteError(failed: bool, cancelled: bool, now: int, replies: seq<TierReply>)
      requires |replies| == cores
      modifies this
      ensures var refreshes := failed && !cancelled && now - old(lastRefresh) >= refreshMin;
              && shardLeader == (if refreshes then Adopted(old(shardLeader), replies, cores) else old(shardLeader))
              && lastRefresh == (if refreshes then now else old(lastRefresh))
    {
      if !failed || cancelled {
        return;
      }
      if Stale(now) {
        Refresh(replies, now);
      }
    }

    /** A failed write, then the next write to a key of the same shard: the new leader's core is used, from any
        table. */
    method RecoverLeader(hash: Hash, ns: Bytes, coll: Bytes, failedAt: int, replies: seq<TierReply>, c: nat, k: nat,
                         nextAt: int, laterReplies: seq<TierReply>) returns (idx: nat)
      requires 0 < cores == |replies| == |laterReplies| && failedAt - lastRefresh >= refreshMin
      requires c < |replies| && replies[c].Reported? && Decides(replies[c].shards, cores, k)
      requires forall i | 0 <= i < c :: TableOf(replies[i], cores) == map[]
      requires replies[c].shards[k].shardId == ShardForKey(hash, ns, coll, dataShards)
      modifies this
      ensures idx == replies[c].shards[k].leaderReplicaId - 1
    {
      LearnsLeader(shardLeader, replies, cores, c, k);
      NoteError(true, false, failedAt, replies);
      idx := ClientForKey(hash, ns, coll, nextAt, laterReplies);
    }
  }

  /** Opens a router; null is the refusal of an empty core list. A width below 1 counts as 1. */
  method NewShardRouter(cores: nat, dataShards: int64, primed: seq<TierReply>, now: int)
    returns (router: ShardRouter?)
    requires |primed| == cores
    ensures cores == 0 <==> router == null
    ensures router != null ==>
              && fresh(router) && router.cores == cores && router.refreshMin == 1_000_000_000
              && router.dataShards == Max(dataShards, 1)
              && router.shardLeader == Adopted(map[], primed, cores) && router.lastRefresh == now
  {
    if cores == 0 {
      return null;
    }
    router := new ShardRouter(cores, if dataShards < 1 then 1 else dataShards, REFRESH_MIN_NS, primed, now);
  }

  /** Whatever table was held, the deciding entry of the first useful reply routes its shard to its leader's core. */
  lemma LearnsLeader(previous: Table, replies: seq<TierReply>, cores: nat, c: nat, k: nat)
    requires c < |replies| && replies[c].Reported? && Decides(replies[c].shards, cores, k)
    requires forall i | 0 <= i < c :: TableOf(replies[i], cores) == map[]
    ensures var sh := replies[c].shards[k];
            && 0 < cores && sh.shardId in Adopted(previous, replies, cores)
            && Pick(Adopted(previous, replies, cores), sh.shardId, cores) == sh.leaderReplicaId - 1
  {
    var sh := replies[c].shards[k];
    ProjectMeans(replies[c].shards, cores);
    assert sh.shardId in TableOf(replies[c], cores);
    AdoptsFirst(previous, replies, cores, c);
  }

  // ----- concurrent refreshes -----

  /** A refresh asks core after core without the lock, then publishes under it. */
  datatype RefreshPc = Asking(core: nat) | Publishing(table: Table)

  /** seen: every TierInfo reply any refresh received so far. */
  datatype Router = Router(cores: nat, table: Table, refreshes: map<nat, RefreshPc>, seen: seq<TierReply>)

  datatype RouterStep = Begin(t: nat) | Receive(t: nat, reply: TierReply) | Publish(t: nat)

  predicate CanStep(s: Router, a: RouterStep) {
    match a
    case Begin(t) => t !in s.refreshes
    case Receive(t, _) => t in s.refreshes && s.refreshes[t].Asking? && s.refreshes[t].core < s.cores
    case Publish(t) => t in s.refreshes && (s.refreshes[t].Publishing? || s.refreshes[t].core >= s.cores)
  }

  function StepRouter(s: Router, a: RouterStep): Router
    requires CanStep(s, a)
  {
    match a
    case Begin(t) => s.(refreshes := s.refreshes[t := Asking(0)])
    case Receive(t, reply) =>
      var next :=
        if TableOf(reply, s.cores) != map[] then Publishing(TableOf(reply, s.cores))
        else Asking(s.refreshes[t].core + 1);
      s.(refreshes := s.refreshes[t := next], seen := s.seen + [reply])
    case Publish(t) =>
      s.(table := if s.refreshes[t].Publishing? then s.refreshes[t].table else s.table, refreshes := s.refreshes - {t})
  }

  datatype RouterRun = Stuck | Live(state: Router)

  function RunFrom(s: Router, steps: seq<RouterStep>): RouterRun
    decreases |steps|
  {
    if steps == [] then Live(s)
    else if CanStep(s, steps[0]) then RunFrom(StepRouter(s, steps[0]), steps[1..])
    else Stuck
  }

  /** A run of a new router, from before its first refresh. */
  function RunRouter(cores: nat, steps: seq<RouterStep>): RouterRun {
    RunFrom(Router(cores, map[], map[], []), steps)
  }

  /** The projection of one single reply. */
  predicate OneReply(t: Table, seen: seq<TierReply>, cores: nat) {
    exists i | 0 <= i < |seen| :: t == TableOf(seen[i], cores)
  }

  predicate Coherent(s: Router) {
    && (s.table == map[] || OneReply(s.table, s.seen, s.cores))
    && (forall t | t in s.refreshes && s.refreshes[t].Publishing? :: OneReply(s.refreshes[t].table, s.seen, s.cores))
  }

  /** Under any interleaving of refreshes the table is empty or the projection of one reply, with every index in
      range. */
  lemma TableCoherence(cores: nat, steps: seq<RouterStep>)
    requires RunRouter(cores, steps).Live?
    ensures var s := RunRouter(cores, steps).state;
            && s.cores == cores && Coherent(s) && forall shard | shard in s.table :: s.table[shard] < cores
  {
    RunKeepsCoherence(Router(cores, map[], map[], []), steps);
    var s := RunRouter(cores, steps).state;
    if s.table != map[] {
      var i :| 0 <= i < |s.seen| && s.table == TableOf(s.seen[i], s.cores);
      if s.seen[i].Reported? {
        ProjectMeans(s.seen[i].shards, cores);
      }
    }
  }

  lemma {:induction false} RunKeepsCoherence(s: Router, steps: seq<RouterStep>)
    requires Coherent(s) && RunFrom(s, steps).Live?
    ensures Coherent(RunFrom(s, steps).state) && RunFrom(s, steps).state.cores == s.cores
    decreases |steps|
  {
    if steps != [] {
      StepKeepsCoherence(s, steps[0]);
      RunKeepsCoherence(StepRouter(s, steps[0]), steps[1..]);
    }
  }

  /** A refresh that nothing interleaves with publishes what the method Refresh does. */
  lemma RefreshAlone(s: Router, t: nat, replies: seq<TierReply>) returns (steps: seq<RouterStep>)
    requires t !in s.refreshes && |replies| == s.cores
    ensures RunFrom(s, steps).Live?
    ensures var s' := RunFrom(s, steps).state;
            s'.table == Adopted(s.table, replies, s.cores) && s'.refreshes == s.refreshes
  {
    var s1 := StepRouter(s, Begin(t));
    var rest := AsksOn(s1, t, replies, 0);
    assert replies[0..] == replies;
    steps := [Begin(t)] + rest;
    assert steps[1..] == rest && s1.refreshes - {t} == s.refreshes;
  }

  lemma Publishes(s: Router, t: nat)
    requires CanStep(s, Publish(t))
    ensures RunFrom(s, [Publish(t)]) == Live(StepRouter(s, Publish(t)))
  {
    assert [Publish(t)][1..] == [];
  }

  /** The rest of a refresh, from its i-th core on. */
  lemma {:induction false} AsksOn(s: Router, t: nat, replies: seq<TierReply>, i: nat) returns (steps: seq<RouterStep>)
    requires i <= |replies| == s.cores && t in s.refreshes && s.refreshes[t] == Asking(i)
    ensures RunFrom(s, steps).Live?
    ensures var s' := RunFrom(s, steps).state;
            s'.table == Adopted(s.table, replies[i..], s.cores) && s'.refreshes == s.refreshes - {t}
    decreases |replies| - i
  {
    if i == |replies| {
      steps := [Publish(t)];
      Publishes(s, t);
    } else {
      var s1 := StepRouter(s, Receive(t, replies[i]));
      var rest := [Publish(t)];
      assert replies[i..][1..] == replies[i + 1..];
      if TableOf(replies[i], s.cores) == map[] {
        rest := AsksOn(s1, t, replies, i + 1);
      } else {
        Publishes(s1, t);
      }
      steps := [Receive(t, replies[i])] + rest;
      assert steps[1..] == rest && s1.refreshes - {t} == s.refreshes - {t};
    }
  }

  lemma StepKeepsCoherence(s: Router, a: RouterStep)
    requires Coherent(s) && CanStep(s, a)
    ensures Coherent(StepRouter(s, a))
  {
    var s' := StepRouter(s, a);
    if a.Receive? {
      assert s'.seen[|s.seen|] == a.reply;
      forall t: Table | OneReply(t, s.seen, s.cores)
        ensures OneReply(t, s'.seen, s.cores)
      {
        var i :| 0 <= i < |s.seen| && t == TableOf(s.seen[i], s.cores);
        assert s'.seen[i] == s.seen[i];
      }
    }
  }
}
