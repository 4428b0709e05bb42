/** The interleaving of one cell: Spend callers, refill bodies and Return callers run concurrently, and one step is one
    atomic access, one critical section, one RPC sent, or one RPC outcome received. Every RPC may fail, be slow, or
    come back with anything: the server is not constrained here. */
module CellProtocol {
  import opened Int64
  import opened Encoding
  import opened Options
  import opened LeaseCell

  // ----- what an observer of the run sees -----

  datatype Event =
    | Drew(id: Bytes, units: int64)                       // a draw request was sent
    | Attested(id: Bytes, spent: int64)                   // a report request was sent
    | Installed(chunk: Chunk, grant: DrawResult, wall: int64, gateNow: int64, now: int64)
    | Served(id: Bytes, n: int64, now: int64, late: bool) // a Spend returned nil; late: it was called after close
    | Left(id: Bytes, remaining: int64, handed: bool)     // a chunk left the cache; handed: taken by Return
    | Fenced(now: int64)
    | Settled(id: Bytes, spent: int64)                    // a return request was sent

  type Log = seq<Event>

  /** The quantities a log adds up to. */
  datatype Meter =
    | Draws | InstalledUnits | ServedUnits | ForfeitedUnits | HandedUnits
    | ServedWithin(from: int, to: int)  // at instants from .. to
    | InstalledFor(lease: Bytes) | ServedFrom(lease: Bytes) | LeavesOf(lease: Bytes) | SettlesOf(lease: Bytes)

  function Weigh(m: Meter, e: Event): int {
    match m
    case Draws => if e.Drew? then 1 else 0
    case InstalledUnits => if e.Installed? then e.chunk.amount else 0
    case ServedUnits => if e.Served? then e.n else 0
    case ServedWithin(from, to) => if e.Served? && from <= e.now <= to then e.n else 0
    case ForfeitedUnits => if e.Left? && !e.handed then e.remaining else 0
    case HandedUnits => if e.Left? && e.handed then e.remaining else 0
    case InstalledFor(id) => if e.Installed? && e.chunk.leaseID == id then e.chunk.amount else 0
    case ServedFrom(id) => if e.Served? && e.id == id then e.n else 0
    case LeavesOf(id) => if e.Left? && e.id == id then 1 else 0
    case SettlesOf(id) => if e.Settled? && e.id == id then 1 else 0
  }

  function Total(m: Meter, log: Log): int {
    if log == [] then 0 else Total(m, log[..|log| - 1]) + Weigh(m, log[|log| - 1])
  }

  // ----- the threads -----

  datatype SpendPc =
    | Called(n: int64, late: bool)   // before the closed check
    | Checked(n: int64, late: bool)  // before the lock
    | Triggering                     // in requestRefill, before its closed check
    | Claiming                       // before the compare-and-swap

  datatype RefillPc =
    | Starting
    | Reporting(repID: Bytes, repSpent: int64, nonce: uint64)    // report sent
    | WritingBack(repID: Bytes, repSpent: int64, nonce: uint64)  // report acknowledged
    | Drawing(nonce: uint64, attempt: nat)                       // draw sent
    | Accepted(nonce: uint64, grant: DrawResult, wall: int64, gateNow: int64) // past the freshness gate
    | Done

  datatype ReturnPc = Waiting | Settling(chunks: seq<Chunk>)

  /** acquiring: Acquire's own refill body runs and the Budget is not handed out yet.
      mono: the latest instant of the holder's monotonic clock. */
  datatype Node = Node(cell: Cell, acquiring: bool, mono: int64,
                       spends: map<nat, SpendPc>, bodies: map<nat, RefillPc>, closers: map<nat, ReturnPc>,
                       log: Log)

  datatype SpendCall = Call(n: int64) | CheckClosed | LockSpend | CheckRefill | Claim(body: nat)

  datatype RefillCall =
    | Snapshot
    | ReportReply(ok: bool)
    | LockWriteBack
    | DrawReply(outcome: DrawOutcome, wall: int64)
    | LockInstall
    | Finish

  datatype CloseCall = Close | LockTake | SendReturn | EndReturn

  /** Which thread moves, and how. */
  datatype Label =
    | Spender(t: nat, spend: SpendCall)
    | Refiller(b: nat, refill: RefillCall)
    | Closer(r: nat, close: CloseCall)

  /** A step and the instant it happens at. */
  datatype Act = Act(lab: Label, now: int64)

  predicate Init(s: Node) {
    && 0 < s.mono
    && s.cell == NewCell(s.cell.rate, s.cell.burst, s.cell.chunk, s.cell.holder, s.mono)
    && s.acquiring
    && s.spends == map[] && s.bodies == map[0 := Starting] && s.closers == map[] && s.log == []
  }

  predicate SpendEnabled(s: Node, t: nat, call: SpendCall) {
    match call
    case Call(n) => !s.acquiring && t !in s.spends && 0 < n
    case CheckClosed => t in s.spends && s.spends[t].Called?
    case LockSpend => t in s.spends && s.spends[t].Checked? && 0 < s.spends[t].n
    case CheckRefill => t in s.spends && s.spends[t].Triggering?
    case Claim(body) => t in s.spends && s.spends[t].Claiming? && body !in s.bodies
  }

  predicate RefillEnabled(s: Node, b: nat, call: RefillCall) {
    && b in s.bodies
    && match call
       case Snapshot => s.bodies[b].Starting?
       case ReportReply(_) => s.bodies[b].Reporting?
       case LockWriteBack => s.bodies[b].WritingBack?
       case DrawReply(_, _) => s.bodies[b].Drawing?
       case LockInstall => s.bodies[b].Accepted?
       case Finish => s.bodies[b].Done?
  }

  predicate CloseEnabled(s: Node, r: nat, call: CloseCall) {
    match call
    case Close => !s.acquiring && r !in s.closers
    case LockTake => r in s.closers && s.closers[r].Waiting?
    case SendReturn => r in s.closers && s.closers[r].Settling? && s.closers[r].chunks != []
    case EndReturn => r in s.closers && s.closers[r].Settling? && s.closers[r].chunks == []
  }

  predicate Enabled(s: Node, act: Act) {
    && s.mono <= act.now
    && match act.lab
       case Spender(t, call) => SpendEnabled(s, t, call)
       case Refiller(b, call) => RefillEnabled(s, b, call)
       case Closer(r, call) => CloseEnabled(s, r, call)
  }

  predicate Holds(c: Cell, id: Bytes) {
    (c.cur.Some? && c.cur.value.leaseID == id) || (c.next.Some? && c.next.value.leaseID == id)
  }

  function Departed(ch: Option<Chunk>, after: Cell, handed: bool): Log {
    if ch.Some? && !Holds(after, ch.value.leaseID) then [Left(ch.value.leaseID, ch.value.remaining, handed)] else []
  }

  /** The chunks cached before and not after. */
  function Departures(before: Cell, after: Cell, handed: bool): Log {
    Departed(before.cur, after, handed) + Departed(before.next, after, handed)
  }

  /** A spend's events: what left the cache, the fence, the units served. */
  function SpendEvents(c: Cell, o: Outcome, n: int64, now: int64, late: bool): Log {
    Departures(c, o.cell, false)
    + (if Fences(c, now) then [Fenced(now)] else [])
    + (if o.verdict == Success && o.cell.cur.Some? then [Served(o.cell.cur.value.leaseID, n, now, late)] else [])
  }

  function AfterSpend(s: Node, t: nat, now: int64): Node
    requires t in s.spends && s.spends[t].Checked? && 0 < s.spends[t].n
  {
    var pc := s.spends[t];
    var o := SpendLocked(s.cell, pc.n, now);
    s.(cell := o.cell,
       spends := if o.trigger then s.spends[t := Triggering] else s.spends - {t},
       log := s.log + SpendEvents(s.cell, o, pc.n, now, pc.late))
  }

  /** Enters the RPC of a draw. */
  function StartDraw(s: Node, b: nat, nonce: uint64, attempt: nat): Node {
    s.(bodies := s.bodies[b := Drawing(nonce, attempt)],
       log := s.log + [Drew(MakeLeaseID(s.cell.holder, nonce), s.cell.chunk)])
  }

  function AfterSnapshot(s: Node, b: nat): Node {
    var due := ReportDue(s.cell);
    if s.cell.next.Some? then s.(bodies := s.bodies[b := Done])
    else if due.Some? then
      s.(bodies := s.bodies[b := Reporting(due.value.0, due.value.1, s.cell.nonce)],
         log := s.log + [Attested(due.value.0, due.value.1)])
    else StartDraw(s, b, s.cell.nonce, 0)
  }

  function AfterWriteBack(s: Node, b: nat): Node
    requires b in s.bodies && s.bodies[b].WritingBack?
  {
    var pc := s.bodies[b];
    StartDraw(s.(cell := WriteBack(s.cell, pc.repID, pc.repSpent)), b, pc.nonce, 0)
  }

  function AfterReply(s: Node, b: nat, outcome: DrawOutcome, wall: int64, now: int64): Node
    requires b in s.bodies && s.bodies[b].Drawing?
  {
    var pc := s.bodies[b];
    match Rule(outcome, wall)
    case GiveUp => s.(bodies := s.bodies[b := Done])
    case Accept(gr) => s.(bodies := s.bodies[b := Accepted(pc.nonce, gr, wall, now)])
    case Redraw =>
      if pc.attempt + 1 < MAX_REFILL_ATTEMPTS then StartDraw(s, b, Bump(pc.nonce), pc.attempt + 1)
      else s.(bodies := s.bodies[b := Done])
  }

  function AfterInstall(s: Node, b: nat, now: int64): Node
    requires b in s.bodies && s.bodies[b].Accepted?
  {
    var pc := s.bodies[b];
    var drawn := FreshChunk(s.cell.holder, pc.nonce, pc.grant, now);
    var c' := Install(s.cell, pc.nonce, pc.grant, now);
    s.(cell := c',
       bodies := s.bodies[b := Done],
       log := s.log + [Installed(drawn, pc.grant, pc.wall, pc.gateNow, now)]
              + Departures(s.cell.(next := Some(drawn)), c', false))
  }

  function AfterTake(s: Node, r: nat): Node {
    var c' := s.cell.(cur := None, next := None);
    s.(cell := c',
       closers := s.closers[r := Settling(Held(s.cell))],
       log := s.log + Departures(s.cell, c', true))
  }

  function AfterSend(s: Node, r: nat): Node
    requires r in s.closers && s.closers[r].Settling? && s.closers[r].chunks != []
  {
    var ch, rest := s.closers[r].chunks[0], s.closers[r].chunks[1..];
    s.(closers := s.closers[r := Settling(rest)],
       log := if |ch.leaseID| > 0 then s.log + [Settled(ch.leaseID, ch.spent)] else s.log)
  }

  function SpendStep(s: Node, t: nat, call: SpendCall, now: int64): Node
    requires SpendEnabled(s, t, call)
  {
    match call
    case Call(n) => s.(spends := s.spends[t := Called(n, s.cell.closed)])
    case CheckClosed =>
      if s.cell.closed then s.(spends := s.spends - {t})
      else s.(spends := s.spends[t := Checked(s.spends[t].n, s.spends[t].late)])
    case LockSpend => AfterSpend(s, t, now)
    case CheckRefill =>
      if s.cell.closed then s.(spends := s.spends - {t}) else s.(spends := s.spends[t := Claiming])
    case Claim(body) =>
      if s.cell.refilling then s.(spends := s.spends - {t})
      else s.(cell := s.cell.(refilling := true), spends := s.spends - {t}, bodies := s.bodies[body := Starting])
  }

  function RefillStep(s: Node, b: nat, call: RefillCall, now: int64): Node
    requires RefillEnabled(s, b, call)
  {
    match call
    case Snapshot => AfterSnapshot(s, b)
    case ReportReply(ok) =>
      var pc := s.bodies[b];
      if ok then s.(bodies := s.bodies[b := WritingBack(pc.repID, pc.repSpent, pc.nonce)])
      else StartDraw(s, b, pc.nonce, 0)
    case LockWriteBack => AfterWriteBack(s, b)
    case DrawReply(outcome, wall) => AfterReply(s, b, outcome, wall, now)
    case LockInstall => AfterInstall(s, b, now)
    case Finish =>
      if s.acquiring then s.(bodies := s.bodies - {b}, acquiring := false)
      else s.(bodies := s.bodies - {b}, cell := s.cell.(refilling := false))
  }

  function CloseStep(s: Node, r: nat, call: CloseCall): Node
    requires CloseEnabled(s, r, call)
  {
    match call
    case Close => s.(cell := s.cell.(closed := true), closers := s.closers[r := Waiting])
    case LockTake => AfterTake(s, r)
    case SendReturn => AfterSend(s, r)
    case EndReturn => s.(closers := s.closers - {r})
  }

  function Step(s: Node, act: Act): Node
    requires Enabled(s, act)
  {
    var s1 := s.(mono := act.now);
    match act.lab
    case Spender(t, call) => SpendStep(s1, t, call, act.now)
    case Refiller(b, call) => RefillStep(s1, b, call, act.now)
    case Closer(r, call) => CloseStep(s1, r, call)
  }

  // ----- runs -----

  function Run(s: Node, acts: seq<Act>): Option<Node> {
    if acts == [] then Some(s)
    else
      var before := Run(s, acts[..|acts| - 1]);
      if before.Some? && Enabled(before.value, acts[|acts| - 1])
      then Some(Step(before.value, acts[|acts| - 1])) else None
  }

  ghost predicate Reachable(s: Node) {
    exists s0: Node, acts: seq<Act> :: Init(s0) && Run(s0, acts) == Some(s)
  }
}
