# WaveSpan SDK: leased budgets, shard routing, scans, values

A Dafny 4.11 model of the parts of the WaveSpan Go SDK where a mistake costs money or data: the node-side
leased-budget cache (`leasedbudget.go`), the shard router (`shardaware.go`), the resumable scan (`kv.go`) and the Cypher
value conversion (`value.go`). `dafny verify dfyconfig.toml` checks the whole project.

## How it is built

**The lease cache, three times.** `LeaseCell` gives each locked section of a cell as a function on a value `Cell`.
`BudgetCells` has the objects the program updates in place, and proves every method equal to its function.
`CellProtocol` is the concurrent program: any number of Spend callers, refill bodies and Return callers, where one step is
one atomic access, one critical section, one RPC sent or one RPC outcome received. RPCs may fail, arrive late or answer
anything. Every step appends to a log, and the theorems speak about logs of reachable states.

| file | content |
|---|---|
| `Int64.dfy`, `Options.dfy`, `Sums.dfy` | Go's 64-bit integers with wrap-around and truncating division; an optional value; sums |
| `Encoding.dfy` | lease ids and routing keys |
| `TokenBucket.dfy` | the pacing gate's arithmetic |
| `LeaseCell.dfy`, `BudgetCell.dfy` | the locked sections as functions; the same as methods on objects |
| `CellFacts.dfy` | what each locked section does, in plain integers and literal units |
| `CellProtocol.dfy` | the interleaving of one cell |
| `CellLedger.dfy`, `CellInvariant.dfy`, `CellSteps.dfy`, `CellTiming.dfy`, `CellPacing.dfy` | the invariant and its steps |
| `CellTheorems.dfy`, `StopEarly.dfy` | what holds in every run of one cell |
| `CellRuns.dfy`, `CellExact.dfy` | runs built step by step; where the bounds end |
| `CellShutdown.dfy`, `CellClosing.dfy` | what a close stops; exactly what a closed cell may still serve |
| `CellDraws.dfy`, `Exposure.dfy`, `ExposureRuns.dfy` | what a cell draws; what its crash strands at the pool; runs that strand more than promised |
| `CellAlone.dfy` | the protocol's steps, without interleaving, against the methods of `BudgetCells` |
| `EscrowPool.dfy`, `Escrow.dfy`, `Reclaim.dfy` | the pool's contract; many cells on one pool; forced expiry after the grace |
| `ShardRouter.dfy`, `ScanStream.dfy`, `CypherValue.dfy` | the other three components |

**The environment.** The pool's server is not part of the repository. `EscrowPool` follows its documented contract
(`budget.go:119-159`, `internal/gen/wavespan/v1/budget.pb.go:688-690`): a grant saturates and is idempotent per lease id,
a report is a max fold, a return credits the remainder, a forced expiry debits the unreported tail, a settled id stays
settled. In `Escrow` a request once sent may be processed at any later time, any number of times, or never; a reply may
reach its draw late or never. Holders are distinct and of equal length.

**Assumptions.** The holder's clock is positive and does not step back. A locked section happens at its one clock reading.
Statements about runs hold below 2^64 draws per cell, where the uint64 nonce wraps. The stop-early statements
(`StopEarly`, `Reclaim`) take a `Slack`: how far the holder's wall clock may lag the leader at the gate, how long the gate
and the install may lie apart, and how much the leader's clock may gain on the holder's over any stretch (`KeepsUp`). All
three enter the bound. They also take the transit `wall - grantedMs` not to exceed the int64 range and the deadline not to
fall below it (`WellTimed`); `StopEarly.GateExact` and `StopEarly.DeadlineExact` say exactly when the code's own arithmetic
agrees with the unbounded one.

## Where the code does not keep a promise everywhere

Each failure has a run or an input that shows it and, but for the typed slices, a condition under which the promise holds
and outside which it fails.

- The pacing comment calls accrual overflow-safe (`leasedbudget.go:355`, `leasedbudget.go:367`). The guard
  `(burst/rate + 1) * 10^9` is itself an int64 product. When it overflows, a small gap fills the whole bucket, and two
  bursts pass in a window that earned less than one: `CellExact.TwoBurstsServed` builds that run of a cell for every such
  rate and burst. The rate bound over windows holds in all runs exactly when that product fits
  (`CellExact.CellsPacedExact`), equality with the simple accrual exactly when the largest product of the partial branch
  fits (`TokenBucket.AccrualRefinesSimple`), and the shortfall bound exactly when neither that product nor its sum wraps
  (`TokenBucket.AccrualShortfall`).
- The bucket can go negative, and then paces out every spend. With `WithRate(10^10)` and a burst of 10^10, an emptied
  bucket holds -8946744073 tokens 0.95 s later (`TokenBucket.NegativeExample`). It stays non-negative in all runs exactly
  when the partial refill does not wrap, or the rate is 2^63 - 1 and the burst at most (2^63 - 1) - (2^63 - 1)/10^9
  (`CellExact.CellsNonNegativeExact`).
- The deadline arithmetic wraps. The stored deadline never exceeds the intended one exactly when the intended one is not
  below the int64 range (`StopEarly.DeadlineExact`); a wrap in the other direction only stops earlier.
- Return's comment says that no further Spend serves (`leasedbudget.go:253-254`). A Spend past its closed check may still
  be served (`CellShutdown.ServedAfterClose`). With none past its check at the close nothing is served any more, whatever
  refills still run (`CellShutdown.QuietClose`). In general a closed cell serves in some continuation exactly when it offers
  a Spend past its check what that asks for (`CellClosing.CloseExact`): what its cache covers; what a refill past the gate
  is about to install; or, while a refill may still draw, anything the bucket pays for, because the server chooses the
  grant and another Return can clear a chunk that is in the way. In every case a Spend called after the close is never
  served, and a settlement carries everything its lease ever serves.
- A crash is said to waste at most two chunks (`leasedbudget.go:96-97`). It strands what the cell caches and what the pool
  granted to draws whose replies were lost, refused as stale or are still on their way. With every grant within its request
  that can be more than two chunks once a draw is redrawn under a new id: with d ids tried since the latest install
  it is at most d + 1 chunks, five in all runs (`Exposure.StrandedAtMost`, `Exposure.StrandedAlways`), and that many in some
  run (`ExposureRuns.CrashStrands`). The two-chunk promise holds in all runs exactly for d = 1
  (`ExposureRuns.StrandedExact`). Leases passed over by a later install also stay at the pool until it expires them: a cell
  is granted at most d leases for each it installs, and d more (`Exposure.LeasesPerInstall`).
- The cache alone stays within two chunks, if grants are no larger than requested, which the client does not check: with
  grants of up to G units that holds in all runs exactly when G is at most the chunk (`CellExact.ExposureExact`).
- A routing key truncates lengths to 32 bits: it decodes exactly when both parts are shorter than 2^32 bytes
  (`Encoding.RouteKeyDecodes`), and two different pairs share a key beyond (`Encoding.RouteKeyCollides`).
- `firstDataShard + hash mod N` stays in its range exactly when N <= 2^64 - 2 (`ShardRouting.ShardRangeExact`).
- The conversion's comment promises typed slices (`value.go:61-62`); the code refuses them, and so does the model.

## Model

| member | source | states |
|---|---|---|
| Escrow.NoOverspend | leasedbudget.go:18-23 | Any number of cells on one pool, any interleaving of spends, refills, returns and forced expiries, any loss, delay or duplication of requests, replies lost or delayed: all units ever served stay within spent + leasedOut = cap - available, and are never fewer than the pool's reported spend |
| Escrow.ReconcileKeepsTruth | budget.go:161-166 | Reconcile's clamp to [spentReported, cap] never moves the true total of served units |
| Reclaim.ReclaimsLate | leasedbudget.go:15-23 | Once the grace of every reply about a timed lease is over and the pool expires it by force, no later move of any run serves a unit of it |
| Escrow.FoldsFit | budget.go:134-151 | Every report and settlement any cell ever sends names a lease the pool granted to that cell, lies between 0 and its grant, and a settlement equals what the lease has served, so the pool never has a reason to refuse one |
| EscrowPool.GrantConserves | budget.go:119-132 | A grant under a new id gives the requested units, or all that is available, and keeps cap = available + leasedOut + spent with each part equal to the sum over leases |
| EscrowPool.ReportConserves | budget.go:134-146 | A report raises a live lease to the reported spend, never down and never above its grant, and conserves |
| EscrowPool.ReturnConserves | budget.go:148-159 | A return of at least the booked spend books it, settles the lease and credits exactly the rest; and conserves |
| EscrowPool.ExpireConserves | internal/gen/wavespan/v1/budget.pb.go:688-691 | A forced expiry debits the tail, settles the lease and leaves the available units and the reported spend alone; and conserves |
| EscrowPool.FoldsAreIdempotent | budget.go:134-137 | Repeated or out-of-order reports fold to the largest, before a return too |
| EscrowPool.SettledStays | budget.go:148-159 | An accepted return and a forced expiry settle a lease, and every report, return or expiry of any value after that is a no-op |
| CellTheorems.SingleFlight | leasedbudget.go:389-496 | In every interleaving at most one refill body runs after the synchronous fill, its install finds next free, cur empty implies next empty, and a buffered chunk is untouched and positive |
| CellTheorems.InstalledOnce | leasedbudget.go:439-495 | Installed nonces strictly increase, the committed nonce follows the latest install, and every draw names one of the four ids from there on, so a refill that installs nothing is redrawn under the same ids |
| Exposure.LeasedOnce | leasedbudget.go:439-495 | At the pool: no cell is granted two leases under one nonce, and under nonces it may still install at most four, of a chunk each, however many refills gave up |
| CellTheorems.CellConservation | leasedbudget.go:302-343 | Installed = served + cached + forfeited + handed to Return; per chunk remaining + spent = amount, 0 <= reported <= spent, and spent is what the log shows served; no lease serves more than it was installed with |
| CellTheorems.ReturnTellsTheTruth | leasedbudget.go:258-288 | A settlement carries exactly the units its lease serves in the whole run, even with concurrent Returns, and no lease is settled twice |
| CellTheorems.NoServiceAfterClose | leasedbudget.go:296-298 | A Spend called after closed is set never serves |
| CellShutdown.QuietClose | leasedbudget.go:258-298 | With no Spend past its closed check at the close, no continuation serves anything |
| CellShutdown.PassedMayServe | leasedbudget.go:296-343 | A Spend past its check that the cache can serve is served in some continuation of the close |
| CellClosing.CloseExact | leasedbudget.go:258-343 | A closed cell in any state, refills running or not, serves in some continuation if and only if it offers a Spend past its check what it asks for, by tests on the cache, the bucket, the fence, the clock and the body's grant (if alone for a pacing whose partial refill wraps) |
| CellShutdown.ServedAfterClose | leasedbudget.go:296-343 | A run in which a Spend is served after the close |
| CellTheorems.NeverServedAgain | leasedbudget.go:302-400 | A lease that left the cache by drain, expiry, fence or Return never serves again |
| CellTheorems.DeadlineAndFence | leasedbudget.go:302-343 | Every serve is before its lease's deadline; with an echoed budget of maxPauseMs ms that fits int64 as ns, no serve follows the latest serve, fence or install by more than it, and every fence does; without an echoed budget or an anchor there is no fence |
| Exposure.StrandedAtMost | leasedbudget.go:96-100 | In every run of any number of cells on the pool, cached units plus pending leases stay within d + 1 chunks, when no draw goes further than d ids on from the latest install |
| Exposure.StrandedAlways | leasedbudget.go:96-100 | So a crash strands at most five chunks in any run |
| Exposure.LeasesPerInstall | leasedbudget.go:456-495 | A cell is granted at most d leases for each one it installs, and d more |
| ExposureRuns.CrashStrands | leasedbudget.go:466-475 | For every chunk size and every d up to four a run in which it strands more than d chunks, and d + 1 below the largest chunk size, with every grant within its request |
| ExposureRuns.StrandedExact | leasedbudget.go:96-100 | The two-chunk promise holds in all runs if and only if d = 1: no draw is ever redrawn under a new id |
| CellTheorems.BoundedExposure | leasedbudget.go:239-251 | While no grant exceeds its request, cached units plus the draw in flight stay within two chunks, and so does the hint |
| CellExact.ExposureExact | leasedbudget.go:239-251 | With grants of at most G units the two-chunk bound on cached units holds in all runs if and only if G <= chunk |
| CellExact.OverExposed | leasedbudget.go:476-484 | For every G above the chunk, a run that caches more than two chunks |
| CellTheorems.RateBound | leasedbudget.go:316-334 | In every window of every run served units stay within burst + rate * window / 10^9, when the full-refill gap fits int64 |
| CellExact.CellsPacedExact | leasedbudget.go:316-378 | The window bound holds in all runs of all cells of a rate and burst if and only if the full-refill gap fits int64 |
| CellExact.TwoBurstsServed | leasedbudget.go:367-370 | Otherwise a run of a cell, two spends with a refill between, serves two bursts in a window that earned less than one |
| CellExact.CellsNonNegativeExact | leasedbudget.go:356-378 | The bucket stays non-negative in all runs of all cells of a rate and burst if and only if LevelFits, a test on rate and burst |
| CellExact.DrivenNegative | leasedbudget.go:371-375 | Otherwise a run of a cell leaves it with a negative bucket |
| CellTheorems.TokensInRange | leasedbudget.go:356-378 | The bucket never exceeds its ceiling in any run, and never goes negative when LevelFits; CellExact has the converse |
| CellTheorems.RunKeepsInvariant | leasedbudget.go:292-496 | Every run keeps the whole invariant the theorems above are read from |
| StopEarly.StopsEarly | leasedbudget.go:469-484 | Everything served from a timed lease is served before leader time grantedMs + ttlMs + eps + delay + drift, for clocks within that slack |
| StopEarly.DeadlineExact | leasedbudget.go:478-483 | The wrapped deadline is never later than the unbounded one exactly when the latter is not below the int64 range |
| TokenBucket.LevelExact | leasedbudget.go:356-378 | No accrual takes a level between empty and full below zero if and only if LevelFits |
| TokenBucket.NegativeLevel | leasedbudget.go:371-375 | Otherwise an empty or a full bucket goes negative after some gap |
| TokenBucket.NegativeExample | leasedbudget.go:371-375 | A concrete rate, burst and gap, with the negative level they give |
| TokenBucket.AccrueIdles | leasedbudget.go:356-366 | Without a rate nothing accrues, and a clock that stands still or steps back only moves the anchor |
| TokenBucket.AccrueSplit | leasedbudget.go:356-378 | From a level between empty and full, with a partial refill that does not wrap, accruing in two steps never credits more than accruing once |
| TokenBucket.RateBoundExact | leasedbudget.go:316-378 | The window bound holds for all sequences of paced spends from any level if and only if the full-refill gap fits int64 |
| CellFacts.AcquireFacts | leasedbudget.go:185-229 | Every default and start value of a cell, and its low watermark, a quarter of a chunk or one unit |
| CellFacts.SpendResult | leasedbudget.go:300-351 | When a spend is fenced, paced out, served or refused, by plain comparisons on clock, budget, level, deadlines and remainders, and when it asks for a refill |
| CellFacts.SpendEffect | leasedbudget.go:300-400 | What it leaves: chunks dropped, promoted and debited, the level, the anchor; a fence empties the cache exactly over a pause longer than the budget |
| CellFacts.InstallFacts | leasedbudget.go:476-493 | The drawn chunk with its stop instant in ns, its place in the buffers, the fence budget of maxPauseMs ms, the anchor and the nonce |
| LeaseCell.SpendPaces | leasedbudget.go:316-334 | To the bucket, every spend that no fence stops is one such paced spend, funded exactly when its source chunk covers it |
| TokenBucket.TwoBursts | leasedbudget.go:367-370 | Otherwise there is a run of two spends that exceeds it |
| TokenBucket.AccrualRefinesSimple | leasedbudget.go:356-378 | The guarded accrual equals min(burst, tokens + rate * elapsed / 10^9) at every level and gap if and only if the largest partial product fits |
| TokenBucket.NoIntermediateOverflow | leasedbudget.go:367-376 | Then no int64 intermediate wraps |
| TokenBucket.SumBoundFits | leasedbudget.go:367-368 | burst + rate <= (2^63 - 1) / 10^9 suffices |
| TokenBucket.AccrualShortfall | leasedbudget.go:367-377 | Over k accruals below the ceiling the credit is what the span earns, short by at most k - 1, for all runs if and only if the partial refill does not wrap |
| TokenBucket.WrappingRefill | leasedbudget.go:371-375 | Otherwise one accrual already credits less than its gap earned |
| LeaseCell.DueAgain | leasedbudget.go:433-437 | With nothing unreported, a report becomes due exactly by a served spend, and claims all that its chunk has served |
| LeaseCell.RefillCommitsOnce | leasedbudget.go:456-495 | A refill installs exactly the first of four draws whose id was not settled before and whose grant is not stale, if it carries units, under the nonce that many steps on; otherwise it changes nothing |
| LeaseCell.DrawsUseDistinctIds | leasedbudget.go:456-474 | The draws of one refill name pairwise different leases, across the uint64 wrap too |
| Encoding.LeaseIDInjective | leasedbudget.go:525-533 | For equal-length holders two lease ids agree exactly when holder and nonce do |
| Encoding.LeaseIDDecodes | leasedbudget.go:528-533 | The nonce reads back from the id |
| Encoding.BigEndianAt | shardaware.go:45-49 | Every byte of a length prefix or a nonce is its digit in base 256, the most significant first |
| Encoding.EncodingExample | shardaware.go:36-50 | The bytes of a small routing key and of a small lease id |
| BudgetCells.BudgetCell.constructor | leasedbudget.go:185-214 | Acquire's cell before its first fill, with every default |
| BudgetCells.BudgetCell.Spend | leasedbudget.go:292-352 | The in-place method has exactly the result and new state of the section the theorems use, with the no-op and closed cases |
| BudgetCells.BudgetCell.ServeLocked | leasedbudget.go:325-351 | Promote, debit and trigger, in place |
| BudgetCells.BudgetCell.AccrueTokensLocked | leasedbudget.go:356-378 | Branch by branch, equal to the accrual the bounds are about |
| BudgetCells.BudgetCell.PromoteLocked | leasedbudget.go:389-400 | Equal to the promotion function, on the objects themselves |
| BudgetCells.BudgetCell.RequestRefill | leasedbudget.go:404-417 | Starts a body exactly when open and none is claimed |
| BudgetCells.BudgetCell.InstallLocked | leasedbudget.go:476-494 | Equal to the install section |
| BudgetCells.BudgetCell.RefillOnce | leasedbudget.go:424-496 | The redraw loop equals the uninterrupted refill that RefillCommitsOnce characterises |
| CellAlone.BodyAlone | leasedbudget.go:424-496 | The refill body of the interleaving, when nothing interleaves, leaves the cell that RefillOnce leaves |
| BudgetCells.BudgetCell.Remaining | leasedbudget.go:239-251 | The sum of the cached units, as an int64 |
| BudgetCells.BudgetCell.TakeChunks | leasedbudget.go:267-276 | Empties the cache and hands over exactly the held chunks, cur first |
| BudgetCells.BudgetCell.Return | leasedbudget.go:258-288 | Closes, empties, sends the held leases with their spends in order, and reports the first settlement error |
| CellAlone.ReturnAlone | leasedbudget.go:258-288 | The Return of the interleaving, when nothing interleaves, does and sends the same |
| BudgetCells.Settle | leasedbudget.go:278-288 | One settlement per chunk with a lease id; the error is the first one, absent when none failed |
| Encoding.RouteKeyDecodes | shardaware.go:36-50 | A key followed by anything decodes back to (ns, coll) if and only if both are shorter than 2^32 bytes |
| Encoding.RouteKeyPrefixFree | shardaware.go:38-50 | Below that length one key is a prefix of another exactly when the pairs are equal |
| Encoding.RouteKeyCollides | shardaware.go:45-50 | At 2^32 bytes two different pairs share a key |
| ShardRouting.ShardRangeExact | shardaware.go:27-34 | Every hash lands in [2, 2 + N) if and only if N <= 2^64 - 2 |
| ShardRouting.ShardExactly | shardaware.go:19-34 | For such N the shard of (ns, coll) lies in [2, 2 + N) and, less 2, is congruent to the hash of their routing key modulo N; N = 0 counts as 1 |
| ShardRouting.SharedShard | shardaware.go:27-34 | Two hashes share a shard exactly when they agree modulo N (N below 1 counts as 1), in every width |
| ShardRouting.TableExactly | shardaware.go:163-177 | A shard is in a reply's table exactly when some data entry with a leader among the cores, numbered from 1, speaks last for it, and then maps to the core before that number |
| ShardRouting.ProjectMeans | shardaware.go:163-177 | The same for any number of cores, by the code's own eligibility test |
| ShardRouting.AdoptsFirst | shardaware.go:157-189 | The first useful reply gives the table; with none the old table stays |
| ShardRouting.TableCoherence | shardaware.go:153-190 | Under any interleaving of refreshes the table is empty or one single reply's projection, all indices in range |
| ShardRouting.RefreshAlone | shardaware.go:153-190 | The refresh of that interleaving, when nothing interleaves, publishes what the method Refresh does |
| ShardRouting.LearnsLeader | shardaware.go:112-133 | From any table, the deciding entry of the first useful reply routes its shard to core R - 1 |
| ShardRouting.ShardRouter.RecoverLeader | shardaware.go:112-148 | A failed write under a live context and a stale table makes the next write to any key of the shard use the new leader's core |
| ShardRouting.NewShardRouter | shardaware.go:73-110 | Refuses exactly an empty core list; otherwise clamps N, sets the floor between refreshes to one second and primes the table |
| ShardRouting.ShardRouter.constructor | shardaware.go:101-109 | The router of a non-empty core list, primed |
| ShardRouting.ShardRouter.Refresh | shardaware.go:153-190 | The loop over cores publishes what AdoptsFirst characterises, and always restarts the interval |
| ShardRouting.ShardRouter.BuildTable | shardaware.go:163-177 | The loop over entries builds the projection that ProjectMeans characterises |
| ShardRouting.ShardRouter.ClientForKey | shardaware.go:115-133 | Refreshes exactly when the leader is unknown and the table as old as the floor, and returns the leader's client or the one of the shard number modulo the cores |
| ShardRouting.ShardRouter.NoteError | shardaware.go:137-148 | Refreshes exactly after a failure under a live context with a stale table |
| ScanStream.ScanLosesNothing | kv.go:141-259 | Over any sequence of partial iterations the yielded rows are exactly the row frames consumed, in order, a replayed first frame included; a recorded trailer is the first end frame, and no row comes from beyond it |
| ScanStream.ScanIsComplete | kv.go:214-259 | An iteration that neither breaks nor meets an error leaves all rows before the first trailer or EOF yielded, and the trailer recorded exactly when that frame is one |
| ScanStream.IterateObeys | kv.go:214-259 | An iteration stops exactly at the row its consumer breaks on, at an error, which it reports, or at the end, and never asks on after a break |
| ScanStream.ExhaustedAtEnd | kv.go:229-257 | An exhausted scan stands at the first trailer or EOF |
| ScanStream.OpensExactly | kv.go:154-174 | Opening fails exactly on a leading error, with its code, is exhausted exactly on a leading EOF, takes mode and completeness from a leading header and keeps any other leading frame |
| ScanStream.OpenScan | kv.go:154-174 | The method does the same |
| ScanStream.ScanResult.Rows | kv.go:214-242 | The iterator loop yields and leaves exactly what the iteration function says |
| ScanStream.ScanResult.Dispatch | kv.go:246-259 | Yields a row, records a trailer, ignores the rest, and says whether to go on |
| CypherValue.ToGoByPlace | value.go:24-58 | The conversion to Go has the places of the wire value, and at each the Go type and value that stand for it: an integer as the int64 of that value |
| CypherValue.ToWireByPlace | value.go:63-124 | The conversion to the wire of an accepted value has its places, and at each what it is sent as: an integer as itself up to 2^63 - 1, less 2^64 beyond |
| CypherValue.WireRoundTrip | value.go:24-120 | For every wire value, to Go and back succeeds and gives its canonical form |
| CypherValue.RoundTripExact | value.go:24-120 | It gives the value itself exactly when some Go value is sent as it |
| CypherValue.FailsExactly | value.go:63-120 | A Go value is refused if and only if some path into it reaches an unsupported type |
| CypherValue.GoRoundTrip | value.go:24-120 | Every accepted Go value comes back with integers as int64, float32 as float64 and nil slices and maps as empty ones |
| CypherValue.SentAlike | value.go:63-120 | Two accepted Go values have the same wire form if and only if they agree after widening |
| CypherValue.Stored | value.go:122-124 | An integer keeps its value exactly when it fits int64; an unsigned one beyond comes back less 2^64 |

## Left out

- gRPC calls, dialing, TLS, metadata, contexts and time-outs: each call is a reply chosen by the environment.
- The Go scheduler beyond the interleaving of critical sections, and a pause inside one.
- `nowMono`'s system calls: a positive, non-decreasing clock is assumed.
- `randomHolder`'s entropy: distinct holders of equal length are assumed.
- The FNV-1a arithmetic: the hash is any function to uint64.
- The server: replication, leader election, collection of tombstones, the holder check of reports and returns.
- Reconcile: whether available stays non-negative after it is not decided by what the repository shows.
- The fields `selfGuardMs` and `ttlMs` of a cell, which nothing reads, and the nil hooks of unit tests.
- Availability (a live chunk smaller than the request blocks it) and refill progress, which the code does not promise.
- The error texts, and which unsupported leaf an error names.
- The bounded wait of Return for a refill: Return may take the chunks at any time, with or without one running.
- Dial failures of a new router: every core's client is taken to open.
- CellClosing.CloseExact: for a pacing whose partial refill wraps only the if direction is stated, because several accruals may then credit more than one.
- StopEarly.StopsEarly: a transit beyond the int64 range or a deadline below it is excluded, with the exact conditions in GateExact and DeadlineExact.
- Go's float32 to float64 conversion: any function on the bits.
- Rate-limited refreshes under concurrency and a proactive refresh of the leader table, which the code does not do.
- The thin wrappers: backups, collections, vectors, key-value puts and gets, options, errors, and the examples.
