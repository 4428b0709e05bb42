/** The escrow pool as its documented contract describes it: saturating idempotent grants, max-fold reports, returns
    that credit the remainder, forced expiries that debit the unreported tail. A settled lease stays as a tombstone. */
module EscrowPool {
  import opened Int64
  import opened Encoding
  import opened Sums

  /** grantee names the holder the lease was granted to; booked is the lease's share of the pool's spent units, attested
      its share of the reported ones. */
  datatype Lease = Lease(id: Bytes, grantee: nat, amount: int, booked: int, attested: int, live: bool)

  datatype Pool = Pool(cap: int, available: int, leasedOut: int, spent: int, spentReported: int, leases: seq<Lease>)

  function NewPool(cap: nat): Pool {
    Pool(cap, cap, 0, 0, 0, [])
  }

  predicate Known(p: Pool, id: Bytes) {
    exists j | 0 <= j < |p.leases| :: p.leases[j].id == id
  }

  // ----- the operations -----

  function GrantUnits(p: Pool, amount: int): int {
    Max(0, Min(amount, p.available))
  }

  /** A grant under an id the pool has not seen; with nothing to give it grants 0 and keeps no lease. */
  function Grant(p: Pool, id: Bytes, grantee: nat, amount: int): Pool {
    var g := GrantUnits(p, amount);
    if g == 0 then p
    else p.(available := p.available - g, leasedOut := p.leasedOut + g,
            leases := p.leases + [Lease(id, grantee, g, 0, 0, true)])
  }

  /** Folds a cumulative spend into a live lease. */
  function Report(p: Pool, j: nat, cumulative: int): Pool
    requires j < |p.leases|
  {
    var l := p.leases[j];
    var d := Max(l.booked, cumulative) - l.booked;
    if !l.live || cumulative > l.amount then p
    else p.(leasedOut := p.leasedOut - d, spent := p.spent + d, spentReported := p.spentReported + d,
            leases := p.leases[j := l.(booked := l.booked + d, attested := l.attested + d)])
  }

  /** Folds the final spend and credits the remainder; a settled lease makes it a no-op. */
  function Return(p: Pool, j: nat, cumulative: int): Pool
    requires j < |p.leases|
  {
    var l := p.leases[j];
    var d := Max(l.booked, cumulative) - l.booked;
    if !l.live || cumulative > l.amount then p
    else p.(leasedOut := p.leasedOut - (l.amount - l.booked), spent := p.spent + d,
            spentReported := p.spentReported + d,
            available := p.available + (l.amount - l.booked - d),
            leases := p.leases[j := l.(booked := l.booked + d, attested := l.attested + d, live := false)])
  }

  /** A forced expiry books the whole lease as spent. */
  function Expire(p: Pool, j: nat): Pool
    requires j < |p.leases|
  {
    var l := p.leases[j];
    if !l.live then p
    else p.(leasedOut := p.leasedOut - (l.amount - l.booked), spent := p.spent + (l.amount - l.booked),
            leases := p.leases[j := l.(booked := l.amount, live := false)])
  }

  // ----- conservation -----

  function Booked(leases: seq<Lease>): seq<int> {
    seq(|leases|, j requires 0 <= j < |leases| => leases[j].booked)
  }

  function Reported(leases: seq<Lease>): seq<int> {
    seq(|leases|, j requires 0 <= j < |leases| => leases[j].attested)
  }

  function Owed(l: Lease): int {
    if l.live then l.amount - l.booked else 0
  }

  function Outstanding(leases: seq<Lease>): seq<int> {
    seq(|leases|, j requires 0 <= j < |leases| => Owed(leases[j]))
  }

  /** The pool's totals are the sums over its leases. */
  predicate Totals(p: Pool) {
    && p.spent == Sum(Booked(p.leases)) && p.leasedOut == Sum(Outstanding(p.leases))
    && p.spentReported == Sum(Reported(p.leases))
  }

  predicate RowOk(l: Lease) {
    0 <= l.attested <= l.booked <= l.amount && 0 < l.amount && (l.live ==> l.attested == l.booked)
  }

  /** cap == available + leasedOut + spent, and each part is what the leases say. */
  predicate PoolOk(p: Pool) {
    && p.cap == p.available + p.leasedOut + p.spent && 0 <= p.available
    && Totals(p)
    && (forall j | 0 <= j < |p.leases| :: RowOk(p.leases[j]))
    && (forall i, j | 0 <= i < j < |p.leases| :: p.leases[i].id != p.leases[j].id)
  }

  lemma LeaseUpdated(leases: seq<Lease>, j: nat, l: Lease)
    requires j < |leases|
    ensures Sum(Booked(leases[j := l])) == Sum(Booked(leases)) - leases[j].booked + l.booked
    ensures Sum(Reported(leases[j := l])) == Sum(Reported(leases)) - leases[j].attested + l.attested
    ensures Sum(Outstanding(leases[j := l])) == Sum(Outstanding(leases)) - Owed(leases[j]) + Owed(l)
  {
    assert Booked(leases[j := l]) == Booked(leases)[j := l.booked];
    assert Reported(leases[j := l]) == Reported(leases)[j := l.attested];
    assert Outstanding(leases[j := l]) == Outstanding(leases)[j := Owed(l)];
    SumUpdate(Booked(leases), j, l.booked);
    SumUpdate(Reported(leases), j, l.attested);
    SumUpdate(Outstanding(leases), j, Owed(l));
  }

  lemma LeaseAdded(leases: seq<Lease>, l: Lease)
    ensures Sum(Booked(leases + [l])) == Sum(Booked(leases)) + l.booked
    ensures Sum(Reported(leases + [l])) == Sum(Reported(leases)) + l.attested
    ensures Sum(Outstanding(leases + [l])) == Sum(Outstanding(leases)) + Owed(l)
  {
    assert Booked(leases + [l]) == Booked(leases) + [l.booked];
    assert Reported(leases + [l]) == Reported(leases) + [l.attested];
    assert Outstanding(leases + [l]) == Outstanding(leases) + [Owed(l)];
    SumAppend(Booked(leases), l.booked);
    SumAppend(Reported(leases), l.attested);
    SumAppend(Outstanding(leases), Owed(l));
  }

  /** Rewriting one row under its own id. */
  lemma RowReplaced(p: Pool, p': Pool, j: nat, l: Lease)
    requires PoolOk(p) && j < |p.leases| && RowOk(l) && l.id == p.leases[j].id && p'.leases == p.leases[j := l]
    requires p'.spent == p.spent - p.leases[j].booked + l.booked
    requires p'.spentReported == p.spentReported - p.leases[j].attested + l.attested
    requires p'.leasedOut == p.leasedOut - Owed(p.leases[j]) + Owed(l)
    requires p'.cap == p.cap == p'.available + p'.leasedOut + p'.spent && 0 <= p'.available
    ensures PoolOk(p')
  {
    LeaseUpdated(p.leases, j, l);
  }

  lemma GrantConserves(p: Pool, id: Bytes, grantee: nat, amount: int)
    requires PoolOk(p) && !Known(p, id)
    ensures PoolOk(Grant(p, id, grantee, amount)) && Grant(p, id, grantee, amount).cap == p.cap
    ensures 0 < amount && 0 < p.available ==>
              Grant(p, id, grantee, amount).leases
              == p.leases + [Lease(id, grantee, if amount <= p.available then amount else p.available, 0, 0, true)]
    ensures amount <= 0 || p.available == 0 ==> Grant(p, id, grantee, amount) == p
  {
    LeaseAdded(p.leases, Lease(id, grantee, GrantUnits(p, amount), 0, 0, true));
  }

  lemma ReportConserves(p: Pool, j: nat, cumulative: int)
    requires PoolOk(p) && j < |p.leases|
    ensures PoolOk(Report(p, j, cumulative)) && Report(p, j, cumulative).cap == p.cap
    ensures var l, p' := p.leases[j], Report(p, j, cumulative);
            && p'.available == p.available
            && (l.live && l.booked < cumulative <= l.amount ==>
                  p'.leases == p.leases[j := l.(booked := cumulative, attested := cumulative)])
            && (!l.live || cumulative <= l.booked || l.amount < cumulative ==> p' == p)
  {
    var p' := Report(p, j, cumulative);
    if p' != p {
      RowReplaced(p, p', j, p'.leases[j]);
    }
  }

  lemma ReturnConserves(p: Pool, j: nat, cumulative: int)
    requires PoolOk(p) && j < |p.leases|
    ensures PoolOk(Return(p, j, cumulative)) && Return(p, j, cumulative).cap == p.cap
    ensures var l, p' := p.leases[j], Return(p, j, cumulative);
            && (l.live && l.booked <= cumulative <= l.amount ==>
                  && p'.leases == p.leases[j := l.(booked := cumulative, attested := cumulative, live := false)]
                  && p'.available == p.available + (l.amount - cumulative))
            && (!l.live || l.amount < cumulative ==> p' == p)
  {
    var p' := Return(p, j, cumulative);
    if p' != p {
      RowReplaced(p, p', j, p'.leases[j]);
    }
  }

  lemma ExpireConserves(p: Pool, j: nat)
    requires PoolOk(p) && j < |p.leases|
    ensures PoolOk(Expire(p, j)) && Expire(p, j).cap == p.cap && Expire(p, j).spentReported == p.spentReported
    ensures Expire(p, j).available == p.available
    ensures p.leases[j].live ==>
              Expire(p, j).leases == p.leases[j := p.leases[j].(booked := p.leases[j].amount, live := false)]
  {
    var p' := Expire(p, j);
    if p' != p {
      RowReplaced(p, p', j, p'.leases[j]);
    }
  }

  /** Reports fold to the largest, in any order and however often; a return after reports folds the same way. */
  lemma FoldsAreIdempotent(p: Pool, j: nat, c1: int, c2: int)
    requires j < |p.leases| && c2 <= c1 <= p.leases[j].amount
    ensures Report(Report(p, j, c1), j, c2) == Report(p, j, c1)
    ensures Report(Report(p, j, c2), j, c1) == Report(p, j, c1)
    ensures Return(Report(p, j, c2), j, c1) == Return(p, j, c1)
  {
  }

  /** A return the pool accepts and a forced expiry settle the lease, and to a settled lease nothing happens any
      more. */
  lemma SettledStays(p: Pool, j: nat, c: int)
    requires j < |p.leases|
    ensures c <= p.leases[j].amount ==> !Return(p, j, c).leases[j].live
    ensures !Expire(p, j).leases[j].live
    ensures !p.leases[j].live ==> Report(p, j, c) == p && Return(p, j, c) == p && Expire(p, j) == p
  {
  }
}
