/**
 * Billing periods. Period k of a mandate is the half-open interval
 * [Boundary(start, p, k), Boundary(start, p, k + 1)).
 *
 * Boundary is defined by recursion so that the proofs about receipts stay
 * linear; BoundaryIsProduct gives the closed form the contract computes.
 */
module Periods {
  function Boundary(start: int, p: nat, k: nat): int
  {
    if k == 0 then start else Boundary(start, p, k - 1) + p
  }

  /** floor((t - start) / p), the contract's `period_index`. */
  function Index(start: int, p: nat, t: int): nat
    requires p > 0 && start <= t
  {
    (t - start) / p
  }

  /** The start of the period holding t. */
  function PeriodStart(start: int, p: nat, t: int): int
    requires p > 0 && start <= t
  {
    Boundary(start, p, Index(start, p, t))
  }

  lemma {:induction false} BoundaryIsProduct(start: int, p: nat, k: nat)
    ensures Boundary(start, p, k) == start + k * p
  {
    if k > 0 {
      BoundaryIsProduct(start, p, k - 1);
      assert (k - 1) * p + p == k * p;
    }
  }

  /** A period holds exactly the instants whose index it is. */
  lemma InPeriod(start: int, p: nat, t: int, k: nat)
    requires p > 0 && start <= t
    ensures Index(start, p, t) == k <==> Boundary(start, p, k) <= t < Boundary(start, p, k + 1)
  {
    var i := Index(start, p, t);
    BoundaryIsProduct(start, p, k);
    DivisionBounds(t - start, p);
    if i < k { ProductOrder(i + 1, k, p); }
    if k < i { ProductOrder(k + 1, i, p); }
  }

  lemma InOwnPeriod(start: int, p: nat, t: int)
    requires p > 0 && start <= t
    ensures PeriodStart(start, p, t) <= t < PeriodStart(start, p, t) + p
  {
    InPeriod(start, p, t, Index(start, p, t));
  }

  lemma {:induction false} BoundaryOrder(start: int, p: nat, j: nat, k: nat)
    requires j <= k
    ensures Boundary(start, p, j) <= Boundary(start, p, k)
    decreases k
  {
    if j < k { BoundaryOrder(start, p, j, k - 1); }
  }

  /** Later instants lie in the same or a later period. */
  lemma PeriodStartOrder(start: int, p: nat, t: int, u: int)
    requires p > 0 && start <= t <= u
    ensures Index(start, p, t) <= Index(start, p, u)
    ensures PeriodStart(start, p, t) <= PeriodStart(start, p, u)
  {
    var i, j := Index(start, p, t), Index(start, p, u);
    InPeriod(start, p, t, i);
    InPeriod(start, p, u, j);
    if j < i { BoundaryOrder(start, p, j + 1, i); }
    BoundaryOrder(start, p, i, j);
  }

  /** Periods whose starts differ share no instant. */
  lemma PeriodsApart(start: int, p: nat, t: int, u: int)
    requires p > 0 && start <= t <= u
    requires PeriodStart(start, p, t) != PeriodStart(start, p, u)
    ensures t < PeriodStart(start, p, u)
    ensures PeriodStart(start, p, t) + p <= PeriodStart(start, p, u)
  {
    var i, j := Index(start, p, t), Index(start, p, u);
    PeriodStartOrder(start, p, t, u);
    InPeriod(start, p, t, i);
    BoundaryOrder(start, p, i + 1, j);
  }

  lemma DivisionBounds(a: int, p: nat)
    requires p > 0
    ensures a / p * p <= a < (a / p + 1) * p
  {
    assert a == a / p * p + a % p;
  }

  lemma ProductOrder(a: int, b: int, p: nat)
    requires a <= b
    ensures a * p <= b * p
  {
  }

  /** ceil(a / p), as `ceilDiv` computes it. */
  function CeilDiv(a: int, p: nat): (q: int)
    requires p > 0
    ensures (q - 1) * p < a <= q * p
  {
    DivisionBounds(a + p - 1, p);
    (a + p - 1) / p
  }
}
