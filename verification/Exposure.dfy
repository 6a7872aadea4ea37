/** What a merchant can collect: over a mandate's life, and in any window of time. */
module Exposure {
  import opened Wrappers
  import opened Limits
  import opened MandateTypes
  import opened RegistrySpec
  import opened RegistryInvariant
  import opened RegistryRuns
  import opened ChargeHistory
  import opened Periods
  import MandateTerms

  function MaxExposure(m: Mandate): int
    requires m.periodSeconds > 0
  {
    MandateTerms.ComputeMaxExposure(MandateTerms.ExposureTermsOf(m)).value
  }

  /** Consecutive periods sum to at most the cap each. */
  lemma {:induction false} PeriodsSum(m: Mandate, log: seq<PaymentReceipt>, j: nat, k: nat)
    requires PeriodsOk(m, log) && j <= k
    ensures Collected(log, m.id, Boundary(m.startAt, m.periodSeconds, j), Boundary(m.startAt, m.periodSeconds, k)) <= m.maxPerPeriod * (k - j)
    decreases k
  {
    var at := (i: nat) => Boundary(m.startAt, m.periodSeconds, i);
    if j == k {
      Split(log, m.id, at(j), at(j), at(j));
    } else {
      PeriodsSum(m, log, j, k - 1);
      BoundaryOrder(m.startAt, m.periodSeconds, j, k - 1);
      Split(log, m.id, at(j), at(k - 1), at(k));
      assert m.maxPerPeriod * (k - 1 - j) + m.maxPerPeriod == m.maxPerPeriod * (k - j);
    }
  }

  /** A wider window collects at least as much. */
  lemma Widen(m: Mandate, log: seq<PaymentReceipt>, lo: int, hi: int, a: int, b: int)
    requires Within(log, m.id, m.startAt, m.expiresAt, ChargeCap(m.amountRule)) && TermsOk(m)
    requires lo <= a <= b <= hi
    ensures Collected(log, m.id, a, b) <= Collected(log, m.id, lo, hi)
  {
    Split(log, m.id, lo, a, hi);
    Split(log, m.id, a, b, hi);
    Bounds(log, m.id, m.startAt, m.expiresAt, ChargeCap(m.amountRule), lo, a);
    Bounds(log, m.id, m.startAt, m.expiresAt, ChargeCap(m.amountRule), b, hi);
  }

  /** The periods up to expiry cover the whole history. */
  lemma WithinPeriodBound(m: Mandate, log: seq<PaymentReceipt>)
    requires TermsOk(m) && PeriodsOk(m, log)
    requires Within(log, m.id, m.startAt, m.expiresAt, ChargeCap(m.amountRule))
    ensures Collected(log, m.id, m.startAt, m.expiresAt)
         <= m.maxPerPeriod * MandateTerms.CeilDiv(m.expiresAt - m.startAt, m.periodSeconds).value
  {
    MandateTerms.CeilDivIsCeiling(m.expiresAt - m.startAt, m.periodSeconds);
    var n: nat := MandateTerms.CeilDiv(m.expiresAt - m.startAt, m.periodSeconds).value;
    BoundaryIsProduct(m.startAt, m.periodSeconds, n);
    Widen(m, log, m.startAt, Boundary(m.startAt, m.periodSeconds, n), m.startAt, m.expiresAt);
    PeriodsSum(m, log, 0, n);
  }

  lemma WithinCountBound(m: Mandate, log: seq<PaymentReceipt>, count: nat)
    requires TermsOk(m) && Charges(log, m.id) <= count
    requires Within(log, m.id, m.startAt, m.expiresAt, ChargeCap(m.amountRule))
    ensures Collected(log, m.id, m.startAt, m.expiresAt) <= ChargeCap(m.amountRule) * count
  {
    Bounds(log, m.id, m.startAt, m.expiresAt, ChargeCap(m.amountRule), m.startAt, m.expiresAt);
    ProductOrder(Charges(log, m.id), count, ChargeCap(m.amountRule));
  }

  /** The bound depends only on the shape of the history. */
  lemma HistoryWithinExposure(m: Mandate, log: seq<PaymentReceipt>)
    requires TermsOk(m) && PeriodsOk(m, log)
    requires Within(log, m.id, m.startAt, m.expiresAt, ChargeCap(m.amountRule))
    requires m.maxSuccessfulCharges != 0 ==> Charges(log, m.id) <= m.maxSuccessfulCharges
    ensures Collected(log, m.id, m.startAt, m.expiresAt) <= MaxExposure(m)
  {
    hide PeriodsOk, Within, Collected;
    WithinPeriodBound(m, log);
    if m.maxSuccessfulCharges != 0 {
      WithinCountBound(m, log, m.maxSuccessfulCharges);
    }
  }

  lemma MandateWithinExposure(m: Mandate, log: seq<PaymentReceipt>)
    requires MandateOk(m, log)
    ensures m.totalCollected <= MaxExposure(m)
  {
    HistoryWithinExposure(m, log);
  }

  /**
   * Whatever happens in a run, and whatever the token answers, a mandate never
   * collects more than `computeMaxExposure` of the terms it was created with.
   */
  lemma LifetimeExposureBound(invs: seq<Invocation>, id: Hash)
    requires id in Run(EMPTY, invs).mandates
    ensures var m := Run(EMPTY, invs).mandates[id];
      && m.periodSeconds > 0
      && m.totalCollected <= MaxExposure(m)
  {
    EmptyOk();
    RunKeeps(EMPTY, invs);
    MandateWithinExposure(Run(EMPTY, invs).mandates[id], Run(EMPTY, invs).charged);
  }

  /** A charge that clears steps 1 to 12 still fits under the exposure. */
  lemma AdmittedChargeFits(m: Mandate, log: seq<PaymentReceipt>, now: U64, amount: I128)
    requires MandateOk(m, log) && m.startAt <= now < m.expiresAt
    requires 0 < amount && RuleAdmits(m.amountRule, amount) && Admits(m, log, now, amount)
    ensures m.totalCollected + amount <= MaxExposure(m)
  {
    var r := ReceiptFor(m, m.id, m.id, amount, m.id, now);
    PeriodsAfterCharge(m, log, now, amount, r);
    Extend(log, r, m.id, m.startAt, m.expiresAt);
    HistoryWithinExposure(m, log + [r]);
  }

  /** A window that starts in the mandate's life is inside one period more than it is long. */
  lemma WindowBound(m: Mandate, log: seq<PaymentReceipt>, from: int, b: int, n: nat)
    requires TermsOk(m) && PeriodsOk(m, log) && Within(log, m.id, m.startAt, m.expiresAt, ChargeCap(m.amountRule))
    requires m.startAt <= from <= b <= from + n * m.periodSeconds
    ensures Collected(log, m.id, from, b) <= m.maxPerPeriod * (n + 1)
  {
    var p := m.periodSeconds;
    var k := Index(m.startAt, p, from);
    InPeriod(m.startAt, p, from, k);
    BoundaryShift(m.startAt, p, k + 1, n);
    hide PeriodsOk, Boundary, Within, Collected, TermsOk;
    PeriodsSum(m, log, k, k + 1 + n);
    assert k + 1 + n - k == n + 1;
    Widen(m, log, Boundary(m.startAt, p, k), Boundary(m.startAt, p, k + 1 + n), from, b);
  }

  /** Nothing was collected before the mandate's life. */
  lemma ClipToLife(m: Mandate, log: seq<PaymentReceipt>, a: int, b: int)
    requires MandateOk(m, log) && a <= b
    ensures b <= m.startAt ==> Collected(log, m.id, a, b) == 0
    ensures a <= m.startAt < b ==> Collected(log, m.id, a, b) == Collected(log, m.id, m.startAt, b)
  {
    var cap := ChargeCap(m.amountRule);
    WithinLife(m, log);
    hide MandateOk, Within;
    if b <= m.startAt {
      Outside(log, m.id, m.startAt, m.expiresAt, cap, a, b);
    } else if a <= m.startAt {
      Split(log, m.id, a, m.startAt, b);
      Outside(log, m.id, m.startAt, m.expiresAt, cap, a, m.startAt);
    }
  }

  /** In any window of time a mandate collects at most one cap more than the window has periods. */
  lemma SlidingWindowBound(m: Mandate, log: seq<PaymentReceipt>, a: int, b: int)
    requires MandateOk(m, log) && a < b
    ensures Collected(log, m.id, a, b) <= m.maxPerPeriod * (Periods.CeilDiv(b - a, m.periodSeconds) + 1)
  {
    var n := Periods.CeilDiv(b - a, m.periodSeconds);
    CeilCovers(b - a, m.periodSeconds);
    assert TermsOk(m) && PeriodsOk(m, log);
    ClipToLife(m, log, a, b);
    WithinLife(m, log);
    hide *;
    if b <= m.startAt {
      NonNegativeProduct(m.maxPerPeriod, n + 1);
    } else {
      WindowBound(m, log, if a < m.startAt then m.startAt else a, b, n);
    }
  }

  lemma CeilCovers(length: int, p: nat)
    requires 0 < length && 0 < p
    ensures 0 < Periods.CeilDiv(length, p) && length <= Periods.CeilDiv(length, p) * p
  {
    var n := Periods.CeilDiv(length, p);
    if n <= 0 { ProductOrder(n, 0, p); }
  }

  lemma NonNegativeProduct(a: nat, b: nat)
    ensures 0 <= a * b
  {
  }

  lemma WithinLife(m: Mandate, log: seq<PaymentReceipt>)
    requires MandateOk(m, log)
    ensures Within(log, m.id, m.startAt, m.expiresAt, ChargeCap(m.amountRule))
  {
  }

  lemma {:induction false} BoundaryShift(start: int, p: nat, k: nat, n: nat)
    ensures Boundary(start, p, k + n) == Boundary(start, p, k) + n * p
  {
    BoundaryIsProduct(start, p, k);
    BoundaryIsProduct(start, p, k + n);
    assert (k + n) * p == k * p + n * p;
  }
}
