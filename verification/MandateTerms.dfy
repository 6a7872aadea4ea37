/**
 * The numbers the checkout screen shows before the payer signs, over unbounded
 * integers. None stands for a thrown error.
 */
module MandateTerms {
  import opened Wrappers
  import opened MandateTypes
  import opened BigInts

  datatype ExposureTerms = ExposureTerms(
    amountRule: AmountRule, maxPerPeriod: int, periodSeconds: int, maxSuccessfulCharges: int, startAt: int, expiresAt: int)

  function CeilDiv(a: int, b: int): Option<int>
  {
    if b <= 0 then None else Some(TruncDiv(a + b - 1, b))
  }

  lemma CeilDivIsCeiling(a: int, b: int)
    requires 0 <= a && 0 < b
    ensures CeilDiv(a, b).Some?
    ensures (CeilDiv(a, b).value - 1) * b < a <= CeilDiv(a, b).value * b
  {
    var n := a + b - 1;
    assert n == n / b * b + n % b;
  }

  /** The most a merchant could ever collect. */
  function ComputeMaxExposure(terms: ExposureTerms): Option<int>
  {
    var duration := terms.expiresAt - terms.startAt;
    var periods := if duration <= 0 then Some(1) else CeilDiv(duration, terms.periodSeconds);
    if periods.None? then None
    else
      var periodBound := terms.maxPerPeriod * periods.value;
      if terms.maxSuccessfulCharges == 0 then Some(periodBound)
      else
        var countBound := ChargeCap(terms.amountRule) * terms.maxSuccessfulCharges;
        Some(if countBound < periodBound then countBound else periodBound)
  }

  /** The number of periods a duration takes: the least that covers it, and one when there is no duration. */
  ghost predicate IsPeriodCount(terms: ExposureTerms, n: int)
  {
    var duration := terms.expiresAt - terms.startAt;
    if duration <= 0 then n == 1
    else duration <= n * terms.periodSeconds && forall k :: duration <= k * terms.periodSeconds ==> n <= k
  }

  /** One charge's ceiling, by the rule. */
  function PerCharge(rule: AmountRule): int
  {
    match rule case Fixed(a) => a case Variable(max) => max
  }

  /**
   * The exposure is the smaller of two products: the period cap times the number
   * of periods, and, when charges are counted, the largest charge times the count.
   */
  lemma ExposureIsSmaller(terms: ExposureTerms, n: int)
    requires 0 < terms.periodSeconds && IsPeriodCount(terms, n)
    ensures ComputeMaxExposure(terms).Some?
    ensures var e := ComputeMaxExposure(terms).value;
      && e <= terms.maxPerPeriod * n
      && (terms.maxSuccessfulCharges == 0 ==> e == terms.maxPerPeriod * n)
      && (terms.maxSuccessfulCharges != 0 ==>
            && e <= PerCharge(terms.amountRule) * terms.maxSuccessfulCharges
            && (e == terms.maxPerPeriod * n || e == PerCharge(terms.amountRule) * terms.maxSuccessfulCharges))
  {
    var duration := terms.expiresAt - terms.startAt;
    if duration > 0 { PeriodCountIsCeiling(terms, n); }
    hide IsPeriodCount, CeilDiv;
  }

  lemma PeriodCountIsCeiling(terms: ExposureTerms, n: int)
    requires 0 < terms.periodSeconds && terms.startAt < terms.expiresAt && IsPeriodCount(terms, n)
    ensures CeilDiv(terms.expiresAt - terms.startAt, terms.periodSeconds) == Some(n)
  {
    var duration, p := terms.expiresAt - terms.startAt, terms.periodSeconds;
    CeilDivIsCeiling(duration, p);
    var q := CeilDiv(duration, p).value;
    assert n <= q;
    if n < q { LessTimes(n, q - 1, p); }
  }

  lemma LessTimes(a: int, b: int, p: int)
    requires a <= b && 0 < p
    ensures a * p <= b * p
  {
  }

  const ALLOWANCE_FEE_HEADROOM_BPS := 100

  datatype BoundedAllowance = BoundedAllowance(maxExposure: int, feeHeadroom: int, total: int)

  function ComputeBoundedAllowance(maxExposure: int): Option<BoundedAllowance>
  {
    if maxExposure < 0 then None
    else
      var feeHeadroom := CeilDiv(maxExposure * ALLOWANCE_FEE_HEADROOM_BPS, 10_000);
      if feeHeadroom.None? then None
      else Some(BoundedAllowance(maxExposure, feeHeadroom.value, maxExposure + feeHeadroom.value))
  }

  /** The headroom is one percent, rounded up to the next base unit, and is always on top. */
  lemma HeadroomIsOnePercent(maxExposure: int)
    requires 0 <= maxExposure
    ensures ComputeBoundedAllowance(maxExposure).Some?
    ensures var b := ComputeBoundedAllowance(maxExposure).value;
      && b.total == maxExposure + b.feeHeadroom
      && 100 * (b.feeHeadroom - 1) < maxExposure <= 100 * b.feeHeadroom
  {
    CeilDivIsCeiling(maxExposure * ALLOWANCE_FEE_HEADROOM_BPS, 10_000);
  }

  /** The terms of an on-chain mandate, as the checkout passes them. */
  function ExposureTermsOf(m: Mandate): ExposureTerms
  {
    ExposureTerms(m.amountRule, m.maxPerPeriod, m.periodSeconds, m.maxSuccessfulCharges, m.startAt, m.expiresAt)
  }
}
