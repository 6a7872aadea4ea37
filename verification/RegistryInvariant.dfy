/**
 * What every run of the registry keeps: each mandate's counters are exactly
 * its charge history, and storage agrees with the published events.
 */
module RegistryInvariant {
  import opened Wrappers
  import opened Limits
  import opened MandateTypes
  import opened RegistrySpec
  import opened ChargeHistory
  import opened Periods

  // ---- one mandate ----

  /** The bounds `validate_input` imposes at creation. */
  ghost predicate TermsOk(m: Mandate)
  {
    && 0 < ChargeCap(m.amountRule) <= m.maxPerPeriod
    && 0 < m.periodSeconds
    && m.startAt < m.expiresAt
    && m.payer != m.merchant
  }

  function PeriodEnd(m: Mandate): int { m.currentPeriodStart + m.periodSeconds }

  /** One past the last charge: every receipt so far is before it. */
  function Horizon(m: Mandate): int
  {
    if m.lastChargedAt.Some? then m.lastChargedAt.value + 1 else m.startAt
  }

  ghost predicate ClockOk(m: Mandate)
    requires TermsOk(m)
  {
    match m.lastChargedAt
    case None => m.currentPeriodStart == m.startAt && m.successfulCharges == 0
    case Some(t) => m.startAt <= t < m.expiresAt && m.currentPeriodStart == PeriodStart(m.startAt, m.periodSeconds, t)
  }

  ghost predicate StatusOk(m: Mandate)
  {
    && m.status != Expired
    && (m.status == Completed <==> m.maxSuccessfulCharges != 0 && m.successfulCharges == m.maxSuccessfulCharges)
    && (m.maxSuccessfulCharges != 0 ==> m.successfulCharges <= m.maxSuccessfulCharges)
  }

  /** The counters are the history: number, lifetime sum, sum in the current period. */
  ghost predicate CountersOk(m: Mandate, log: seq<PaymentReceipt>)
    requires TermsOk(m)
  {
    && m.successfulCharges == Charges(log, m.id)
    && m.totalCollected == Collected(log, m.id, m.startAt, m.expiresAt)
    && m.currentPeriodCollected == Collected(log, m.id, m.currentPeriodStart, PeriodEnd(m))
  }

  /** No aligned period, past or present, ever collects more than the period cap. */
  ghost predicate PeriodsOk(m: Mandate, log: seq<PaymentReceipt>)
  {
    forall k: nat :: Collected(log, m.id, Boundary(m.startAt, m.periodSeconds, k), Boundary(m.startAt, m.periodSeconds, k + 1)) <= m.maxPerPeriod
  }

  ghost predicate BelongsTo(r: PaymentReceipt, m: Mandate)
  {
    && r.payer == m.payer && r.merchant == m.merchant && r.asset == m.asset
    && RuleAdmits(m.amountRule, r.amount)
  }

  /** Receipts carry the mandate's parties and are at least the minimum interval apart. */
  ghost predicate ReceiptsOk(m: Mandate, log: seq<PaymentReceipt>)
  {
    && (forall i :: 0 <= i < |log| && log[i].mandateId == m.id ==> BelongsTo(log[i], m))
    && (forall i, j :: 0 <= i < j < |log| && log[i].mandateId == m.id && log[j].mandateId == m.id
          ==> log[i].timestamp + m.minIntervalSeconds <= log[j].timestamp)
  }

  /** `last_charged_at` is the timestamp of a receipt. */
  ghost predicate LatestOk(m: Mandate, log: seq<PaymentReceipt>)
  {
    m.lastChargedAt.Some? ==> exists i :: 0 <= i < |log| && log[i].mandateId == m.id && log[i].timestamp == m.lastChargedAt.value
  }

  ghost predicate MandateOk(m: Mandate, log: seq<PaymentReceipt>)
  {
    && TermsOk(m)
    && ClockOk(m)
    && StatusOk(m)
    && Within(log, m.id, m.startAt, Horizon(m), ChargeCap(m.amountRule))
    && CountersOk(m, log)
    && PeriodsOk(m, log)
    && ReceiptsOk(m, log)
    && LatestOk(m, log)
  }

  /** A mandate just created has no history. */
  lemma FreshMandateOk(m: Mandate, log: seq<PaymentReceipt>)
    requires TermsOk(m) && m.status == Active && m.lastChargedAt == None
    requires m.successfulCharges == 0 && m.totalCollected == 0
    requires m.currentPeriodStart == m.startAt && m.currentPeriodCollected == 0
    requires forall i :: 0 <= i < |log| ==> log[i].mandateId != m.id
    ensures MandateOk(m, log)
  {
    NoCharges(log, m.id, m.startAt, m.expiresAt);
    NoCharges(log, m.id, m.startAt, PeriodEnd(m));
    forall k: nat
      ensures Collected(log, m.id, Boundary(m.startAt, m.periodSeconds, k), Boundary(m.startAt, m.periodSeconds, k + 1)) <= m.maxPerPeriod
    {
      NoCharges(log, m.id, Boundary(m.startAt, m.periodSeconds, k), Boundary(m.startAt, m.periodSeconds, k + 1));
    }
  }

  /** Another mandate's charge leaves this mandate's history as it was. */
  lemma OtherChargeKeeps(m: Mandate, log: seq<PaymentReceipt>, r: PaymentReceipt)
    requires MandateOk(m, log) && r.mandateId != m.id
    ensures MandateOk(m, log + [r])
  {
    assert LatestOk(m, log + [r]) by {
      assert forall i :: 0 <= i < |log| ==> (log + [r])[i] == log[i];
    }
    Extend(log, r, m.id, m.startAt, m.expiresAt);
    Extend(log, r, m.id, m.currentPeriodStart, PeriodEnd(m));
    forall k: nat
      ensures Collected(log + [r], m.id, Boundary(m.startAt, m.periodSeconds, k), Boundary(m.startAt, m.periodSeconds, k + 1)) <= m.maxPerPeriod
    {
      Extend(log, r, m.id, Boundary(m.startAt, m.periodSeconds, k), Boundary(m.startAt, m.periodSeconds, k + 1));
    }
  }

  // ---- one charge ----

  /**
   * What passing steps 9 to 12 means, free of their order and of overflow: the
   * interval has run, the count is open, and the period the charge falls in
   * has room for it.
   */
  ghost predicate Admits(m: Mandate, log: seq<PaymentReceipt>, now: int, amount: int)
    requires 0 < m.periodSeconds && m.startAt <= now
  {
    var periodStart := PeriodStart(m.startAt, m.periodSeconds, now);
    && (m.lastChargedAt.Some? ==> m.lastChargedAt.value + m.minIntervalSeconds <= now)
    && (m.maxSuccessfulCharges == 0 || m.successfulCharges < m.maxSuccessfulCharges)
    && Collected(log, m.id, periodStart, periodStart + m.periodSeconds) + amount <= m.maxPerPeriod
  }

  /** Where the period of `now` is, what it has collected so far, and that neither overflows. */
  lemma PeriodAt(m: Mandate, log: seq<PaymentReceipt>, now: U64)
    requires MandateOk(m, log) && m.startAt <= now
    requires m.lastChargedAt.Some? ==> m.lastChargedAt.value <= now
    ensures var periodStart := PeriodStart(m.startAt, m.periodSeconds, now);
      && m.startAt + (now - m.startAt) / m.periodSeconds * m.periodSeconds == periodStart
      && 0 <= (now - m.startAt) / m.periodSeconds * m.periodSeconds <= now
      && m.startAt <= periodStart <= now < periodStart + m.periodSeconds
      && m.currentPeriodStart <= periodStart
      && Collected(log, m.id, periodStart, periodStart + m.periodSeconds)
         == if periodStart != m.currentPeriodStart then 0 else m.currentPeriodCollected
  {
    var p := m.periodSeconds;
    var k := Index(m.startAt, p, now);
    var periodStart := PeriodStart(m.startAt, p, now);
    BoundaryIsProduct(m.startAt, p, k);
    BoundaryOrder(m.startAt, p, 0, k);
    InOwnPeriod(m.startAt, p, now);
    if m.lastChargedAt.Some? {
      PeriodStartOrder(m.startAt, p, m.lastChargedAt.value, now);
      if periodStart != m.currentPeriodStart {
        PeriodsApart(m.startAt, p, m.lastChargedAt.value, now);
      }
    }
    Outside(log, m.id, m.startAt, Horizon(m), ChargeCap(m.amountRule), periodStart, periodStart + p);
  }

  /** Steps 9 to 12 accept exactly when the history admits the charge and nothing overflows. */
  lemma TimingPlanMeaning(m: Mandate, log: seq<PaymentReceipt>, now: U64, amount: I128)
    requires MandateOk(m, log) && m.startAt <= now && 0 < amount
    ensures TimingPlan(m, now, amount).Ok? <==> Admits(m, log, now, amount)
    ensures TimingPlan(m, now, amount).Ok? ==>
      var plan := TimingPlan(m, now, amount).value;
      && plan.periodStart == PeriodStart(m.startAt, m.periodSeconds, now)
      && plan.periodCollected == Collected(log, m.id, plan.periodStart, plan.periodStart + m.periodSeconds) + amount
  {
    if m.lastChargedAt.None? || m.lastChargedAt.value + m.minIntervalSeconds <= now {
      PeriodAt(m, log, now);
    }
  }

  /** A charge its period admits keeps every period under the cap. */
  lemma PeriodsAfterCharge(m: Mandate, log: seq<PaymentReceipt>, now: U64, amount: I128, r: PaymentReceipt)
    requires TermsOk(m) && PeriodsOk(m, log) && m.startAt <= now && Admits(m, log, now, amount)
    requires r.mandateId == m.id && r.timestamp == now && r.amount == amount
    ensures PeriodsOk(m, log + [r])
  {
    var p := m.periodSeconds;
    forall k: nat
      ensures Collected(log + [r], m.id, Boundary(m.startAt, p, k), Boundary(m.startAt, p, k + 1)) <= m.maxPerPeriod
    {
      Extend(log, r, m.id, Boundary(m.startAt, p, k), Boundary(m.startAt, p, k + 1));
      InPeriod(m.startAt, p, now, k);
    }
  }

  /** The record a successful charge writes has the counters of the longer history. */
  lemma CountersAfterCharge(m: Mandate, log: seq<PaymentReceipt>, now: U64, amount: I128, r: PaymentReceipt, m': Mandate)
    requires MandateOk(m, log) && m.status == Active && m.startAt <= now < m.expiresAt && 0 < amount
    requires TimingPlan(m, now, amount).Ok?
    requires AfterCharge(m, now, amount, TimingPlan(m, now, amount).value) == Some(m')
    requires r.mandateId == m.id && r.timestamp == now && r.amount == amount
    ensures ClockOk(m') && StatusOk(m') && CountersOk(m', log + [r])
  {
    TimingPlanMeaning(m, log, now, amount);
    PeriodAt(m, log, now);
    hide TimingPlan, PeriodsOk, ReceiptsOk, LatestOk, Within;
    Extend(log, r, m.id, m.startAt, m.expiresAt);
    Extend(log, r, m.id, m'.currentPeriodStart, PeriodEnd(m'));
  }

  /** Its receipt keeps the order, the spacing and the parties of the history. */
  lemma HistoryAfterCharge(m: Mandate, log: seq<PaymentReceipt>, now: U64, amount: I128, r: PaymentReceipt, m': Mandate)
    requires MandateOk(m, log) && m.startAt <= now && 0 < amount && RuleAdmits(m.amountRule, amount) && Admits(m, log, now, amount)
    requires m'.lastChargedAt == Some(now) && TermsOf(m') == TermsOf(m) && m'.id == m.id
    requires r.mandateId == m.id && r.timestamp == now && r.amount == amount && BelongsTo(r, m)
    ensures Within(log + [r], m.id, m.startAt, Horizon(m'), ChargeCap(m.amountRule))
    ensures ReceiptsOk(m', log + [r]) && LatestOk(m', log + [r])
  {
    var log' := log + [r];
    hide PeriodsOk, CountersOk, LatestOk, Collected;
    assert forall i :: 0 <= i < |log| ==> log'[i] == log[i];
    assert LatestOk(m', log') by { LatestIs(m', log', |log|); }
  }

  lemma LatestIs(m: Mandate, log: seq<PaymentReceipt>, i: nat)
    requires i < |log| && log[i].mandateId == m.id && m.lastChargedAt == Some(log[i].timestamp)
    ensures LatestOk(m, log)
  {
  }

  /** The mandate a successful charge writes is again exactly its history. */
  lemma ChargeKeeps(m: Mandate, log: seq<PaymentReceipt>, now: U64, amount: I128, r: PaymentReceipt, m': Mandate)
    requires MandateOk(m, log) && m.status == Active
    requires m.startAt <= now < m.expiresAt && 0 < amount && RuleAdmits(m.amountRule, amount)
    requires TimingPlan(m, now, amount).Ok?
    requires AfterCharge(m, now, amount, TimingPlan(m, now, amount).value) == Some(m')
    requires r.mandateId == m.id && r.timestamp == now && r.amount == amount && BelongsTo(r, m)
    ensures MandateOk(m', log + [r])
    ensures TermsOf(m') == TermsOf(m)
  {
    var log' := log + [r];
    CountersAfterCharge(m, log, now, amount, r, m');
    TimingPlanMeaning(m, log, now, amount);
    HistoryAfterCharge(m, log, now, amount, r, m');
    PeriodsAfterCharge(m, log, now, amount, r);
    assert PeriodsOk(m', log');
    hide TimingPlan, ClockOk, StatusOk, CountersOk, PeriodsOk, ReceiptsOk, LatestOk, Within, Admits;
    assert MandateOk(m', log');
  }
}
