/**
 * What the contract answers to a charge and to a refund, told by the record, the
 * history and the token, answer by answer.
 */
module RegistryAnswers {
  import opened Wrappers
  import opened Limits
  import opened MandateTypes
  import opened RegistrySpec
  import opened RegistryInvariant
  import opened RegistryRuns
  import opened RegistryTheorems
  import opened ChargeHistory
  import opened Periods

  /** Active, within its window, and the merchant signed: what comes before anything about the charge itself. */
  predicate Open(m: Mandate, now: U64, auth: set<Address>)
  {
    m.status == Active && m.startAt <= now < m.expiresAt && m.merchant in auth
  }

  predicate AmountFits(m: Mandate, amount: I128)
  {
    0 < amount && match m.amountRule case Fixed(exact) => amount == exact case Variable(max) => amount <= max
  }

  /** A charge of an open mandate under an unused id, of an amount its rule allows: only time, caps and money are left. */
  ghost predicate WellFormed(m: Mandate, log: seq<PaymentReceipt>, now: U64, auth: set<Address>, chargeId: Hash, amount: I128)
  {
    Open(m, now, auth) && Unseen(log, m.id, chargeId) && AmountFits(m, amount)
  }

  /** What the aligned period of `now` would have collected with this charge. */
  function PeriodSum(m: Mandate, log: seq<PaymentReceipt>, now: U64, amount: I128): int
    requires 0 < m.periodSeconds && m.startAt <= now
  {
    var start := PeriodStart(m.startAt, m.periodSeconds, now);
    Collected(log, m.id, start, start + m.periodSeconds) + amount
  }

  /** The earliest instant the minimum interval allows. */
  function Earliest(m: Mandate): int
  {
    if m.lastChargedAt.Some? then m.lastChargedAt.value + m.minIntervalSeconds else 0
  }

  /** Steps 9 to 12 of an open mandate, answer by answer. */
  lemma TimingAnswers(m: Mandate, log: seq<PaymentReceipt>, now: U64, amount: I128)
    requires MandateOk(m, log) && m.status == Active && m.startAt <= now < m.expiresAt && 0 < amount
    ensures var r := TimingPlan(m, now, amount);
      && (r.Ok? <==> Earliest(m) <= now && PeriodSum(m, log, now, amount) <= m.maxPerPeriod)
      && (r == Err(ChargeTooSoon) <==> now < Earliest(m) <= U64_MAX)
      && (r == Err(AmountExceedsPeriodLimit) <==> Earliest(m) <= now && m.maxPerPeriod < PeriodSum(m, log, now, amount) <= I128_MAX)
      && (r == Err(ArithmeticOverflow) <==> U64_MAX < Earliest(m) || (Earliest(m) <= now && I128_MAX < PeriodSum(m, log, now, amount)))
      && (r.Err? ==> r.error == ChargeTooSoon || r.error == AmountExceedsPeriodLimit || r.error == ArithmeticOverflow)
      && !r.Trap?
  {
    if m.lastChargedAt.None? || m.lastChargedAt.value + m.minIntervalSeconds <= now { PeriodAt(m, log, now); }
    var start := PeriodStart(m.startAt, m.periodSeconds, now);
    Bounds(log, m.id, m.startAt, Horizon(m), ChargeCap(m.amountRule), start, start + m.periodSeconds);
  }

  /** The refusals that come before time, caps and money. */
  predicate ComesFirst(e: Error)
  {
    || e == MandatePaused || e == MandateRevoked || e == MandateCompleted || e == MandateExpired || e == ChargeBeforeStart
    || e == DuplicateCharge || e == InvalidAmount || e == AmountExceedsChargeLimit
  }

  /** Steps 1 to 8: refusals by status, window, authorization, id and amount, each exactly. */
  lemma FirstAnswers(reg: Registry, now: U64, auth: set<Address>, mandateId: Hash, chargeId: Hash, amount: I128)
    requires RegistryOk(reg) && mandateId in reg.mandates
    ensures var m := reg.mandates[mandateId]; var r := ChargePlan(reg, now, auth, mandateId, chargeId, amount);
      && (r == Err(MandatePaused) <==> m.status == Paused && now < m.expiresAt)
      && (r == Err(MandateRevoked) <==> m.status == Revoked)
      && (r == Err(MandateCompleted) <==> m.status == Completed)
      && (r == Err(MandateExpired) <==> (m.status == Active || m.status == Paused) && m.expiresAt <= now)
      && (r == Err(ChargeBeforeStart) <==> m.status == Active && now < m.expiresAt && now < m.startAt)
      && (r == Trap <==> m.status == Active && m.startAt <= now < m.expiresAt && m.merchant !in auth)
      && (r == Err(DuplicateCharge) <==> Open(m, now, auth) && !Unseen(reg.charged, mandateId, chargeId))
      && (r == Err(InvalidAmount) <==> Open(m, now, auth) && Unseen(reg.charged, mandateId, chargeId) && amount <= 0)
      && (r == Err(AmountExceedsChargeLimit) <==>
            Open(m, now, auth) && Unseen(reg.charged, mandateId, chargeId) && 0 < amount && !AmountFits(m, amount))
      && (WellFormed(m, reg.charged, now, auth, chargeId, amount) ==> r == TimingPlan(m, now, amount))
      && (!WellFormed(m, reg.charged, now, auth, chargeId, amount) ==> r == Trap || (r.Err? && ComesFirst(r.error)))
  {
    var m := reg.mandates[mandateId];
    UsedMeansSeen(reg, mandateId, chargeId);
    assert m.id == mandateId && MandateOk(m, reg.charged);
    assert m.status != Expired;
    if m.status == Active && m.startAt <= now < m.expiresAt && 0 < amount { TimingAnswers(m, reg.charged, now, amount); }
    hide RegistryOk, MandateOk, Unseen, TimingPlan, PeriodSum;
  }

  /** Steps 9 to 12 as answers of the whole: only a well-formed charge gets that far. */
  lemma LaterAnswers(reg: Registry, now: U64, auth: set<Address>, mandateId: Hash, chargeId: Hash, amount: I128)
    requires RegistryOk(reg) && mandateId in reg.mandates
    ensures 0 < reg.mandates[mandateId].periodSeconds
    ensures var m := reg.mandates[mandateId]; var r := ChargePlan(reg, now, auth, mandateId, chargeId, amount);
      var formed := WellFormed(m, reg.charged, now, auth, chargeId, amount);
      && (r == Err(ChargeTooSoon) <==> formed && now < Earliest(m) <= U64_MAX)
      && (r == Err(AmountExceedsPeriodLimit) <==>
            formed && Earliest(m) <= now && m.maxPerPeriod < PeriodSum(m, reg.charged, now, amount) <= I128_MAX)
      && (r == Err(ArithmeticOverflow) <==>
            formed && (U64_MAX < Earliest(m) || (Earliest(m) <= now && I128_MAX < PeriodSum(m, reg.charged, now, amount))))
      && (r.Err? ==> ComesFirst(r.error) || r.error == ChargeTooSoon || r.error == AmountExceedsPeriodLimit || r.error == ArithmeticOverflow)
      && (r == Trap ==> m.status == Active && m.startAt <= now < m.expiresAt && m.merchant !in auth)
  {
    var m := reg.mandates[mandateId];
    FirstAnswers(reg, now, auth, mandateId, chargeId, amount);
    assert MandateOk(m, reg.charged);
    hide RegistryOk, ChargePlan, Unseen;
    if WellFormed(m, reg.charged, now, auth, chargeId, amount) { TimingAnswers(m, reg.charged, now, amount); }
    hide MandateOk, TimingPlan, PeriodSum, Earliest;
  }

  /** A charge past step 12 under each of the token's replies. */
  lemma TokenAnswers(reg: Registry, now: U64, auth: set<Address>, token: TokenReply,
                     mandateId: Hash, chargeId: Hash, amount: I128, invoiceHash: Hash)
    requires ChargePlan(reg, now, auth, mandateId, chargeId, amount).Ok?
    ensures mandateId in reg.mandates
    ensures var m := reg.mandates[mandateId]; var r := Charge(reg, now, auth, token, mandateId, chargeId, amount, invoiceHash).1;
      if token.allowance < amount then r == Err(InsufficientAllowance)
      else if token.balance < amount then r == Err(InsufficientBalance)
      else if !token.transferSucceeds then r == Trap
      else if U32_MAX <= m.successfulCharges || I128_MAX < m.totalCollected + amount then r == Err(ArithmeticOverflow)
      else r.Ok?
  {
    PlanIsPositive(reg, now, auth, mandateId, chargeId, amount);
    hide ChargePlan, TimingPlan, RecordCharge;
  }

  lemma PlanIsPositive(reg: Registry, now: U64, auth: set<Address>, mandateId: Hash, chargeId: Hash, amount: I128)
    requires ChargePlan(reg, now, auth, mandateId, chargeId, amount).Ok?
    ensures mandateId in reg.mandates && 0 < amount
  {
    hide TimingPlan;
  }
}
