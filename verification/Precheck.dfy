/**
 * The API's precheck of a charge request, over unbounded integers, and that it
 * answers as the contract would. Ok(()) is `null`; Trap is a thrown RangeError.
 */
module Precheck {
  import opened Wrappers
  import opened Limits
  import opened MandateTypes
  import opened RegistrySpec
  import opened RegistryInvariant
  import opened RegistryRuns
  import opened ChargeHistory
  import opened Periods
  import opened BigInts

  function PrecheckCharge(view: Mandate, amount: int, now: int): Outcome<()>
  {
    match view.status
    case Paused => Err(MandatePaused)
    case Revoked => Err(MandateRevoked)
    case Completed => Err(MandateCompleted)
    case Expired => Err(MandateExpired)
    case Active =>
      if now < view.startAt then Err(ChargeBeforeStart)
      else if now >= view.expiresAt then Err(MandateExpired)
      else if amount <= 0 then Err(InvalidAmount)
      else if !RuleAdmits(view.amountRule, amount) then Err(AmountExceedsChargeLimit)
      else if view.lastChargedAt.Some? && now < view.lastChargedAt.value + view.minIntervalSeconds then Err(ChargeTooSoon)
      else if view.maxSuccessfulCharges != 0 && view.successfulCharges >= view.maxSuccessfulCharges then Err(ChargeCountExceeded)
      else if view.periodSeconds == 0 then Trap
      else
        var periodStart := view.startAt + TruncDiv(now - view.startAt, view.periodSeconds) * view.periodSeconds;
        var before := if periodStart != view.currentPeriodStart then 0 else view.currentPeriodCollected;
        if before + amount > view.maxPerPeriod then Err(AmountExceedsPeriodLimit) else Ok(())
  }

  /** The errors by which the two may differ: the contract reports overflow where unbounded integers just compare. */
  predicate AgreeOnError(contract: Error, precheck: Error)
  {
    contract == precheck
    || (contract == ArithmeticOverflow && (precheck == ChargeTooSoon || precheck == AmountExceedsPeriodLimit))
  }

  /** Steps 9 to 12 side by side. */
  lemma TimingAgrees(m: Mandate, log: seq<PaymentReceipt>, now: U64, amount: I128)
    requires MandateOk(m, log) && EffectiveStatus(m, now) == Active && m.startAt <= now
    requires 0 < amount && RuleAdmits(m.amountRule, amount)
    ensures PrecheckCharge(m, amount, now) == Ok(()) <==> TimingPlan(m, now, amount).Ok?
    ensures !PrecheckCharge(m, amount, now).Trap?
    ensures PrecheckCharge(m, amount, now).Err? && TimingPlan(m, now, amount).Err?
      ==> AgreeOnError(TimingPlan(m, now, amount).error, PrecheckCharge(m, amount, now).error)
  {
    if m.lastChargedAt.None? || m.lastChargedAt.value + m.minIntervalSeconds <= now {
      PeriodAt(m, log, now);
    }
  }

  /**
   * With the merchant's authorization and a fresh charge id, the precheck of
   * the live `get_mandate` view passes exactly when the contract gets past its
   * own checks to the token, and both refuse for the same reason.
   */
  lemma PrecheckRefinesCharge(reg: Registry, now: U64, auth: set<Address>, mandateId: Hash, chargeId: Hash, amount: I128)
    requires RegistryOk(reg) && mandateId in reg.mandates
    requires reg.mandates[mandateId].merchant in auth && (mandateId, chargeId) !in reg.usedCharges
    ensures var precheck := PrecheckCharge(GetMandate(reg, now, mandateId).value, amount, now);
            var contract := ChargePlan(reg, now, auth, mandateId, chargeId, amount);
      && (precheck == Ok(()) <==> contract.Ok?)
      && !precheck.Trap? && !contract.Trap?
      && (precheck.Err? ==> AgreeOnError(contract.error, precheck.error))
  {
    hide ReceiptsStored, ReplayGuardsOk, RefundsOk, MandateOk, TimingPlan;
    var m := reg.mandates[mandateId];
    var view := GetMandate(reg, now, mandateId).value;
    if EffectiveStatus(m, now) == Active {
      assert view == m;
      if m.startAt <= now && 0 < amount && RuleAdmits(m.amountRule, amount) {
        NeverTraps(m, reg.charged, now, amount);
        TimingAgrees(m, reg.charged, now, amount);
      }
    }
  }

  lemma NeverTraps(m: Mandate, log: seq<PaymentReceipt>, now: U64, amount: I128)
    requires MandateOk(m, log) && m.startAt <= now
    ensures !TimingPlan(m, now, amount).Trap?
  {
  }

  /** An amount the precheck passes is one the contract's i128 can carry. */
  lemma PassedAmountFits(view: Mandate, amount: int, now: int)
    requires PrecheckCharge(view, amount, now) == Ok(())
    ensures 0 < amount <= I128_MAX
  {
    match view.amountRule
    case Fixed(_) =>
    case Variable(_) =>
  }
}
