/** What holds in every state a run of the registry reaches. */
module RegistryTheorems {
  import opened Wrappers
  import opened Limits
  import opened MandateTypes
  import opened RegistrySpec
  import opened RegistryInvariant
  import opened RegistryRuns
  import opened ChargeHistory
  import opened Periods

  lemma Reached(invs: seq<Invocation>)
    ensures RegistryOk(Run(EMPTY, invs))
  {
    EmptyOk();
    RunKeeps(EMPTY, invs);
  }

  /** The counters of a mandate are its receipts: their number, their sum, the sum in the current period, the latest time. */
  ghost predicate Accounted(m: Mandate, log: seq<PaymentReceipt>)
  {
    && m.successfulCharges == Charges(log, m.id)
    && m.totalCollected == Collected(log, m.id, 0, U64_MAX + 1)
    && m.currentPeriodCollected == Collected(log, m.id, m.currentPeriodStart, m.currentPeriodStart + m.periodSeconds)
    && match m.lastChargedAt
       case None => forall i :: 0 <= i < |log| ==> log[i].mandateId != m.id
       case Some(last) =>
         && (exists i :: 0 <= i < |log| && log[i].mandateId == m.id && log[i].timestamp == last)
         && (forall i :: 0 <= i < |log| && log[i].mandateId == m.id ==> log[i].timestamp <= last)
  }

  lemma MandateAccounted(m: Mandate, log: seq<PaymentReceipt>)
    requires MandateOk(m, log)
    ensures Accounted(m, log)
  {
    Outside(log, m.id, m.startAt, Horizon(m), ChargeCap(m.amountRule), 0, U64_MAX + 1);
    Outside(log, m.id, m.startAt, Horizon(m), ChargeCap(m.amountRule), m.startAt, m.expiresAt);
  }

  lemma AccountingEqualsHistory(invs: seq<Invocation>, id: Hash)
    requires id in Run(EMPTY, invs).mandates
    ensures Run(EMPTY, invs).mandates[id].id == id
    ensures Accounted(Run(EMPTY, invs).mandates[id], Run(EMPTY, invs).charged)
  {
    Reached(invs);
    hide MandateOk, Accounted, ReceiptsStored, RefundsOk, Run;
    MandateAccounted(Run(EMPTY, invs).mandates[id], Run(EMPTY, invs).charged);
  }

  /** Charges of one mandate are in time order, at least the minimum interval apart, and within its window. */
  lemma ChargesAreSpaced(invs: seq<Invocation>, i: nat, j: nat)
    requires i < j < |Run(EMPTY, invs).charged|
    requires Run(EMPTY, invs).charged[i].mandateId == Run(EMPTY, invs).charged[j].mandateId
    ensures var reg := Run(EMPTY, invs); var a, b := reg.charged[i], reg.charged[j];
      && a.mandateId in reg.mandates
      && var m := reg.mandates[a.mandateId];
         m.startAt <= a.timestamp <= a.timestamp + m.minIntervalSeconds <= b.timestamp < m.expiresAt
  {
    Reached(invs);
    var reg := Run(EMPTY, invs);
    var m := reg.mandates[reg.charged[i].mandateId];
    assert MandateOk(m, reg.charged);
  }

  /** Every receipt pays the mandate's own parties, in its asset, within its rule. */
  lemma ReceiptMatchesMandate(invs: seq<Invocation>, i: nat)
    requires i < |Run(EMPTY, invs).charged|
    ensures var reg := Run(EMPTY, invs); var r := reg.charged[i];
      && r.mandateId in reg.mandates
      && var m := reg.mandates[r.mandateId];
         && r.payer == m.payer && r.merchant == m.merchant && r.asset == m.asset
         && 0 < r.amount && (match m.amountRule case Fixed(exact) => r.amount == exact case Variable(max) => r.amount <= max)
  {
    Reached(invs);
    var reg := Run(EMPTY, invs);
    assert MandateOk(reg.mandates[reg.charged[i].mandateId], reg.charged);
  }

  predicate IsCharge(r: PaymentReceipt, mandateId: Hash, chargeId: Hash)
  {
    r.mandateId == mandateId && r.chargeId == chargeId
  }

  predicate Unseen(log: seq<PaymentReceipt>, mandateId: Hash, chargeId: Hash)
  {
    forall i :: 0 <= i < |log| ==> !IsCharge(log[i], mandateId, chargeId)
  }

  /** The replay guard is exactly the set of charges published. */
  lemma UsedMeansSeen(reg: Registry, mandateId: Hash, chargeId: Hash)
    requires ReceiptsStored(reg) && ReplayGuardsOk(reg)
    ensures (mandateId, chargeId) in reg.usedCharges <==> !Unseen(reg.charged, mandateId, chargeId)
  {
    if (mandateId, chargeId) in reg.usedCharges {
      var i :| 0 <= i < |reg.charged| && reg.charged[i] == reg.payments[PaymentHash(mandateId, chargeId)];
      assert IsCharge(reg.charged[i], mandateId, chargeId);
    }
  }

  /** A charge id succeeds at most once per mandate, and is used exactly when it has a receipt. */
  lemma ChargeIdAtMostOnce(invs: seq<Invocation>, mandateId: Hash, chargeId: Hash)
    ensures var reg := Run(EMPTY, invs);
      && (forall i, j | 0 <= i < |reg.charged| && 0 <= j < |reg.charged| ::
            IsCharge(reg.charged[i], mandateId, chargeId) && IsCharge(reg.charged[j], mandateId, chargeId) ==> i == j)
      && ((mandateId, chargeId) in reg.usedCharges <==> !Unseen(reg.charged, mandateId, chargeId))
  {
    Reached(invs);
    hide MandatesOk, RefundsOk;
    UsedMeansSeen(Run(EMPTY, invs), mandateId, chargeId);
  }

  /**
   * `get_payment` answers exactly for the derived id of a charge that has
   * succeeded, and then with that charge's receipt: after any run, whatever
   * the id.
   */
  lemma GetPaymentMeaning(invs: seq<Invocation>, id: Hash, mandateId: Hash, chargeId: Hash)
    ensures var reg := Run(EMPTY, invs); var r := GetPayment(reg, id);
      && (r.Ok? <==> id.PaymentHash? && !Unseen(reg.charged, id.mandate, id.charge))
      && (r.Ok? ==> r.value in reg.charged && IsCharge(r.value, id.mandate, id.charge))
      && (!r.Ok? ==> r == Err(PaymentNotFound))
    ensures var reg := Run(EMPTY, invs);
      GetPayment(reg, PaymentHash(mandateId, chargeId)).Ok? <==> (mandateId, chargeId) in reg.usedCharges
  {
    Reached(invs);
    var reg := Run(EMPTY, invs);
    hide MandatesOk, RefundsOk, Run;
    if id in reg.payments {
      var i :| 0 <= i < |reg.charged| && reg.charged[i] == reg.payments[id];
      assert IsCharge(reg.charged[i], id.mandate, id.charge);
    }
  }

  /** `get_refund` answers exactly for a refund that has succeeded, with its receipt, which refunds a stored payment. */
  lemma GetRefundMeaning(invs: seq<Invocation>, id: Hash)
    ensures var reg := Run(EMPTY, invs); var r := GetRefund(reg, id);
      && (r.Ok? <==> exists i :: 0 <= i < |reg.refunded| && reg.refunded[i].refundId == id)
      && (r.Ok? ==> r.value in reg.refunded && r.value.refundId == id && GetPayment(reg, r.value.paymentId).Ok?)
      && (!r.Ok? ==> r == Err(RefundNotFound))
  {
    Reached(invs);
    var reg := Run(EMPTY, invs);
    hide MandatesOk, ReceiptsStored, ReplayGuardsOk, RefundTotalsOk, Run;
    if id in reg.refunds {
      var i :| 0 <= i < |reg.refunded| && reg.refunded[i] == reg.refunds[id];
      assert reg.refunded[i].refundId == id;
    }
  }

  /** A refund id succeeds at most once in the whole contract; a payment is refunded by at most its amount. */
  lemma RefundsBounded(invs: seq<Invocation>, paymentId: Hash)
    ensures var reg := Run(EMPTY, invs);
      && RefundedTotal(reg, paymentId) == RefundSum(reg.refunded, paymentId)
      && RefundSum(reg.refunded, paymentId) <= (if paymentId in reg.payments then reg.payments[paymentId].amount else 0)
      && forall i, j | 0 <= i < j < |reg.refunded| :: reg.refunded[i].refundId != reg.refunded[j].refundId
  {
    Reached(invs);
    hide MandatesOk, ReceiptsStored, ReplayGuardsOk;
    if paymentId in Run(EMPTY, invs).payments { PaymentPositive(Run(EMPTY, invs), paymentId); }
  }

  lemma PaymentPositive(reg: Registry, paymentId: Hash)
    requires MandatesOk(reg) && ReceiptsStored(reg) && paymentId in reg.payments
    ensures 0 < reg.payments[paymentId].amount
  {
    var k :| 0 <= k < |reg.charged| && reg.charged[k] == reg.payments[paymentId];
    assert MandateOk(reg.mandates[reg.charged[k].mandateId], reg.charged);
  }

  /** Stored status: never Expired, and Completed exactly when a nonzero cap is used up. */
  lemma StoredStatus(invs: seq<Invocation>, id: Hash)
    requires id in Run(EMPTY, invs).mandates
    ensures var m := Run(EMPTY, invs).mandates[id];
      && m.status != Expired
      && (m.status == Completed <==> m.maxSuccessfulCharges != 0 && m.successfulCharges == m.maxSuccessfulCharges)
  {
    Reached(invs);
  }

  /** From any reached state on: terms stay, terminal records freeze, receipts stay. */
  lemma PermanentFromHere(invs: seq<Invocation>, more: seq<Invocation>)
    ensures Evolves(Run(EMPTY, invs), Run(Run(EMPTY, invs), more))
  {
    Reached(invs);
    RunEvolves(Run(EMPTY, invs), more);
  }

  /** A charge that meets every rule of the mandate and of the history, in no particular order. */
  ghost predicate MeetsEveryRule(m: Mandate, log: seq<PaymentReceipt>, now: U64, auth: set<Address>, chargeId: Hash, amount: I128)
    requires 0 < m.periodSeconds
  {
    && m.status == Active && m.startAt <= now < m.expiresAt
    && m.merchant in auth
    && Unseen(log, m.id, chargeId)
    && 0 < amount && (match m.amountRule case Fixed(exact) => amount == exact case Variable(max) => amount <= max)
    && Admits(m, log, now, amount)
  }

  /** Steps 1 to 8: what must hold before the timing steps are reached. */
  lemma PlanUnlessTiming(reg: Registry, now: U64, auth: set<Address>, mandateId: Hash, chargeId: Hash, amount: I128)
    requires mandateId in reg.mandates && reg.mandates[mandateId].status != Expired
    ensures var m := reg.mandates[mandateId];
      var reached := && m.status == Active && m.startAt <= now < m.expiresAt && m.merchant in auth
                     && (mandateId, chargeId) !in reg.usedCharges && 0 < amount && RuleAdmits(m.amountRule, amount);
      if reached then ChargePlan(reg, now, auth, mandateId, chargeId, amount) == TimingPlan(m, now, amount)
      else !ChargePlan(reg, now, auth, mandateId, chargeId, amount).Ok?
  {
    hide TimingPlan, RuleAdmits;
  }

  /** Steps 1 to 12 accept exactly those charges. */
  lemma ChargePlanMeaning(reg: Registry, now: U64, auth: set<Address>, mandateId: Hash, chargeId: Hash, amount: I128)
    requires RegistryOk(reg) && mandateId in reg.mandates
    ensures ChargePlan(reg, now, auth, mandateId, chargeId, amount).Ok?
       <==> MeetsEveryRule(reg.mandates[mandateId], reg.charged, now, auth, chargeId, amount)
  {
    var m := reg.mandates[mandateId];
    UsedMeansSeen(reg, mandateId, chargeId);
    assert MandateOk(m, reg.charged) && m.id == mandateId;
    assert TermsOk(m) && m.status != Expired;
    hide RegistryOk, MandateOk, TermsOk, Unseen, Admits, TimingPlan;
    if m.startAt <= now && 0 < amount { TimingPlanMeaning(m, reg.charged, now, amount); }
    PlanUnlessTiming(reg, now, auth, mandateId, chargeId, amount);
  }

  /**
   * Which refusals can happen: the count check, the second expiry check, the
   * zero-period division and the overflow of the period boundary never do.
   * Overflow is reported exactly when the interval leaves u64 or the period sum
   * leaves i128.
   */
  lemma TimingRefusals(m: Mandate, log: seq<PaymentReceipt>, now: U64, amount: I128)
    requires MandateOk(m, log) && EffectiveStatus(m, now) == Active && m.startAt <= now && 0 < amount
    ensures now < m.expiresAt
    ensures !TimingPlan(m, now, amount).Trap?
    ensures TimingPlan(m, now, amount) != Err(ChargeCountExceeded)
    ensures TimingPlan(m, now, amount) == Err(ArithmeticOverflow) <==>
      || (m.lastChargedAt.Some? && m.lastChargedAt.value + m.minIntervalSeconds > U64_MAX)
      || ((m.lastChargedAt.Some? ==> m.lastChargedAt.value + m.minIntervalSeconds <= now)
          && var periodStart := PeriodStart(m.startAt, m.periodSeconds, now);
             Collected(log, m.id, periodStart, periodStart + m.periodSeconds) + amount > I128_MAX)
  {
    if m.lastChargedAt.None? || m.lastChargedAt.value + m.minIntervalSeconds <= now {
      PeriodAt(m, log, now);
    }
    var periodStart := PeriodStart(m.startAt, m.periodSeconds, now);
    Bounds(log, m.id, m.startAt, Horizon(m), ChargeCap(m.amountRule), periodStart, periodStart + m.periodSeconds);
  }

  lemma PlanNeverCountError(reg: Registry, now: U64, auth: set<Address>, mandateId: Hash, chargeId: Hash, amount: I128)
    requires RegistryOk(reg)
    ensures ChargePlan(reg, now, auth, mandateId, chargeId, amount) != Err(ChargeCountExceeded)
  {
    hide ReceiptsStored, ReplayGuardsOk, RefundsOk, MandateOk, TimingPlan, Admits;
    if mandateId in reg.mandates {
      var m := reg.mandates[mandateId];
      if EffectiveStatus(m, now) == Active && m.startAt <= now && 0 < amount {
        TimingRefusals(m, reg.charged, now, amount);
      }
    }
  }

  /** A charge never reports that the count is exceeded: the mandate is Completed first. */
  lemma CountErrorUnreachable(invs: seq<Invocation>, now: U64, auth: set<Address>, token: TokenReply,
                              mandateId: Hash, chargeId: Hash, amount: I128, invoiceHash: Hash)
    ensures Charge(Run(EMPTY, invs), now, auth, token, mandateId, chargeId, amount, invoiceHash).1 != Err(ChargeCountExceeded)
  {
    Reached(invs);
    hide RegistryOk, ChargePlan, Run;
    PlanNeverCountError(Run(EMPTY, invs), now, auth, mandateId, chargeId, amount);
  }
}
