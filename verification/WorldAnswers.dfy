/** The contract's answers over the honest token: every answer, and exactly when it is given. */
module WorldAnswers {
  import opened Wrappers
  import opened Limits
  import opened MandateTypes
  import opened RegistrySpec
  import opened RegistryInvariant
  import opened RegistryRuns
  import opened RegistryTheorems
  import opened RegistryAnswers
  import opened ChargeHistory
  import opened TokenSpec
  import opened World
  import opened Conservation

  // ---- charge ----

  /** The payer allows the registry the amount, and has it. */
  predicate CanPay(w: World, m: Mandate, amount: I128)
  {
    Allowance(w.tokens, m.asset, m.payer, w.self) >= amount && Balance(w.tokens, m.asset, m.payer) >= amount
  }

  /** The asset's contract is willing to move money, and the receiver's balance stays within its width. */
  predicate CanMove(w: World, asset: Address, to: Address, amount: I128)
  {
    asset !in w.tokens.failing && Balance(w.tokens, asset, to) + amount <= I128_MAX
  }

  /** A counter of the mandate would leave its width. */
  predicate CountersFull(m: Mandate, amount: I128)
  {
    m.successfulCharges == U32_MAX || m.totalCollected + amount > I128_MAX
  }

  /** The transfer of a charge that can be paid goes through exactly when the money can move. */
  lemma ChargeTransferExactly(w: World, m: Mandate, amount: I128)
    requires 0 < amount && m.payer != m.merchant && CanPay(w, m, amount)
    ensures ChargeTransfer(w, m, amount).Some? <==> CanMove(w, m.asset, m.merchant, amount)
  {
  }

  /** Answers that come before the token is asked. */
  lemma PlannedAnswers(w: World, now: U64, auth: set<Address>, mandateId: Hash, chargeId: Hash, amount: I128, invoiceHash: Hash)
    requires RegistryOk(w.reg)
    ensures var plan := ChargePlan(w.reg, now, auth, mandateId, chargeId, amount);
      var r := WorldCharge(w, now, auth, mandateId, chargeId, amount, invoiceHash).1;
      && (plan.Err? ==> r == Err(plan.error)) && (plan.Trap? ==> r == Trap)
      && (mandateId !in w.reg.mandates ==> plan == Err(MandateNotFound))
      && (plan.Ok? <==> mandateId in w.reg.mandates && MeetsEveryRule(w.reg.mandates[mandateId], w.reg.charged, now, auth, chargeId, amount))
  {
    if mandateId in w.reg.mandates { ChargePlanMeaning(w.reg, now, auth, mandateId, chargeId, amount); }
    hide RegistryOk, TimingPlan, MeetsEveryRule, HonestReply, RecordCharge;
  }

  /** Answers from the token on. */
  lemma PaidAnswers(w: World, now: U64, auth: set<Address>, mandateId: Hash, chargeId: Hash, amount: I128, invoiceHash: Hash)
    requires RegistryOk(w.reg) && ChargePlan(w.reg, now, auth, mandateId, chargeId, amount).Ok?
    ensures mandateId in w.reg.mandates
    ensures var m := w.reg.mandates[mandateId]; var r := WorldCharge(w, now, auth, mandateId, chargeId, amount, invoiceHash).1;
      if Allowance(w.tokens, m.asset, m.payer, w.self) < amount then r == Err(InsufficientAllowance)
      else if Balance(w.tokens, m.asset, m.payer) < amount then r == Err(InsufficientBalance)
      else if !CanMove(w, m.asset, m.merchant, amount) then r == Trap
      else if CountersFull(m, amount) then r == Err(ArithmeticOverflow)
      else r.Ok?
  {
    PlanIsPositive(w.reg, now, auth, mandateId, chargeId, amount);
    PositiveTerms(w.reg, mandateId);
    var m := w.reg.mandates[mandateId];
    TokenAnswers(w.reg, now, auth, ChargeReply(w, m, amount), mandateId, chargeId, amount, invoiceHash);
    if CanPay(w, m, amount) { ChargeTransferExactly(w, m, amount); }
    hide RegistryOk, ChargePlan, Charge, ChargeTransfer;
  }

  /**
   * Every answer of a charge and exactly when it is given: by the stored record,
   * the history, the signatures and the token's balances. No other error is ever
   * reported.
   */
  lemma ChargeAnswers(w: World, now: U64, auth: set<Address>, mandateId: Hash, chargeId: Hash, amount: I128, invoiceHash: Hash)
    requires RegistryOk(w.reg)
    ensures var r := WorldCharge(w, now, auth, mandateId, chargeId, amount, invoiceHash).1;
      && (r == Err(MandateNotFound) <==> mandateId !in w.reg.mandates)
      && (mandateId in w.reg.mandates ==> 0 < w.reg.mandates[mandateId].periodSeconds)
    ensures mandateId in w.reg.mandates ==>
      var m, log := w.reg.mandates[mandateId], w.reg.charged;
      var r := WorldCharge(w, now, auth, mandateId, chargeId, amount, invoiceHash).1;
      var formed := WellFormed(m, log, now, auth, chargeId, amount);
      var meets := MeetsEveryRule(m, log, now, auth, chargeId, amount);
      && (r == Err(MandatePaused) <==> m.status == Paused && now < m.expiresAt)
      && (r == Err(MandateRevoked) <==> m.status == Revoked)
      && (r == Err(MandateCompleted) <==> m.status == Completed)
      && (r == Err(MandateExpired) <==> (m.status == Active || m.status == Paused) && m.expiresAt <= now)
      && (r == Err(ChargeBeforeStart) <==> m.status == Active && now < m.expiresAt && now < m.startAt)
      && (r == Err(DuplicateCharge) <==> Open(m, now, auth) && !Unseen(log, mandateId, chargeId))
      && (r == Err(InvalidAmount) <==> Open(m, now, auth) && Unseen(log, mandateId, chargeId) && amount <= 0)
      && (r == Err(AmountExceedsChargeLimit) <==> Open(m, now, auth) && Unseen(log, mandateId, chargeId) && 0 < amount && !AmountFits(m, amount))
      && (r == Err(ChargeTooSoon) <==> formed && now < Earliest(m) <= U64_MAX)
      && (r == Err(AmountExceedsPeriodLimit) <==> formed && Earliest(m) <= now && m.maxPerPeriod < PeriodSum(m, log, now, amount) <= I128_MAX)
      && (r == Err(InsufficientAllowance) <==> meets && Allowance(w.tokens, m.asset, m.payer, w.self) < amount)
      && (r == Err(InsufficientBalance) <==>
            meets && amount <= Allowance(w.tokens, m.asset, m.payer, w.self) && Balance(w.tokens, m.asset, m.payer) < amount)
      && (r == Trap <==>
            || (m.status == Active && m.startAt <= now < m.expiresAt && m.merchant !in auth)
            || (meets && CanPay(w, m, amount) && !CanMove(w, m.asset, m.merchant, amount)))
      && (r == Err(ArithmeticOverflow) <==>
            || (formed && (U64_MAX < Earliest(m) || (Earliest(m) <= now && I128_MAX < PeriodSum(m, log, now, amount))))
            || (meets && CanPay(w, m, amount) && CanMove(w, m.asset, m.merchant, amount) && CountersFull(m, amount)))
      && (r.Ok? <==> meets && CanPay(w, m, amount) && CanMove(w, m.asset, m.merchant, amount) && !CountersFull(m, amount))
  {
    PlannedAnswers(w, now, auth, mandateId, chargeId, amount, invoiceHash);
    var plan := ChargePlan(w.reg, now, auth, mandateId, chargeId, amount);
    if mandateId in w.reg.mandates {
      var m := w.reg.mandates[mandateId];
      FirstAnswers(w.reg, now, auth, mandateId, chargeId, amount);
      LaterAnswers(w.reg, now, auth, mandateId, chargeId, amount);
      hide RegistryOk, ChargePlan, WorldCharge, WellFormed, MeetsEveryRule, CanMove, CountersFull, PeriodSum, Earliest,
           Open, AmountFits, Unseen, Allowance, Balance, TimingPlan;
      if plan.Ok? {
        PaidAnswers(w, now, auth, mandateId, chargeId, amount, invoiceHash);
      }
    }
  }

  /** The receipt of a charge, field by field. */
  lemma ChargeReceiptIs(w: World, now: U64, auth: set<Address>, mandateId: Hash, chargeId: Hash, amount: I128, invoiceHash: Hash)
    requires WorldCharge(w, now, auth, mandateId, chargeId, amount, invoiceHash).1.Ok?
    ensures mandateId in w.reg.mandates
    ensures var m := w.reg.mandates[mandateId];
      WorldCharge(w, now, auth, mandateId, chargeId, amount, invoiceHash).1.value
      == PaymentReceipt(PaymentHash(mandateId, chargeId), mandateId, chargeId, m.payer, m.merchant, m.asset, amount, invoiceHash, now)
  {
    hide TimingPlan, ChargeTransfer, RecordCharge;
  }

  // ---- refund ----

  /** The payment is stored, and is this mandate's. */
  predicate Refundable(reg: Registry, mandateId: Hash, paymentId: Hash)
  {
    mandateId in reg.mandates && paymentId in reg.payments && reg.payments[paymentId].mandateId == mandateId
  }

  predicate RefundSeen(reg: Registry, refundId: Hash)
  {
    exists i :: 0 <= i < |reg.refunded| && reg.refunded[i].refundId == refundId
  }

  /** A signed refund of a payment of the mandate, under an unused id, of a positive amount. */
  ghost predicate RefundFormed(reg: Registry, auth: set<Address>, mandateId: Hash, paymentId: Hash, amount: I128, refundId: Hash)
  {
    && Refundable(reg, mandateId, paymentId) && reg.mandates[mandateId].merchant in auth
    && !RefundSeen(reg, refundId) && 0 < amount
  }

  /** What would be refunded of the payment in all. */
  function RefundSumAfter(reg: Registry, paymentId: Hash, amount: I128): int
  {
    RefundSum(reg.refunded, paymentId) + amount
  }

  lemma UsedRefundMeansSeen(reg: Registry, refundId: Hash)
    requires RegistryOk(reg)
    ensures refundId in reg.usedRefunds <==> RefundSeen(reg, refundId)
  {
    hide MandatesOk, ReceiptsStored, ReplayGuardsOk, RefundTotalsOk;
    if refundId in reg.refunds {
      var i :| 0 <= i < |reg.refunded| && reg.refunded[i] == reg.refunds[refundId];
      assert reg.refunded[i].refundId == refundId;
    }
  }

  lemma RefundTotalIsSum(reg: Registry, paymentId: Hash)
    requires RegistryOk(reg)
    ensures RefundedTotal(reg, paymentId) == RefundSum(reg.refunded, paymentId) >= 0
  {
    assert forall i :: 0 <= i < |reg.refunded| ==> reg.refunded[i].amount > 0;
    RefundSumPositive(reg.refunded, paymentId);
    hide MandatesOk, ReceiptsStored, ReplayGuardsOk, RefundsStored;
  }

  lemma {:induction false} RefundSumPositive(log: seq<RefundReceipt>, paymentId: Hash)
    requires forall i :: 0 <= i < |log| ==> log[i].amount > 0
    ensures RefundSum(log, paymentId) >= 0
  {
    if log != [] {
      var front := log[..|log| - 1];
      assert forall i :: 0 <= i < |front| ==> front[i] == log[i];
      RefundSumPositive(front, paymentId);
    }
  }

  /** Steps 1 to 7 of a refund, answer by answer. */
  lemma RefundPlanAnswers(reg: Registry, auth: set<Address>, mandateId: Hash, paymentId: Hash, amount: I128, refundId: Hash)
    requires RegistryOk(reg)
    ensures var r := RefundPlan(reg, auth, mandateId, paymentId, amount, refundId);
      var formed := RefundFormed(reg, auth, mandateId, paymentId, amount, refundId);
      && (r == Err(MandateNotFound) <==> mandateId !in reg.mandates)
      && (r == Err(PaymentNotFound) <==> mandateId in reg.mandates && !Refundable(reg, mandateId, paymentId))
      && (r == Trap <==> Refundable(reg, mandateId, paymentId) && reg.mandates[mandateId].merchant !in auth)
      && (r == Err(DuplicateRefund) <==>
            Refundable(reg, mandateId, paymentId) && reg.mandates[mandateId].merchant in auth && RefundSeen(reg, refundId))
      && (r == Err(InvalidAmount) <==>
            Refundable(reg, mandateId, paymentId) && reg.mandates[mandateId].merchant in auth && !RefundSeen(reg, refundId) && amount <= 0)
      && (r == Err(RefundExceedsPayment) <==>
            formed && reg.payments[paymentId].amount < RefundSumAfter(reg, paymentId, amount) <= I128_MAX)
      && (r == Err(ArithmeticOverflow) <==> formed && I128_MAX < RefundSumAfter(reg, paymentId, amount))
      && (r.Ok? <==> formed && RefundSumAfter(reg, paymentId, amount) <= reg.payments[paymentId].amount)
      && r != Err(InsufficientBalance)
  {
    hide RegistryOk, RefundSum, RefundedTotal, RefundSeen;
    UsedRefundMeansSeen(reg, refundId);
    RefundTotalIsSum(reg, paymentId);
    var seen, total := RefundSeen(reg, refundId), RefundedTotal(reg, paymentId);
    assert RefundSumAfter(reg, paymentId, amount) == total + amount && (refundId in reg.usedRefunds <==> seen);
    hide RefundSumAfter;
  }

  /** The rest of the refund's conditions: the merchant has the money and it can move. */
  predicate MerchantCanRefund(w: World, p: PaymentReceipt, amount: I128)
  {
    Balance(w.tokens, p.asset, p.merchant) >= amount && CanMove(w, p.asset, p.payer, amount)
  }

  lemma RefundTransferExactly(w: World, auth: set<Address>, p: PaymentReceipt, amount: I128)
    requires 0 < amount && p.payer != p.merchant && p.merchant in auth && Balance(w.tokens, p.asset, p.merchant) >= amount
    ensures RefundTransfer(w, auth, p, amount).Some? <==> CanMove(w, p.asset, p.payer, amount)
  {
  }

  lemma RefundAfterPlan(w: World, now: U64, auth: set<Address>, mandateId: Hash, paymentId: Hash, amount: I128, refundId: Hash)
    requires RegistryOk(w.reg)
    ensures var plan := RefundPlan(w.reg, auth, mandateId, paymentId, amount, refundId);
      var r := WorldRefund(w, now, auth, mandateId, paymentId, amount, refundId).1;
      && (plan.Err? ==> r == Err(plan.error)) && (plan.Trap? ==> r == Trap)
      && (plan.Ok? ==>
            && paymentId in w.reg.payments
            && var p := w.reg.payments[paymentId];
               if Balance(w.tokens, p.asset, p.merchant) < amount then r == Err(InsufficientBalance)
               else if !CanMove(w, p.asset, p.payer, amount) then r == Trap
               else r == Ok(RefundReceipt(refundId, paymentId, amount, now)))
  {
    var plan := RefundPlan(w.reg, auth, mandateId, paymentId, amount, refundId);
    if plan.Ok? {
      RefundPlanAnswers(w.reg, auth, mandateId, paymentId, amount, refundId);
      assert 0 < amount && paymentId in w.reg.payments;
      PaymentParties(w.reg, paymentId);
      RefundTransferAuthorised(w.reg, auth, mandateId, paymentId, amount, refundId);
      var p := w.reg.payments[paymentId];
      if Balance(w.tokens, p.asset, p.merchant) >= amount { RefundTransferExactly(w, auth, p, amount); }
    }
    hide RegistryOk, RefundPlan, RecordRefund, RefundTransfer;
  }

  /**
   * Every answer of a refund and exactly when it is given. In particular the
   * whole unrefunded rest of a payment can be refunded, in any parts.
   */
  lemma RefundAnswers(w: World, now: U64, auth: set<Address>, mandateId: Hash, paymentId: Hash, amount: I128, refundId: Hash)
    requires RegistryOk(w.reg)
    ensures var reg, r := w.reg, WorldRefund(w, now, auth, mandateId, paymentId, amount, refundId).1;
      var formed := RefundFormed(reg, auth, mandateId, paymentId, amount, refundId);
      && (r == Err(MandateNotFound) <==> mandateId !in reg.mandates)
      && (r == Err(PaymentNotFound) <==> mandateId in reg.mandates && !Refundable(reg, mandateId, paymentId))
      && (r == Err(DuplicateRefund) <==>
            Refundable(reg, mandateId, paymentId) && reg.mandates[mandateId].merchant in auth && RefundSeen(reg, refundId))
      && (r == Err(InvalidAmount) <==>
            Refundable(reg, mandateId, paymentId) && reg.mandates[mandateId].merchant in auth && !RefundSeen(reg, refundId) && amount <= 0)
      && (r == Err(RefundExceedsPayment) <==>
            formed && reg.payments[paymentId].amount < RefundSumAfter(reg, paymentId, amount) <= I128_MAX)
      && (r == Err(ArithmeticOverflow) <==> formed && I128_MAX < RefundSumAfter(reg, paymentId, amount))
      && (r == Err(InsufficientBalance) <==>
            formed && RefundSumAfter(reg, paymentId, amount) <= reg.payments[paymentId].amount
            && Balance(w.tokens, reg.payments[paymentId].asset, reg.payments[paymentId].merchant) < amount)
      && (r.Ok? <==>
            formed && RefundSumAfter(reg, paymentId, amount) <= reg.payments[paymentId].amount
            && MerchantCanRefund(w, reg.payments[paymentId], amount))
      && (r.Ok? ==> r.value == RefundReceipt(refundId, paymentId, amount, now))
      && (r == Trap <==>
            || (Refundable(reg, mandateId, paymentId) && reg.mandates[mandateId].merchant !in auth)
            || (formed && RefundSumAfter(reg, paymentId, amount) <= reg.payments[paymentId].amount
                && Balance(w.tokens, reg.payments[paymentId].asset, reg.payments[paymentId].merchant) >= amount
                && !CanMove(w, reg.payments[paymentId].asset, reg.payments[paymentId].payer, amount)))
  {
    RefundPlanAnswers(w.reg, auth, mandateId, paymentId, amount, refundId);
    RefundAfterPlan(w, now, auth, mandateId, paymentId, amount, refundId);
    hide RegistryOk, RefundPlan, WorldRefund, RefundSumAfter, RefundSeen, Balance, CanMove;
  }
}
