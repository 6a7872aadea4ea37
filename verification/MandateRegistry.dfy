/**
 * The registry contract as the host runs it: a record read into a local,
 * changed field by field and written back, over the token contracts. Each
 * entry point restores what it started from when it fails, as the host does,
 * and is proved to do what World.dfy and RegistrySpec.dfy say it does.
 */
module MandateRegistry {
  import opened Wrappers
  import opened Limits
  import opened MandateTypes
  import RegistrySpec
  import opened TokenHost
  import W = World

  class MandateRegistry {
    const self: Address
    const token: TokenContracts

    var mandates: map<Hash, Mandate>
    var payments: map<Hash, PaymentReceipt>
    var usedCharges: set<(Hash, Hash)>
    var usedRefunds: set<Hash>
    var refundedTotals: map<Hash, I128>
    var refunds: map<Hash, RefundReceipt>
    var charged: seq<PaymentReceipt>
    var refunded: seq<RefundReceipt>
    /** The lifecycle events published so far. */
    var events: seq<Lifecycle>

    function Storage(): RegistrySpec.Registry
      reads this
    {
      RegistrySpec.Registry(mandates, payments, usedCharges, usedRefunds, refundedTotals, refunds, charged, refunded)
    }

    function Snapshot(): W.World
      reads this, token
    {
      W.World(Storage(), token.Snapshot(), self)
    }

    constructor (self: Address, token: TokenContracts)
      ensures this.self == self && this.token == token
      ensures Storage() == RegistrySpec.EMPTY && events == []
    {
      this.self, this.token := self, token;
      mandates, payments, usedCharges, usedRefunds := map[], map[], {}, {};
      refundedTotals, refunds, charged, refunded, events := map[], map[], [], [], [];
    }

    method Restore(saved: W.World)
      modifies this, token
      ensures Storage() == saved.reg && token.Snapshot() == saved.tokens && events == old(events)
    {
      mandates, payments, usedCharges, usedRefunds :=
        saved.reg.mandates, saved.reg.payments, saved.reg.usedCharges, saved.reg.usedRefunds;
      refundedTotals, refunds, charged, refunded :=
        saved.reg.refundedTotals, saved.reg.refunds, saved.reg.charged, saved.reg.refunded;
      token.Restore(saved.tokens);
    }

    // ---- lifecycle ----

    method CreateMandate(now: U64, auth: set<Address>, input: MandateInput) returns (r: Outcome<Hash>)
      modifies this
      ensures (Storage(), r) == RegistrySpec.Create(old(Storage()), now, auth, input)
      ensures events == old(events) + RegistrySpec.CreateEvents(Storage(), r)
      ensures !r.Ok? ==> Storage() == old(Storage())
    {
      if input.payer !in auth { return Trap; }
      var mandateId := MandateHash(input.payer, input.merchant, input.asset, input.clientNonce);
      if mandateId in mandates { return Err(DuplicateMandate); }
      var perChargeCap := ChargeCap(input.amountRule);
      if perChargeCap <= 0 { return Err(InvalidAmount); }
      if input.maxPerPeriod <= 0 { return Err(InvalidMandateInput); }
      if input.maxPerPeriod < perChargeCap { return Err(InvalidMandateInput); }
      if input.periodSeconds == 0 { return Err(InvalidMandateInput); }
      if input.expiresAt <= input.startAt { return Err(InvalidMandateInput); }
      if input.expiresAt <= now { return Err(InvalidMandateInput); }
      if input.payer == input.merchant { return Err(InvalidMandateInput); }
      mandates := mandates[mandateId := RegistrySpec.NewMandate(input, now)];
      events := events + [Lifecycle(CreatedEvent, mandateId, input.payer, input.merchant, input.asset)];
      return Ok(mandateId);
    }

    method PauseMandate(now: U64, auth: set<Address>, id: Hash) returns (r: Outcome<()>)
      modifies this
      ensures (Storage(), r) == RegistrySpec.ApplyControl(old(Storage()), now, auth, id, RegistrySpec.Pause)
      ensures events == old(events) + RegistrySpec.ControlEvents(Storage(), r, id, RegistrySpec.Pause)
      ensures r.Ok? <==> id in old(mandates) && old(mandates)[id].payer in auth && old(mandates)[id].status == Active && now < old(mandates)[id].expiresAt
      ensures mandates == if r.Ok? then old(mandates)[id := old(mandates)[id].(status := Paused)] else old(mandates)
    {
      if id !in mandates { return Err(MandateNotFound); }
      var mandate := mandates[id];
      if mandate.payer !in auth { return Trap; }
      match RegistrySpec.EffectiveStatus(mandate, now) {
        case Active =>
        case Paused => return Err(MandateNotActive);
        case Revoked => return Err(MandateRevoked);
        case Completed => return Err(MandateCompleted);
        case Expired => return Err(MandateExpired);
      }
      mandate := mandate.(status := Paused);
      mandates := mandates[id := mandate];
      events := events + [Lifecycle(PausedEvent, mandate.id, mandate.payer, mandate.merchant, mandate.asset)];
      return Ok(());
    }

    method ResumeMandate(now: U64, auth: set<Address>, id: Hash) returns (r: Outcome<()>)
      modifies this
      ensures (Storage(), r) == RegistrySpec.ApplyControl(old(Storage()), now, auth, id, RegistrySpec.Resume)
      ensures events == old(events) + RegistrySpec.ControlEvents(Storage(), r, id, RegistrySpec.Resume)
      ensures r.Ok? <==> id in old(mandates) && old(mandates)[id].payer in auth && old(mandates)[id].status == Paused && now < old(mandates)[id].expiresAt
      ensures mandates == if r.Ok? then old(mandates)[id := old(mandates)[id].(status := Active)] else old(mandates)
    {
      if id !in mandates { return Err(MandateNotFound); }
      var mandate := mandates[id];
      if mandate.payer !in auth { return Trap; }
      match RegistrySpec.EffectiveStatus(mandate, now) {
        case Paused =>
        case Active => return Err(InvalidStateTransition);
        case Revoked => return Err(MandateRevoked);
        case Completed => return Err(MandateCompleted);
        case Expired => return Err(MandateExpired);
      }
      mandate := mandate.(status := Active);
      mandates := mandates[id := mandate];
      events := events + [Lifecycle(ResumedEvent, mandate.id, mandate.payer, mandate.merchant, mandate.asset)];
      return Ok(());
    }

    method RevokeMandate(now: U64, auth: set<Address>, id: Hash) returns (r: Outcome<()>)
      modifies this
      ensures (Storage(), r) == RegistrySpec.ApplyControl(old(Storage()), now, auth, id, RegistrySpec.Revoke)
      ensures events == old(events) + RegistrySpec.ControlEvents(Storage(), r, id, RegistrySpec.Revoke)
      ensures r.Ok? <==> id in old(mandates) && old(mandates)[id].payer in auth && old(mandates)[id].status != Revoked && old(mandates)[id].status != Completed
      ensures mandates == if r.Ok? then old(mandates)[id := old(mandates)[id].(status := Revoked)] else old(mandates)
    {
      if id !in mandates { return Err(MandateNotFound); }
      var mandate := mandates[id];
      if mandate.payer !in auth { return Trap; }
      match RegistrySpec.EffectiveStatus(mandate, now) {
        case Active | Paused | Expired =>
        case Revoked => return Err(MandateRevoked);
        case Completed => return Err(MandateCompleted);
      }
      mandate := mandate.(status := Revoked);
      mandates := mandates[id := mandate];
      events := events + [Lifecycle(RevokedEvent, mandate.id, mandate.payer, mandate.merchant, mandate.asset)];
      return Ok(());
    }

    // ---- charge ----

    /** The host's view of a charge: all of it, or none of it. */
    method Charge(now: U64, auth: set<Address>, mandateId: Hash, chargeId: Hash, amount: I128, invoiceHash: Hash)
      returns (r: Outcome<PaymentReceipt>)
      modifies this, token
      ensures (Snapshot(), r) == W.WorldCharge(old(Snapshot()), now, auth, mandateId, chargeId, amount, invoiceHash)
      ensures !r.Ok? ==> Snapshot() == old(Snapshot())
      ensures mandateId in old(mandates) && old(mandates)[mandateId].id == mandateId ==>
        events == old(events) + RegistrySpec.ChargeEvents(Storage(), r, mandateId)
    {
      var before := Snapshot();
      r := ExecuteCharge(now, auth, mandateId, chargeId, amount, invoiceHash);
      if !r.Ok? { Restore(before); }
    }

    /** Steps 1 to 12. They only read. */
    method CheckCharge(now: U64, auth: set<Address>, mandateId: Hash, chargeId: Hash, amount: I128)
      returns (r: Outcome<RegistrySpec.Plan>)
      ensures r == RegistrySpec.ChargePlan(Storage(), now, auth, mandateId, chargeId, amount)
      ensures r.Ok? ==> mandateId in mandates && mandates[mandateId].status == Active
    {
      if mandateId !in mandates { return Err(MandateNotFound); }
      var mandate := mandates[mandateId];
      match RegistrySpec.EffectiveStatus(mandate, now) {
        case Active =>
        case Paused => return Err(MandatePaused);
        case Revoked => return Err(MandateRevoked);
        case Completed => return Err(MandateCompleted);
        case Expired => return Err(MandateExpired);
      }
      if now < mandate.startAt { return Err(ChargeBeforeStart); }
      if now >= mandate.expiresAt { return Err(MandateExpired); }
      if mandate.merchant !in auth { return Trap; }
      if (mandateId, chargeId) in usedCharges { return Err(DuplicateCharge); }
      if amount <= 0 { return Err(InvalidAmount); }
      match mandate.amountRule {
        case Fixed(fixedAmount) => if amount != fixedAmount { return Err(AmountExceedsChargeLimit); }
        case Variable(maxPerCharge) => if amount > maxPerCharge { return Err(AmountExceedsChargeLimit); }
      }
      if mandate.lastChargedAt.Some? {
        var nextEligibleAt := CheckedU64(mandate.lastChargedAt.value + mandate.minIntervalSeconds);
        if nextEligibleAt.None? { return Err(ArithmeticOverflow); }
        if now < nextEligibleAt.value { return Err(ChargeTooSoon); }
      }
      if mandate.maxSuccessfulCharges != 0 && mandate.successfulCharges >= mandate.maxSuccessfulCharges {
        return Err(ChargeCountExceeded);
      }
      var elapsedSinceStart := now - mandate.startAt;
      if mandate.periodSeconds == 0 { return Trap; }
      var periodIndex := elapsedSinceStart / mandate.periodSeconds;
      var periodOffset := CheckedU64(periodIndex * mandate.periodSeconds);
      if periodOffset.None? { return Err(ArithmeticOverflow); }
      var computedPeriodStart := CheckedU64(mandate.startAt + periodOffset.value);
      if computedPeriodStart.None? { return Err(ArithmeticOverflow); }
      var effectivePeriodCollected: I128 :=
        if computedPeriodStart.value != mandate.currentPeriodStart then 0 else mandate.currentPeriodCollected;
      var newPeriodCollected := CheckedI128(effectivePeriodCollected + amount);
      if newPeriodCollected.None? { return Err(ArithmeticOverflow); }
      if newPeriodCollected.value > mandate.maxPerPeriod { return Err(AmountExceedsPeriodLimit); }
      return Ok(RegistrySpec.Plan(computedPeriodStart.value, newPeriodCollected.value));
    }

    /** The record after a charge, field by field, and whether the charge completed it; None for a counter out of its width. */
    method UpdateRecord(stored: Mandate, now: U64, amount: I128, plan: RegistrySpec.Plan)
      returns (updated: Option<Mandate>, becameCompleted: bool)
      requires stored.status == Active
      ensures updated == RegistrySpec.AfterCharge(stored, now, amount, plan)
      ensures updated.Some? ==> updated.value.id == stored.id && (becameCompleted <==> updated.value.status == Completed)
    {
      var mandate := stored;
      var successfulCharges := CheckedU32(mandate.successfulCharges + 1);
      if successfulCharges.None? { return None, false; }
      mandate := mandate.(successfulCharges := successfulCharges.value);
      var totalCollected := CheckedI128(mandate.totalCollected + amount);
      if totalCollected.None? { return None, false; }
      mandate := mandate.(totalCollected := totalCollected.value);
      mandate := mandate.(currentPeriodStart := plan.periodStart);
      mandate := mandate.(currentPeriodCollected := plan.periodCollected);
      mandate := mandate.(lastChargedAt := Some(now));
      becameCompleted := mandate.maxSuccessfulCharges != 0 && mandate.successfulCharges == mandate.maxSuccessfulCharges;
      if becameCompleted { mandate := mandate.(status := Completed); }
      updated := Some(mandate);
    }

    /** The accounting after a transfer: record, replay guard, receipt, events. */
    method AccountCharge(now: U64, plan: RegistrySpec.Plan, mandateId: Hash, chargeId: Hash, amount: I128, invoiceHash: Hash)
      returns (r: Outcome<PaymentReceipt>)
      requires mandateId in mandates && mandates[mandateId].status == Active
      modifies this
      ensures match RegistrySpec.AfterCharge(old(mandates)[mandateId], now, amount, plan)
        case None => r == Err(ArithmeticOverflow)
        case Some(m) =>
          && r == Ok(RegistrySpec.ReceiptFor(m, mandateId, chargeId, amount, invoiceHash, now))
          && Storage() == RegistrySpec.RecordCharge(old(Storage()), m, r.value)
      ensures if r.Ok? then old(mandates)[mandateId].id == mandateId ==> events == old(events) + RegistrySpec.ChargeEvents(Storage(), r, mandateId)
              else events == old(events)
    {
      var updated, becameCompleted := UpdateRecord(mandates[mandateId], now, amount, plan);
      hide RegistrySpec.AfterCharge;
      if updated.None? { return Err(ArithmeticOverflow); }
      var mandate := updated.value;
      mandates := mandates[mandate.id := mandate];
      usedCharges := usedCharges + {(mandateId, chargeId)};
      var receipt := PaymentReceipt(PaymentHash(mandateId, chargeId), mandateId, chargeId, mandate.payer,
                                    mandate.merchant, mandate.asset, amount, invoiceHash, now);
      payments := payments[receipt.paymentId := receipt];
      charged := charged + [receipt];
      if becameCompleted { events := events + [Lifecycle(CompletedEvent, mandateId, mandate.payer, mandate.merchant, mandate.asset)]; }
      return Ok(receipt);
    }

    /** The contract's own steps. An error after the transfer leaves writes for the host to discard. */
    method ExecuteCharge(now: U64, auth: set<Address>, mandateId: Hash, chargeId: Hash, amount: I128, invoiceHash: Hash)
      returns (r: Outcome<PaymentReceipt>)
      modifies this, token
      ensures r == W.WorldCharge(old(Snapshot()), now, auth, mandateId, chargeId, amount, invoiceHash).1
      ensures r.Ok? ==> Snapshot() == W.WorldCharge(old(Snapshot()), now, auth, mandateId, chargeId, amount, invoiceHash).0
      ensures !r.Ok? ==> events == old(events)
      ensures mandateId in old(mandates) && old(mandates)[mandateId].id == mandateId ==>
        events == old(events) + RegistrySpec.ChargeEvents(Storage(), r, mandateId)
    {
      hide RegistrySpec.AfterCharge, RegistrySpec.TimingPlan, RegistrySpec.EffectiveStatus;
      var plan := CheckCharge(now, auth, mandateId, chargeId, amount);
      match plan {
        case Err(e) => return Err(e);
        case Trap => return Trap;
        case Ok(_) =>
      }
      var mandate := mandates[mandateId];
      var allowance := token.AllowanceOf(mandate.asset, mandate.payer, self);
      if allowance < amount { return Err(InsufficientAllowance); }
      var balance := token.BalanceOf(mandate.asset, mandate.payer);
      if balance < amount { return Err(InsufficientBalance); }
      var moved := token.TransferFrom({self}, mandate.asset, self, mandate.payer, mandate.merchant, amount);
      if !moved { return Trap; }
      r := AccountCharge(now, plan.value, mandateId, chargeId, amount, invoiceHash);
    }

    method GetPayment(paymentId: Hash) returns (r: Outcome<PaymentReceipt>)
      ensures r == RegistrySpec.GetPayment(Storage(), paymentId)
    {
      if paymentId !in payments { return Err(PaymentNotFound); }
      r := Ok(payments[paymentId]);
    }

    // ---- refund ----

    method Refund(now: U64, auth: set<Address>, mandateId: Hash, paymentId: Hash, amount: I128, refundId: Hash)
      returns (r: Outcome<RefundReceipt>)
      modifies this, token
      ensures (Snapshot(), r) == W.WorldRefund(old(Snapshot()), now, auth, mandateId, paymentId, amount, refundId)
      ensures !r.Ok? ==> Snapshot() == old(Snapshot())
      ensures mandates == old(mandates) && events == old(events)
    {
      var before := Snapshot();
      r := ExecuteRefund(now, auth, mandateId, paymentId, amount, refundId);
      if !r.Ok? { Restore(before); }
    }

    /** Steps 1 to 7 of a refund. They only read. */
    method CheckRefund(auth: set<Address>, mandateId: Hash, paymentId: Hash, amount: I128, refundId: Hash)
      returns (r: Outcome<I128>)
      ensures r == RegistrySpec.RefundPlan(Storage(), auth, mandateId, paymentId, amount, refundId)
    {
      if mandateId !in mandates { return Err(MandateNotFound); }
      var mandate := mandates[mandateId];
      if paymentId !in payments { return Err(PaymentNotFound); }
      var payment := payments[paymentId];
      if payment.mandateId != mandateId { return Err(PaymentNotFound); }
      if mandate.merchant !in auth { return Trap; }
      if refundId in usedRefunds { return Err(DuplicateRefund); }
      if amount <= 0 { return Err(InvalidAmount); }
      var refundedSoFar: I128 := if paymentId in refundedTotals then refundedTotals[paymentId] else 0;
      var newRefundedTotal := CheckedI128(refundedSoFar + amount);
      if newRefundedTotal.None? { return Err(ArithmeticOverflow); }
      if newRefundedTotal.value > payment.amount { return Err(RefundExceedsPayment); }
      return Ok(newRefundedTotal.value);
    }

    method ExecuteRefund(now: U64, auth: set<Address>, mandateId: Hash, paymentId: Hash, amount: I128, refundId: Hash)
      returns (r: Outcome<RefundReceipt>)
      modifies this, token
      ensures r == W.WorldRefund(old(Snapshot()), now, auth, mandateId, paymentId, amount, refundId).1
      ensures r.Ok? ==> Snapshot() == W.WorldRefund(old(Snapshot()), now, auth, mandateId, paymentId, amount, refundId).0
      ensures events == old(events)
    {
      var total := CheckRefund(auth, mandateId, paymentId, amount, refundId);
      match total {
        case Err(e) => return Err(e);
        case Trap => return Trap;
        case Ok(_) =>
      }
      var payment := payments[paymentId];
      var merchantBalance := token.BalanceOf(payment.asset, payment.merchant);
      if merchantBalance < amount { return Err(InsufficientBalance); }
      var moved := token.Transfer(auth, payment.asset, payment.merchant, payment.payer, amount);
      if !moved { return Trap; }
      refundedTotals := refundedTotals[paymentId := total.value];
      usedRefunds := usedRefunds + {refundId};
      var receipt := RefundReceipt(refundId, paymentId, amount, now);
      refunds := refunds[refundId := receipt];
      refunded := refunded + [receipt];
      return Ok(receipt);
    }

    method GetRefund(refundId: Hash) returns (r: Outcome<RefundReceipt>)
      ensures r == RegistrySpec.GetRefund(Storage(), refundId)
    {
      if refundId !in refunds { return Err(RefundNotFound); }
      r := Ok(refunds[refundId]);
    }

    method GetRefundedTotal(paymentId: Hash) returns (total: I128)
      ensures total == RegistrySpec.RefundedTotal(Storage(), paymentId)
    {
      if paymentId !in refundedTotals { return 0; }
      total := refundedTotals[paymentId];
    }
  }
}
