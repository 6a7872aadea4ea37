/** Where the money goes: supply, account balances, and the bounded allowance. */
module Conservation {
  import opened Wrappers
  import opened Limits
  import opened MandateTypes
  import opened RegistrySpec
  import opened RegistryInvariant
  import opened RegistryRuns
  import opened RegistryTheorems
  import opened ChargeHistory
  import opened Exposure
  import opened TokenSpec
  import opened World
  import MandateTerms

  // ---- one charge, one refund ----

  /** A successful charge moves its amount from the mandate's payer to its merchant, and nothing else. */
  lemma ChargeMovesMoney(w: World, now: U64, auth: set<Address>, mandateId: Hash, chargeId: Hash, amount: I128, invoiceHash: Hash)
    requires RegistryOk(w.reg)
    requires WorldCharge(w, now, auth, mandateId, chargeId, amount, invoiceHash).1.Ok?
    ensures var (w', result) := WorldCharge(w, now, auth, mandateId, chargeId, amount, invoiceHash); var r := result.value;
      && r.payer != r.merchant && r.amount == amount
      && w'.reg.charged == w.reg.charged + [r] && w'.reg.refunded == w.reg.refunded
      && Moved(w.tokens, w'.tokens, r.asset, r.payer, r.merchant, r.amount)
      && forall b :: Supply(w'.tokens, b) == Supply(w.tokens, b)
  {
    hide ReceiptsStored, ReplayGuardsOk, RefundsOk, Supply, Moved;
    var m := w.reg.mandates[mandateId];
    assert TermsOk(m);
    var tokens := ChargeTransfer(w, m, amount).value;
    TransferFromMoves(w.tokens, {w.self}, m.asset, w.self, m.payer, m.merchant, amount);
    forall b ensures Supply(tokens, b) == Supply(w.tokens, b) {
      MoveConservesSupply(w.tokens, tokens, m.asset, m.payer, m.merchant, amount, b);
    }
  }

  lemma PositiveTerms(reg: Registry, id: Hash)
    requires RegistryOk(reg) && id in reg.mandates
    ensures reg.mandates[id].periodSeconds > 0 && 0 <= reg.mandates[id].totalCollected
    ensures reg.mandates[id].payer != reg.mandates[id].merchant
  {
    hide ReceiptsStored, ReplayGuardsOk, RefundsOk;
    var m := reg.mandates[id];
    Bounds(reg.charged, id, m.startAt, Horizon(m), ChargeCap(m.amountRule), m.startAt, m.expiresAt);
  }

  lemma PlannedAmount(reg: Registry, now: U64, auth: set<Address>, mandateId: Hash, chargeId: Hash, amount: I128)
    requires ChargePlan(reg, now, auth, mandateId, chargeId, amount).Ok?
    ensures 0 < amount && mandateId in reg.mandates
  {
  }

  /** When a charge goes through: every rule holds, the payer can pay, and no total leaves its width. */
  lemma ChargeSucceedsExactly(w: World, now: U64, auth: set<Address>, mandateId: Hash, chargeId: Hash, amount: I128, invoiceHash: Hash)
    requires RegistryOk(w.reg) && mandateId in w.reg.mandates
    ensures var m := w.reg.mandates[mandateId];
      WorldCharge(w, now, auth, mandateId, chargeId, amount, invoiceHash).1.Ok? <==>
        && MeetsEveryRule(m, w.reg.charged, now, auth, chargeId, amount)
        && Allowance(w.tokens, m.asset, m.payer, w.self) >= amount
        && Balance(w.tokens, m.asset, m.payer) >= amount
        && Balance(w.tokens, m.asset, m.merchant) + amount <= I128_MAX
        && m.asset !in w.tokens.failing
        && m.successfulCharges < U32_MAX && m.totalCollected + amount <= I128_MAX
  {
    hide RegistryOk, ChargePlan, MeetsEveryRule;
    PositiveTerms(w.reg, mandateId);
    ChargePlanMeaning(w.reg, now, auth, mandateId, chargeId, amount);
    if ChargePlan(w.reg, now, auth, mandateId, chargeId, amount).Ok? {
      PlannedAmount(w.reg, now, auth, mandateId, chargeId, amount);
    }
  }

  /** The receipt a refund is paid from names the mandate's own merchant and payer. */
  lemma PaymentParties(reg: Registry, paymentId: Hash)
    requires MandatesOk(reg) && ReceiptsStored(reg) && paymentId in reg.payments
    ensures var p := reg.payments[paymentId];
      && p.mandateId in reg.mandates
      && p.payer == reg.mandates[p.mandateId].payer
      && p.merchant == reg.mandates[p.mandateId].merchant
      && p.asset == reg.mandates[p.mandateId].asset
      && p.payer != p.merchant
  {
    var p := reg.payments[paymentId];
    var i :| 0 <= i < |reg.charged| && reg.charged[i] == p;
    assert MandateOk(reg.mandates[p.mandateId], reg.charged);
  }

  /** A successful refund moves its amount back, and touches no mandate. */
  lemma RefundMovesMoney(w: World, now: U64, auth: set<Address>, mandateId: Hash, paymentId: Hash, amount: I128, refundId: Hash)
    requires RegistryOk(w.reg)
    requires WorldRefund(w, now, auth, mandateId, paymentId, amount, refundId).1.Ok?
    ensures var (w', result) := WorldRefund(w, now, auth, mandateId, paymentId, amount, refundId); var r := result.value;
      && r.paymentId in w.reg.payments
      && var p := w.reg.payments[r.paymentId];
         && p.payer != p.merchant
         && w'.reg.mandates == w.reg.mandates && w'.reg.payments == w.reg.payments
         && w'.reg.refunded == w.reg.refunded + [r] && w'.reg.charged == w.reg.charged
         && Moved(w.tokens, w'.tokens, p.asset, p.merchant, p.payer, r.amount)
         && forall b :: Supply(w'.tokens, b) == Supply(w.tokens, b)
  {
    hide MandatesOk, ReceiptsStored, ReplayGuardsOk, RefundsOk, Supply, Moved;
    var p := w.reg.payments[paymentId];
    PaymentParties(w.reg, paymentId);
    var tokens := RefundTransfer(w, auth, p, amount).value;
    TransferMoves(w.tokens, auth, p.asset, p.merchant, p.payer, amount);
    forall b ensures Supply(tokens, b) == Supply(w.tokens, b) {
      MoveConservesSupply(w.tokens, tokens, p.asset, p.merchant, p.payer, amount, b);
    }
  }

  /** The merchant that authorises a refund is the account the money leaves. */
  lemma RefundTransferAuthorised(reg: Registry, auth: set<Address>, mandateId: Hash, paymentId: Hash, amount: I128, refundId: Hash)
    requires RegistryOk(reg) && RefundPlan(reg, auth, mandateId, paymentId, amount, refundId).Ok?
    ensures reg.payments[paymentId].merchant in auth
  {
    PaymentParties(reg, paymentId);
  }

  // ---- balances over a run ----

  /** What the charges and refunds of a history did to one account in one asset. */
  function ChargeFlow(log: seq<PaymentReceipt>, asset: Address, account: Address): int
  {
    if log == [] then 0
    else
      var r := log[|log| - 1];
      ChargeFlow(log[..|log| - 1], asset, account)
        + (if r.asset == asset && r.merchant == account then r.amount else 0)
        - (if r.asset == asset && r.payer == account then r.amount else 0)
  }

  function RefundFlow(payments: map<Hash, PaymentReceipt>, log: seq<RefundReceipt>, asset: Address, account: Address): int
  {
    if log == [] then 0
    else
      var r := log[|log| - 1];
      RefundFlow(payments, log[..|log| - 1], asset, account)
        + (if r.paymentId in payments && payments[r.paymentId].asset == asset && payments[r.paymentId].payer == account then r.amount else 0)
        - (if r.paymentId in payments && payments[r.paymentId].asset == asset && payments[r.paymentId].merchant == account then r.amount else 0)
  }

  function Flow(reg: Registry, asset: Address, account: Address): int
  {
    ChargeFlow(reg.charged, asset, account) + RefundFlow(reg.payments, reg.refunded, asset, account)
  }

  /** A new receipt does not change what past refunds did. */
  lemma {:induction false} RefundFlowStable(payments: map<Hash, PaymentReceipt>, payments': map<Hash, PaymentReceipt>,
                                            log: seq<RefundReceipt>, asset: Address, account: Address)
    requires forall i :: 0 <= i < |log| ==> log[i].paymentId in payments
    requires forall p :: p in payments ==> p in payments' && payments'[p] == payments[p]
    ensures RefundFlow(payments', log, asset, account) == RefundFlow(payments, log, asset, account)
  {
    if log != [] {
      var front := log[..|log| - 1];
      assert forall i :: 0 <= i < |front| ==> front[i] == log[i];
      RefundFlowStable(payments, payments', front, asset, account);
    }
  }

  /** The refunds of a sound registry all refer to stored payments. */
  lemma RefundsReferToPayments(reg: Registry)
    requires RegistryOk(reg)
    ensures forall i :: 0 <= i < |reg.refunded| ==> reg.refunded[i].paymentId in reg.payments
  {
  }

  /** What a step leaves alone: an asset's supply, and an account's balance net of its receipts. */
  ghost predicate Conserves(w: World, w': World, asset: Address, account: Address)
  {
    && Supply(w'.tokens, asset) == Supply(w.tokens, asset)
    && Balance(w'.tokens, asset, account) - Flow(w'.reg, asset, account)
       == Balance(w.tokens, asset, account) - Flow(w.reg, asset, account)
  }

  lemma ChargeKeepsPayments(w: World, now: U64, auth: set<Address>, mandateId: Hash, chargeId: Hash, amount: I128, invoiceHash: Hash)
    requires RegistryOk(w.reg)
    ensures var w' := WorldCharge(w, now, auth, mandateId, chargeId, amount, invoiceHash).0;
      forall p :: p in w.reg.payments ==> p in w'.reg.payments && w'.reg.payments[p] == w.reg.payments[p]
  {
    hide RegistryOk, WorldCharge;
    ActKeeps(w, Invoke(now, auth, ChargeCall(mandateId, chargeId, amount, invoiceHash)));
  }

  lemma ChargeConserves(w: World, now: U64, auth: set<Address>, mandateId: Hash, chargeId: Hash, amount: I128, invoiceHash: Hash,
                        asset: Address, account: Address)
    requires RegistryOk(w.reg)
    ensures Conserves(w, WorldCharge(w, now, auth, mandateId, chargeId, amount, invoiceHash).0, asset, account)
  {
    hide RegistryOk, Supply, Moved, Charge, HonestReply, ChargeTransfer;
    var (w', result) := WorldCharge(w, now, auth, mandateId, chargeId, amount, invoiceHash);
    if result.Ok? {
      hide WorldCharge;
      ChargeKeepsPayments(w, now, auth, mandateId, chargeId, amount, invoiceHash);
      RefundsReferToPayments(w.reg);
      RefundFlowStable(w.reg.payments, w'.reg.payments, w.reg.refunded, asset, account);
      ChargeMovesMoney(w, now, auth, mandateId, chargeId, amount, invoiceHash);
      ChargeBalance(w, w', result.value, asset, account);
    }
  }

  lemma RefundConserves(w: World, now: U64, auth: set<Address>, mandateId: Hash, paymentId: Hash, amount: I128, refundId: Hash,
                        asset: Address, account: Address)
    requires RegistryOk(w.reg)
    ensures Conserves(w, WorldRefund(w, now, auth, mandateId, paymentId, amount, refundId).0, asset, account)
  {
    hide RegistryOk, Supply, Moved, Refund, HonestReply, RefundTransfer;
    var (w', result) := WorldRefund(w, now, auth, mandateId, paymentId, amount, refundId);
    if result.Ok? {
      hide WorldRefund;
      RefundMovesMoney(w, now, auth, mandateId, paymentId, amount, refundId);
      RefundBalance(w, w', result.value, asset, account);
    }
  }

  /** One registry call: supply stays, and every account moves by exactly its share of the receipts. */
  lemma InvokeConserves(w: World, action: Action, asset: Address, account: Address)
    requires RegistryOk(w.reg) && action.Invoke?
    ensures Conserves(w, Act(w, action), asset, account)
  {
    hide RegistryOk, Conserves, WorldCharge, WorldRefund;
    match action.call
    case ChargeCall(m, c, amount, invoice) => ChargeConserves(w, action.now, action.auth, m, c, amount, invoice, asset, account);
    case RefundCall(m, p, amount, r) => RefundConserves(w, action.now, action.auth, m, p, amount, r, asset, account);
    case CreateCall(_) => LifecycleConserves(w, action, asset, account);
    case ControlCall(_, _) => LifecycleConserves(w, action, asset, account);
  }

  lemma LifecycleConserves(w: World, action: Action, asset: Address, account: Address)
    requires action.Invoke? && (action.call.CreateCall? || action.call.ControlCall?)
    ensures Conserves(w, Act(w, action), asset, account)
  {
  }

  lemma ChargeBalance(w: World, w': World, r: PaymentReceipt, asset: Address, account: Address)
    requires r.payer != r.merchant && Moved(w.tokens, w'.tokens, r.asset, r.payer, r.merchant, r.amount)
    requires w'.reg.charged == w.reg.charged + [r] && w'.reg.refunded == w.reg.refunded
    requires RefundFlow(w'.reg.payments, w.reg.refunded, asset, account) == RefundFlow(w.reg.payments, w.reg.refunded, asset, account)
    ensures Balance(w'.tokens, asset, account) - Flow(w'.reg, asset, account)
         == Balance(w.tokens, asset, account) - Flow(w.reg, asset, account)
  {
    assert w'.reg.charged[..|w.reg.charged|] == w.reg.charged;
  }

  lemma RefundBalance(w: World, w': World, r: RefundReceipt, asset: Address, account: Address)
    requires r.paymentId in w.reg.payments && w'.reg.payments == w.reg.payments
    requires var p := w.reg.payments[r.paymentId];
      p.payer != p.merchant && Moved(w.tokens, w'.tokens, p.asset, p.merchant, p.payer, r.amount)
    requires w'.reg.refunded == w.reg.refunded + [r] && w'.reg.charged == w.reg.charged
    ensures Balance(w'.tokens, asset, account) - Flow(w'.reg, asset, account)
         == Balance(w.tokens, asset, account) - Flow(w.reg, asset, account)
  {
    assert w'.reg.refunded[..|w.reg.refunded|] == w.reg.refunded;
  }

  /**
   * Over any run of registry calls (and approvals), each asset's supply stays
   * and each balance is where it started plus and minus the receipts and
   * refunds the account took part in.
   */
  lemma {:induction false} BalancesFollowReceipts(w: World, actions: seq<Action>, asset: Address, account: Address)
    requires RegistryOk(w.reg)
    requires forall i :: 0 <= i < |actions| ==> actions[i].Invoke? || actions[i].TokenApprove?
    ensures var w' := Acts(w, actions);
      && Supply(w'.tokens, asset) == Supply(w.tokens, asset)
      && Balance(w'.tokens, asset, account)
         == Balance(w.tokens, asset, account) + Flow(w'.reg, asset, account) - Flow(w.reg, asset, account)
  {
    hide RegistryOk, Flow;
    if actions != [] {
      var front, last := actions[..|actions| - 1], actions[|actions| - 1];
      BalancesFollowReceipts(w, front, asset, account);
      ActsKeep(w, front);
      if last.Invoke? {
        hide Act;
        InvokeConserves(Acts(w, front), last, asset, account);
      } else {
        ApproveKeepsBalances(Acts(w, front), last, asset, account);
      }
    }
  }

  lemma ApproveKeepsBalances(w: World, action: Action, asset: Address, account: Address)
    requires action.TokenApprove?
    ensures Act(w, action).reg == w.reg
    ensures Supply(Act(w, action).tokens, asset) == Supply(w.tokens, asset)
    ensures Balance(Act(w, action).tokens, asset, account) == Balance(w.tokens, asset, account)
  {
    var t, t' := w.tokens, Act(w, action).tokens;
    assert Holders(t', asset) == Holders(t, asset);
    SumUnchanged(t, t', asset, Holders(t, asset));
  }

  // ---- the bounded allowance ----

  /** Everything one payer has paid in one asset, over all mandates. */
  function PaidBy(log: seq<PaymentReceipt>, asset: Address, payer: Address): int
  {
    if log == [] then 0
    else
      var r := log[|log| - 1];
      PaidBy(log[..|log| - 1], asset, payer) + if r.asset == asset && r.payer == payer then r.amount else 0
  }

  /** The payer does not approve the registry again, and nobody else can spend as the registry. */
  predicate LeavesAllowance(action: Action, self: Address, asset: Address, payer: Address)
  {
    match action
    case TokenApprove(_, a, from, spender, _) => (a, from, spender) != (asset, payer, self)
    case TokenTransferFrom(auth, _, _, _, _, _) => self !in auth
    case _ => true
  }

  lemma ChargeAllowance(w: World, now: U64, auth: set<Address>, id: Hash, chargeId: Hash, amount: I128, invoiceHash: Hash, asset: Address, payer: Address)
    ensures var w' := WorldCharge(w, now, auth, id, chargeId, amount, invoiceHash).0;
      Allowance(w'.tokens, asset, payer, w.self) + PaidBy(w'.reg.charged, asset, payer)
      == Allowance(w.tokens, asset, payer, w.self) + PaidBy(w.reg.charged, asset, payer)
  {
    hide ChargePlan;
    var (w', result) := WorldCharge(w, now, auth, id, chargeId, amount, invoiceHash);
    if result.Ok? { assert w'.reg.charged[..|w.reg.charged|] == w.reg.charged; }
  }

  /** What is left of the allowance is what was approved minus what was paid. */
  lemma AllowanceStep(w: World, action: Action, asset: Address, payer: Address)
    requires LeavesAllowance(action, w.self, asset, payer)
    ensures Allowance(Act(w, action).tokens, asset, payer, w.self) + PaidBy(Act(w, action).reg.charged, asset, payer)
         == Allowance(w.tokens, asset, payer, w.self) + PaidBy(w.reg.charged, asset, payer)
  {
    match action
    case Invoke(now, auth, ChargeCall(m, c, amount, invoice)) =>
      hide WorldCharge;
      ChargeAllowance(w, now, auth, m, c, amount, invoice, asset, payer);
    case _ => hide PaidBy, ChargePlan, RefundPlan, Create, ApplyControl;
      if action.Invoke? { LifecyclePaysNothing(w, action); }
  }

  lemma LifecyclePaysNothing(w: World, action: Action)
    requires action.Invoke? && !action.call.ChargeCall?
    ensures Act(w, action).reg.charged == w.reg.charged
  {
    hide RefundPlan;
  }

  lemma {:induction false} AllowanceRun(w: World, actions: seq<Action>, asset: Address, payer: Address)
    requires forall i :: 0 <= i < |actions| ==> LeavesAllowance(actions[i], w.self, asset, payer)
    ensures Acts(w, actions).self == w.self
    ensures Allowance(Acts(w, actions).tokens, asset, payer, w.self) + PaidBy(Acts(w, actions).reg.charged, asset, payer)
         == Allowance(w.tokens, asset, payer, w.self) + PaidBy(w.reg.charged, asset, payer)
  {
    if actions != [] {
      hide Act, LeavesAllowance;
      var front, last := actions[..|actions| - 1], actions[|actions| - 1];
      AllowanceRun(w, front, asset, payer);
      AllowanceStep(Acts(w, front), last, asset, payer);
      ActIsApply(Acts(w, front), last);
    }
  }

  /** With one mandate per payer and asset, what the payer paid is what that mandate collected. */
  lemma {:induction false} OnlyMandatePays(log: seq<PaymentReceipt>, asset: Address, payer: Address, id: Hash, lo: int, hi: int)
    requires forall i :: 0 <= i < |log| ==> (log[i].mandateId == id <==> log[i].asset == asset && log[i].payer == payer)
    requires forall i :: 0 <= i < |log| && log[i].mandateId == id ==> lo <= log[i].timestamp < hi
    ensures PaidBy(log, asset, payer) == Collected(log, id, lo, hi)
  {
    if log != [] {
      var front := log[..|log| - 1];
      assert forall i :: 0 <= i < |front| ==> front[i] == log[i];
      OnlyMandatePays(front, asset, payer, id, lo, hi);
    }
  }

  ghost predicate OnlyMandateOf(reg: Registry, m: Mandate)
  {
    forall id :: id in reg.mandates && reg.mandates[id].payer == m.payer && reg.mandates[id].asset == m.asset ==> id == m.id
  }

  lemma PaidIsCollected(reg: Registry, id: Hash)
    requires RegistryOk(reg) && id in reg.mandates && OnlyMandateOf(reg, reg.mandates[id])
    ensures PaidBy(reg.charged, reg.mandates[id].asset, reg.mandates[id].payer) == reg.mandates[id].totalCollected
  {
    var m, log := reg.mandates[id], reg.charged;
    forall i | 0 <= i < |log|
      ensures log[i].mandateId == id <==> log[i].asset == m.asset && log[i].payer == m.payer
    {
      assert MandateOk(reg.mandates[log[i].mandateId], log);
    }
    OnlyMandatePays(log, m.asset, m.payer, id, m.startAt, m.expiresAt);
  }

  /** Receipts are of positive amounts, so nobody has paid less than nothing. */
  lemma PaidNonNegative(reg: Registry, asset: Address, payer: Address)
    requires RegistryOk(reg)
    ensures PaidBy(reg.charged, asset, payer) >= 0
  {
    forall i | 0 <= i < |reg.charged| ensures reg.charged[i].amount > 0 {
      assert MandateOk(reg.mandates[reg.charged[i].mandateId], reg.charged);
    }
    PositiveSum(reg.charged, asset, payer);
  }

  lemma {:induction false} PositiveSum(log: seq<PaymentReceipt>, asset: Address, payer: Address)
    requires forall i :: 0 <= i < |log| ==> log[i].amount > 0
    ensures PaidBy(log, asset, payer) >= 0
  {
    if log != [] {
      var front := log[..|log| - 1];
      assert forall i :: 0 <= i < |front| ==> front[i] == log[i];
      PositiveSum(front, asset, payer);
    }
  }

  /**
   * The payer's allowance is at least what is left of the mandate's exposure at
   * that moment, it is the payer's only mandate in this asset, and the payer
   * does not approve again. Then, over any run of anything else, no charge of
   * that mandate is ever refused for want of allowance.
   */
  lemma RemainingExposureSuffices(w: World, actions: seq<Action>, id: Hash,
                                  now: U64, auth: set<Address>, chargeId: Hash, amount: I128, invoiceHash: Hash)
    requires RegistryOk(w.reg) && id in Acts(w, actions).reg.mandates
    requires var m := Acts(w, actions).reg.mandates[id];
      && OnlyMandateOf(Acts(w, actions).reg, m)
      && (forall i :: 0 <= i < |actions| ==> LeavesAllowance(actions[i], w.self, m.asset, m.payer))
      && (m.periodSeconds > 0 ==>
            Allowance(w.tokens, m.asset, m.payer, w.self) >= MaxExposure(m) - PaidBy(w.reg.charged, m.asset, m.payer))
    ensures WorldCharge(Acts(w, actions), now, auth, id, chargeId, amount, invoiceHash).1 != Err(InsufficientAllowance)
  {
    hide RegistryOk, OnlyMandateOf, ChargePlan, Charge, Acts, PaidBy, LeavesAllowance, MaxExposure;
    var w' := Acts(w, actions);
    var m := w'.reg.mandates[id];
    ActsKeep(w, actions);
    AllowanceRun(w, actions, m.asset, m.payer);
    PaidIsCollected(w'.reg, id);
    EnoughLeft(w'.reg, id, now, auth, chargeId, amount);
    AllowanceRefusal(w'.reg, now, auth, ChargeReply(w', m, amount), id, chargeId, amount, invoiceHash);
  }

  /**
   * In particular the checkout's bounded total, or anything above it, is enough,
   * whether it was approved before the first charge or after any number of them.
   */
  lemma BoundedAllowanceSuffices(w: World, actions: seq<Action>, id: Hash,
                                 now: U64, auth: set<Address>, chargeId: Hash, amount: I128, invoiceHash: Hash)
    requires RegistryOk(w.reg) && id in Acts(w, actions).reg.mandates
    requires var m := Acts(w, actions).reg.mandates[id];
      && OnlyMandateOf(Acts(w, actions).reg, m)
      && (forall i :: 0 <= i < |actions| ==> LeavesAllowance(actions[i], w.self, m.asset, m.payer))
      && (m.periodSeconds > 0 && MaxExposure(m) >= 0 ==>
            Allowance(w.tokens, m.asset, m.payer, w.self) >= MandateTerms.ComputeBoundedAllowance(MaxExposure(m)).value.total)
    ensures WorldCharge(Acts(w, actions), now, auth, id, chargeId, amount, invoiceHash).1 != Err(InsufficientAllowance)
  {
    hide RegistryOk, OnlyMandateOf, WorldCharge, Acts, PaidBy, LeavesAllowance, MaxExposure, MandateTerms.ComputeBoundedAllowance;
    var w' := Acts(w, actions);
    var m := w'.reg.mandates[id];
    ActsKeep(w, actions);
    EnoughLeft(w'.reg, id, now, auth, chargeId, amount);
    MandateTerms.HeadroomIsOnePercent(MaxExposure(m));
    PaidNonNegative(w.reg, m.asset, m.payer);
    RemainingExposureSuffices(w, actions, id, now, auth, chargeId, amount, invoiceHash);
  }

  /** The one way to be refused for want of allowance. */
  lemma AllowanceRefusal(reg: Registry, now: U64, auth: set<Address>, token: TokenReply,
                         mandateId: Hash, chargeId: Hash, amount: I128, invoiceHash: Hash)
    ensures Charge(reg, now, auth, token, mandateId, chargeId, amount, invoiceHash).1 == Err(InsufficientAllowance)
       <==> ChargePlan(reg, now, auth, mandateId, chargeId, amount).Ok? && token.allowance < amount
  {
  }

  /** A charge past step 12 asks for no more than the exposure minus what was collected. */
  lemma EnoughLeft(reg: Registry, id: Hash, now: U64, auth: set<Address>, chargeId: Hash, amount: I128)
    requires RegistryOk(reg) && id in reg.mandates
    ensures var m := reg.mandates[id];
      && m.periodSeconds > 0 && MaxExposure(m) >= 0
      && (ChargePlan(reg, now, auth, id, chargeId, amount).Ok? ==> amount <= MaxExposure(m) - m.totalCollected)
  {
    hide ReceiptsStored, ReplayGuardsOk, RefundsOk, ChargePlan, Admits;
    var m := reg.mandates[id];
    assert MandateOk(m, reg.charged);
    hide MandateOk;
    MandateWithinExposure(m, reg.charged);
    Bounds(reg.charged, id, m.startAt, Horizon(m), ChargeCap(m.amountRule), m.startAt, m.expiresAt);
    ChargePlanMeaning(reg, now, auth, id, chargeId, amount);
    if ChargePlan(reg, now, auth, id, chargeId, amount).Ok? {
      AdmittedChargeFits(m, reg.charged, now, amount);
    }
  }
}
