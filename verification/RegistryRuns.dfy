/**
 * The registry invariant, that every run keeps it, and how two states of one
 * run relate: terms and receipts are permanent, terminal mandates are frozen,
 * counters only grow.
 */
module RegistryRuns {
  import opened Wrappers
  import opened Limits
  import opened MandateTypes
  import opened RegistrySpec
  import opened RegistryInvariant
  import opened ChargeHistory

  ghost predicate MandatesOk(reg: Registry)
  {
    forall id :: id in reg.mandates ==> reg.mandates[id].id == id && MandateOk(reg.mandates[id], reg.charged)
  }

  /** Every published charge is stored under its derived id, every stored receipt was published, once. */
  ghost predicate ReceiptsStored(reg: Registry)
  {
    && (forall i :: 0 <= i < |reg.charged| ==>
          && reg.charged[i].paymentId == PaymentHash(reg.charged[i].mandateId, reg.charged[i].chargeId)
          && reg.charged[i].mandateId in reg.mandates
          && reg.charged[i].paymentId in reg.payments
          && reg.payments[reg.charged[i].paymentId] == reg.charged[i])
    && (forall p :: p in reg.payments ==> reg.payments[p].paymentId == p && reg.payments[p] in reg.charged)
    && (forall i, j :: 0 <= i < j < |reg.charged| ==> reg.charged[i].paymentId != reg.charged[j].paymentId)
  }

  ghost predicate ReplayGuardsOk(reg: Registry)
  {
    forall m, c :: (m, c) in reg.usedCharges <==> PaymentHash(m, c) in reg.payments
  }

  /** What has been refunded against one payment. */
  function RefundSum(log: seq<RefundReceipt>, paymentId: Hash): int
  {
    if log == [] then 0
    else RefundSum(log[..|log| - 1], paymentId) + if log[|log| - 1].paymentId == paymentId then log[|log| - 1].amount else 0
  }

  lemma ExtendRefunds(log: seq<RefundReceipt>, r: RefundReceipt, paymentId: Hash)
    ensures RefundSum(log + [r], paymentId) == RefundSum(log, paymentId) + if r.paymentId == paymentId then r.amount else 0
  {
    assert (log + [r])[..|log|] == log;
  }

  /** Each payment's refunded total is the sum of its refunds and stays within the payment. */
  ghost predicate RefundTotalsOk(reg: Registry)
  {
    && (forall p :: RefundedTotal(reg, p) == RefundSum(reg.refunded, p))
    && (forall p :: p in reg.refundedTotals ==> p in reg.payments && reg.refundedTotals[p] <= reg.payments[p].amount)
  }

  /** Every published refund is stored under its id, every stored refund was published, once. */
  ghost predicate RefundsStored(reg: Registry)
  {
    && (forall i :: 0 <= i < |reg.refunded| ==>
          && reg.refunded[i].refundId in reg.refunds
          && reg.refunds[reg.refunded[i].refundId] == reg.refunded[i]
          && reg.refunded[i].paymentId in reg.payments
          && 0 < reg.refunded[i].amount)
    && (forall i, j :: 0 <= i < j < |reg.refunded| ==> reg.refunded[i].refundId != reg.refunded[j].refundId)
    && reg.usedRefunds == reg.refunds.Keys
    && (forall r :: r in reg.refunds ==> reg.refunds[r].refundId == r && reg.refunds[r] in reg.refunded)
  }

  ghost predicate RefundsOk(reg: Registry)
  {
    RefundTotalsOk(reg) && RefundsStored(reg)
  }

  ghost predicate RegistryOk(reg: Registry)
  {
    MandatesOk(reg) && ReceiptsStored(reg) && ReplayGuardsOk(reg) && RefundsOk(reg)
  }

  // ---- one invocation ----

  /** Writing one sound mandate record keeps the others. */
  lemma PutMandateKeepsMandates(reg: Registry, m: Mandate)
    requires MandatesOk(reg) && MandateOk(m, reg.charged)
    ensures MandatesOk(reg.(mandates := reg.mandates[m.id := m]))
  {
    hide MandateOk;
  }

  lemma PutMandateKeepsStorage(reg: Registry, m: Mandate)
    requires ReceiptsStored(reg) && ReplayGuardsOk(reg) && RefundsOk(reg)
    ensures var reg' := reg.(mandates := reg.mandates[m.id := m]);
      ReceiptsStored(reg') && ReplayGuardsOk(reg') && RefundsOk(reg')
  {
    var reg' := reg.(mandates := reg.mandates[m.id := m]);
    assert RefundsOk(reg') by {
      assert forall p :: RefundedTotal(reg', p) == RefundedTotal(reg, p);
    }
  }

  lemma NewMandateOk(reg: Registry, now: U64, auth: set<Address>, input: MandateInput)
    requires ReceiptsStored(reg) && Create(reg, now, auth, input).1.Ok?
    ensures MandateOk(NewMandate(input, now), reg.charged)
  {
    FreshMandateOk(NewMandate(input, now), reg.charged);
  }

  lemma CreateKeeps(reg: Registry, now: U64, auth: set<Address>, input: MandateInput)
    requires RegistryOk(reg)
    ensures RegistryOk(Create(reg, now, auth, input).0)
  {
    hide MandatesOk, ReceiptsStored, ReplayGuardsOk, RefundsOk, MandateOk;
    if Create(reg, now, auth, input).1.Ok? {
      NewMandateOk(reg, now, auth, input);
      PutMandateKeepsMandates(reg, NewMandate(input, now));
      PutMandateKeepsStorage(reg, NewMandate(input, now));
    }
  }

  /** A control writes only the status, and never one that completes a mandate. */
  lemma ControlledMandateOk(m: Mandate, log: seq<PaymentReceipt>, now: U64, control: Control)
    requires MandateOk(m, log) && ControlTarget(control, EffectiveStatus(m, now)).Ok?
    ensures MandateOk(m.(status := ControlTarget(control, EffectiveStatus(m, now)).value), log)
  {
    assert PeriodsOk(m, log) && ReceiptsOk(m, log);
  }

  lemma ControlKeeps(reg: Registry, now: U64, auth: set<Address>, id: Hash, control: Control)
    requires RegistryOk(reg)
    ensures RegistryOk(ApplyControl(reg, now, auth, id, control).0)
  {
    hide ReceiptsStored, ReplayGuardsOk, RefundsOk, MandateOk;
    if ApplyControl(reg, now, auth, id, control).1.Ok? {
      var m := reg.mandates[id];
      var m' := m.(status := ControlTarget(control, EffectiveStatus(m, now)).value);
      ControlledMandateOk(m, reg.charged, now, control);
      PutMandateKeepsMandates(reg, m');
      PutMandateKeepsStorage(reg, m');
    }
  }

  lemma RecordedMandates(reg: Registry, m: Mandate, r: PaymentReceipt)
    requires MandatesOk(reg) && r.mandateId == m.id && MandateOk(m, reg.charged + [r])
    ensures MandatesOk(RecordCharge(reg, m, r))
  {
    var reg' := RecordCharge(reg, m, r);
    forall id | id in reg'.mandates
      ensures reg'.mandates[id].id == id && MandateOk(reg'.mandates[id], reg'.charged)
    {
      hide MandateOk;
      if id != m.id { OtherChargeKeeps(reg.mandates[id], reg.charged, r); }
    }
  }

  lemma RecordedGuards(reg: Registry, m: Mandate, r: PaymentReceipt)
    requires ReplayGuardsOk(reg) && r.paymentId == PaymentHash(r.mandateId, r.chargeId)
    ensures ReplayGuardsOk(RecordCharge(reg, m, r))
  {
  }

  /** Each stored receipt was published, before or now. */
  lemma RecordedPayments(reg: Registry, reg': Registry, r: PaymentReceipt)
    requires forall p :: p in reg.payments ==> reg.payments[p].paymentId == p && reg.payments[p] in reg.charged
    requires reg'.payments == reg.payments[r.paymentId := r] && reg'.charged == reg.charged + [r]
    ensures forall p :: p in reg'.payments ==> reg'.payments[p].paymentId == p && reg'.payments[p] in reg'.charged
  {
  }

  lemma RecordedReceipts(reg: Registry, m: Mandate, r: PaymentReceipt)
    requires ReceiptsStored(reg) && ReplayGuardsOk(reg) && m.id == r.mandateId && r.mandateId in reg.mandates
    requires r.paymentId == PaymentHash(r.mandateId, r.chargeId) && (r.mandateId, r.chargeId) !in reg.usedCharges
    ensures ReceiptsStored(RecordCharge(reg, m, r)) && ReplayGuardsOk(RecordCharge(reg, m, r))
  {
    var reg' := RecordCharge(reg, m, r);
    assert r.paymentId !in reg.payments;
    RecordedGuards(reg, m, r);
    RecordedPayments(reg, reg', r);
    hide ReplayGuardsOk;
    forall i | 0 <= i < |reg'.charged|
      ensures reg'.charged[i].paymentId == PaymentHash(reg'.charged[i].mandateId, reg'.charged[i].chargeId)
      ensures reg'.charged[i].mandateId in reg'.mandates
      ensures reg'.charged[i].paymentId in reg'.payments && reg'.payments[reg'.charged[i].paymentId] == reg'.charged[i]
      ensures i < |reg.charged| ==> reg'.charged[i].paymentId != r.paymentId
    {
      if i < |reg.charged| { assert reg'.charged[i] == reg.charged[i]; }
    }
  }

  /** A charge under a fresh id touches nothing a refund refers to. */
  lemma RecordedRefunds(reg: Registry, m: Mandate, r: PaymentReceipt)
    requires RefundsOk(reg) && r.paymentId !in reg.payments
    ensures RefundsOk(RecordCharge(reg, m, r))
  {
    assert forall p :: RefundedTotal(RecordCharge(reg, m, r), p) == RefundedTotal(reg, p);
  }

  /** What a successful charge recorded, and under which conditions. */
  lemma ChargeRecords(reg: Registry, now: U64, auth: set<Address>, token: TokenReply,
                      mandateId: Hash, chargeId: Hash, amount: I128, invoiceHash: Hash)
    requires Charge(reg, now, auth, token, mandateId, chargeId, amount, invoiceHash).1.Ok?
    ensures var (reg', result) := Charge(reg, now, auth, token, mandateId, chargeId, amount, invoiceHash);
      && mandateId in reg.mandates && (mandateId, chargeId) !in reg.usedCharges
      && var m, r := reg.mandates[mandateId], result.value;
         && m.status == Active && m.startAt <= now < m.expiresAt && 0 < amount && RuleAdmits(m.amountRule, amount)
         && TimingPlan(m, now, amount).Ok?
         && AfterCharge(m, now, amount, TimingPlan(m, now, amount).value).Some?
         && reg' == RecordCharge(reg, AfterCharge(m, now, amount, TimingPlan(m, now, amount).value).value, r)
         && r.mandateId == mandateId && r.timestamp == now && r.amount == amount && BelongsTo(r, m)
         && r.chargeId == chargeId && r.invoiceHash == invoiceHash && r.paymentId == PaymentHash(mandateId, chargeId)
  {
    hide TimingPlan, RecordCharge;
  }

  lemma ChargeRefused(reg: Registry, now: U64, auth: set<Address>, token: TokenReply,
                      mandateId: Hash, chargeId: Hash, amount: I128, invoiceHash: Hash)
    requires !Charge(reg, now, auth, token, mandateId, chargeId, amount, invoiceHash).1.Ok?
    ensures Charge(reg, now, auth, token, mandateId, chargeId, amount, invoiceHash).0 == reg
  {
    hide ChargePlan, AfterCharge;
  }

  lemma ChargeKeepsRegistry(reg: Registry, now: U64, auth: set<Address>, token: TokenReply,
                            mandateId: Hash, chargeId: Hash, amount: I128, invoiceHash: Hash)
    requires RegistryOk(reg)
    ensures RegistryOk(Charge(reg, now, auth, token, mandateId, chargeId, amount, invoiceHash).0)
  {
    hide *;
    var (reg', result) := Charge(reg, now, auth, token, mandateId, chargeId, amount, invoiceHash);
    if result.Ok? {
      ChargeRecords(reg, now, auth, token, mandateId, chargeId, amount, invoiceHash);
      var m, r := reg.mandates[mandateId], result.value;
      var m' := AfterCharge(m, now, amount, TimingPlan(m, now, amount).value).value;
      RecordedKeeps(reg, m, m', now, amount, r);
    } else {
      ChargeRefused(reg, now, auth, token, mandateId, chargeId, amount, invoiceHash);
    }
    assert RegistryOk(reg');
  }

  lemma RecordedKeeps(reg: Registry, m: Mandate, m': Mandate, now: U64, amount: I128, r: PaymentReceipt)
    requires RegistryOk(reg) && r.mandateId in reg.mandates && m == reg.mandates[r.mandateId] && m.status == Active
    requires m.startAt <= now < m.expiresAt && 0 < amount && RuleAdmits(m.amountRule, amount)
    requires TimingPlan(m, now, amount).Ok? && AfterCharge(m, now, amount, TimingPlan(m, now, amount).value) == Some(m')
    requires r.timestamp == now && r.amount == amount && BelongsTo(r, m)
    requires r.paymentId == PaymentHash(r.mandateId, r.chargeId) && (r.mandateId, r.chargeId) !in reg.usedCharges
    ensures RegistryOk(RecordCharge(reg, m', r))
  {
    assert m.id == r.mandateId && MandateOk(m, reg.charged);
    assert m'.id == m.id;
    assert r.paymentId !in reg.payments;
    hide TimingPlan, AfterCharge, MandatesOk, MandateOk, ReceiptsStored, ReplayGuardsOk, RefundsOk, RecordCharge, RuleAdmits, BelongsTo;
    ChargeKeeps(m, reg.charged, now, amount, r, m');
    RecordedMandates(reg, m', r);
    RecordedReceipts(reg, m', r);
    RecordedRefunds(reg, m', r);
  }

  lemma RecordedRefundTotals(reg: Registry, r: RefundReceipt, total: I128)
    requires RefundTotalsOk(reg) && r.paymentId in reg.payments
    requires total == RefundedTotal(reg, r.paymentId) + r.amount <= reg.payments[r.paymentId].amount
    ensures RefundTotalsOk(RecordRefund(reg, r, total))
  {
    forall p
      ensures RefundedTotal(RecordRefund(reg, r, total), p) == RefundSum(reg.refunded + [r], p)
    {
      ExtendRefunds(reg.refunded, r, p);
    }
  }

  /** Each stored refund was published, before or now. */
  lemma RecordedRefundStore(reg: Registry, reg': Registry, r: RefundReceipt)
    requires forall id :: id in reg.refunds ==> reg.refunds[id].refundId == id && reg.refunds[id] in reg.refunded
    requires reg'.refunds == reg.refunds[r.refundId := r] && reg'.refunded == reg.refunded + [r]
    ensures forall id :: id in reg'.refunds ==> reg'.refunds[id].refundId == id && reg'.refunds[id] in reg'.refunded
  {
  }

  lemma RecordedRefundReceipts(reg: Registry, r: RefundReceipt, total: I128)
    requires RefundsStored(reg)
    requires r.paymentId in reg.payments && r.refundId !in reg.usedRefunds && 0 < r.amount
    ensures RefundsStored(RecordRefund(reg, r, total))
  {
    var reg' := RecordRefund(reg, r, total);
    RecordedRefundStore(reg, reg', r);
    forall i | 0 <= i < |reg'.refunded|
      ensures reg'.refunded[i].refundId in reg'.refunds && reg'.refunds[reg'.refunded[i].refundId] == reg'.refunded[i]
      ensures reg'.refunded[i].paymentId in reg'.payments && 0 < reg'.refunded[i].amount
      ensures i < |reg.refunded| ==> reg'.refunded[i].refundId != r.refundId
    {
      if i < |reg.refunded| { assert reg'.refunded[i] == reg.refunded[i]; }
    }
  }

  /** What a refund recorded, or that it recorded nothing. */
  lemma RefundRecords(reg: Registry, now: U64, auth: set<Address>, token: TokenReply,
                      mandateId: Hash, paymentId: Hash, amount: I128, refundId: Hash)
    ensures var (reg', result) := Refund(reg, now, auth, token, mandateId, paymentId, amount, refundId);
      if result.Ok? then
        && RefundPlan(reg, auth, mandateId, paymentId, amount, refundId).Ok?
        && var r, total := result.value, RefundPlan(reg, auth, mandateId, paymentId, amount, refundId).value;
           && reg' == RecordRefund(reg, r, total) && r == RefundReceipt(refundId, paymentId, amount, now)
           && paymentId in reg.payments && refundId !in reg.usedRefunds && 0 < amount
           && total == RefundedTotal(reg, paymentId) + amount <= reg.payments[paymentId].amount
      else reg' == reg
  {
    hide RecordRefund;
  }

  lemma RecordedRefundKeeps(reg: Registry, r: RefundReceipt, total: I128)
    requires RegistryOk(reg) && r.paymentId in reg.payments && r.refundId !in reg.usedRefunds && 0 < r.amount
    requires total == RefundedTotal(reg, r.paymentId) + r.amount <= reg.payments[r.paymentId].amount
    ensures RegistryOk(RecordRefund(reg, r, total))
  {
    hide RefundTotalsOk, RefundsStored, MandateOk;
    RecordedRefundTotals(reg, r, total);
    RecordedRefundReceipts(reg, r, total);
  }

  lemma RefundKeeps(reg: Registry, now: U64, auth: set<Address>, token: TokenReply,
                    mandateId: Hash, paymentId: Hash, amount: I128, refundId: Hash)
    requires RegistryOk(reg)
    ensures RegistryOk(Refund(reg, now, auth, token, mandateId, paymentId, amount, refundId).0)
  {
    hide *;
    var (reg', result) := Refund(reg, now, auth, token, mandateId, paymentId, amount, refundId);
    RefundRecords(reg, now, auth, token, mandateId, paymentId, amount, refundId);
    if result.Ok? {
      RecordedRefundKeeps(reg, result.value, RefundPlan(reg, auth, mandateId, paymentId, amount, refundId).value);
    }
    assert RegistryOk(reg');
  }

  lemma ApplyKeeps(reg: Registry, inv: Invocation)
    requires RegistryOk(reg)
    ensures RegistryOk(Apply(reg, inv))
  {
    hide RegistryOk;
    match inv.call
    case CreateCall(input) => CreateKeeps(reg, inv.now, inv.auth, input);
    case ControlCall(id, control) => ControlKeeps(reg, inv.now, inv.auth, id, control);
    case ChargeCall(m, c, amount, invoice) => ChargeKeepsRegistry(reg, inv.now, inv.auth, inv.token, m, c, amount, invoice);
    case RefundCall(m, p, amount, r) => RefundKeeps(reg, inv.now, inv.auth, inv.token, m, p, amount, r);
  }

  /** Every state any run reaches satisfies the invariant. */
  lemma {:induction false} RunKeeps(reg: Registry, invs: seq<Invocation>)
    requires RegistryOk(reg)
    ensures RegistryOk(Run(reg, invs))
  {
    hide RegistryOk;
    if invs != [] {
      RunKeeps(reg, invs[..|invs| - 1]);
      ApplyKeeps(Run(reg, invs[..|invs| - 1]), invs[|invs| - 1]);
    }
  }

  lemma EmptyOk()
    ensures RegistryOk(EMPTY)
  {
  }

  // ---- two states of one run ----

  predicate Closed(m: Mandate)
  {
    m.status == Revoked || m.status == Completed
  }

  /** How one mandate's record may differ later in a run. */
  predicate MandateEvolves(m: Mandate, m': Mandate)
  {
    && TermsOf(m') == TermsOf(m)
    && m.successfulCharges <= m'.successfulCharges
    && m.totalCollected <= m'.totalCollected
    && (Closed(m) ==> m' == m)
  }

  ghost predicate Evolves(reg: Registry, reg': Registry)
  {
    && (forall id :: id in reg.mandates ==> id in reg'.mandates && MandateEvolves(reg.mandates[id], reg'.mandates[id]))
    && (forall p :: p in reg.payments ==> p in reg'.payments && reg'.payments[p] == reg.payments[p])
    && (forall r :: r in reg.refunds ==> r in reg'.refunds && reg'.refunds[r] == reg.refunds[r])
    && (forall p :: RefundedTotal(reg, p) <= RefundedTotal(reg', p))
    && reg.charged <= reg'.charged
    && reg.refunded <= reg'.refunded
  }

  lemma EvolvesTransitive(a: Registry, b: Registry, c: Registry)
    requires Evolves(a, b) && Evolves(b, c)
    ensures Evolves(a, c)
  {
    assert forall p :: RefundedTotal(a, p) <= RefundedTotal(b, p) <= RefundedTotal(c, p);
  }

  /** Recording a charge under a fresh payment id only adds. */
  lemma RecordEvolves(reg: Registry, m: Mandate, r: PaymentReceipt)
    requires m.id in reg.mandates && MandateEvolves(reg.mandates[m.id], m) && r.paymentId !in reg.payments
    ensures Evolves(reg, RecordCharge(reg, m, r))
  {
    var reg' := RecordCharge(reg, m, r);
    assert forall p :: RefundedTotal(reg, p) == RefundedTotal(reg', p);
    hide MandateEvolves, RefundedTotal;
    forall x | x in reg.mandates ensures x in reg'.mandates && MandateEvolves(reg.mandates[x], reg'.mandates[x]) {
      if x != m.id { MandateStaysItself(reg.mandates[x]); }
    }
  }

  lemma ChargeEvolves(reg: Registry, now: U64, auth: set<Address>, token: TokenReply,
                      mandateId: Hash, chargeId: Hash, amount: I128, invoiceHash: Hash)
    requires RegistryOk(reg)
    ensures Evolves(reg, Charge(reg, now, auth, token, mandateId, chargeId, amount, invoiceHash).0)
  {
    var (reg', result) := Charge(reg, now, auth, token, mandateId, chargeId, amount, invoiceHash);
    if result.Ok? {
      ChargeRecords(reg, now, auth, token, mandateId, chargeId, amount, invoiceHash);
      var m := reg.mandates[mandateId];
      assert PaymentHash(mandateId, chargeId) !in reg.payments && m.id == mandateId;
      hide *;
      var plan := TimingPlan(m, now, amount).value;
      AfterChargeEvolves(m, now, amount, plan);
      RecordEvolves(reg, AfterCharge(m, now, amount, plan).value, result.value);
      assert Evolves(reg, reg');
    } else {
      hide *;
      ChargeRefused(reg, now, auth, token, mandateId, chargeId, amount, invoiceHash);
      EvolvesItself(reg);
      assert Evolves(reg, reg');
    }
  }

  lemma EvolvesItself(reg: Registry)
    ensures Evolves(reg, reg)
  {
  }

  lemma MandateStaysItself(m: Mandate)
    ensures MandateEvolves(m, m)
  {
  }

  lemma AfterChargeEvolves(m: Mandate, now: U64, amount: I128, plan: Plan)
    requires m.status == Active && 0 < amount && AfterCharge(m, now, amount, plan).Some?
    ensures MandateEvolves(m, AfterCharge(m, now, amount, plan).value) && AfterCharge(m, now, amount, plan).value.id == m.id
  {
  }

  lemma RefundEvolves(reg: Registry, now: U64, auth: set<Address>, token: TokenReply,
                      mandateId: Hash, paymentId: Hash, amount: I128, refundId: Hash)
    requires RegistryOk(reg)
    ensures Evolves(reg, Refund(reg, now, auth, token, mandateId, paymentId, amount, refundId).0)
    ensures Refund(reg, now, auth, token, mandateId, paymentId, amount, refundId).0.mandates == reg.mandates
  {
    hide MandatesOk, ReceiptsStored, MandateOk;
  }

  lemma CreateEvolves(reg: Registry, now: U64, auth: set<Address>, input: MandateInput)
    ensures Evolves(reg, Create(reg, now, auth, input).0)
  {
  }

  lemma ControlEvolves(reg: Registry, now: U64, auth: set<Address>, id: Hash, control: Control)
    ensures Evolves(reg, ApplyControl(reg, now, auth, id, control).0)
  {
    var reg' := ApplyControl(reg, now, auth, id, control).0;
    if reg' != reg {
      assert reg' == reg.(mandates := reg'.mandates) && reg'.mandates == reg.mandates[id := reg'.mandates[id]];
      assert MandateEvolves(reg.mandates[id], reg'.mandates[id]);
      hide ApplyControl, MandateEvolves;
    }
  }

  lemma ApplyEvolves(reg: Registry, inv: Invocation)
    requires RegistryOk(reg)
    ensures Evolves(reg, Apply(reg, inv))
  {
    match inv.call
    case CreateCall(input) =>
      hide RegistryOk, Evolves, Create;
      CreateEvolves(reg, inv.now, inv.auth, input);
    case ControlCall(id, control) =>
      hide RegistryOk, Evolves, ApplyControl;
      ControlEvolves(reg, inv.now, inv.auth, id, control);
    case ChargeCall(m, c, amount, invoice) =>
      hide RegistryOk, Evolves;
      ChargeEvolves(reg, inv.now, inv.auth, inv.token, m, c, amount, invoice);
    case RefundCall(m, p, amount, r) =>
      hide RegistryOk, Evolves;
      RefundEvolves(reg, inv.now, inv.auth, inv.token, m, p, amount, r);
  }

  /** Nothing any continuation of a run does loses a receipt, changes a term or moves a terminal mandate. */
  lemma {:induction false} RunEvolves(reg: Registry, invs: seq<Invocation>)
    requires RegistryOk(reg)
    ensures Evolves(reg, Run(reg, invs))
  {
    if invs != [] {
      hide RegistryOk;
      var front := invs[..|invs| - 1];
      RunEvolves(reg, front);
      RunKeeps(reg, front);
      ApplyEvolves(Run(reg, front), invs[|invs| - 1]);
      hide Evolves;
      EvolvesTransitive(reg, Run(reg, front), Run(reg, invs));
    }
  }
}
