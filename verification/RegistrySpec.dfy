/**
 * What each entry point of the mandate registry does, as functions on its
 * storage. The class in MandateRegistry.dfy is proved against these; the
 * theorems about runs are about these.
 *
 * The token contract of a mandate's asset is not trusted here: each invocation
 * carries the replies that contract gives (`TokenReply`), and nothing relates
 * one reply to another. Any token that does not call back into the registry
 * is an instance.
 */
module RegistrySpec {
  import opened Wrappers
  import opened Limits
  import opened MandateTypes

  /**
   * The six persistent maps, and the two event streams in the order published.
   */
  datatype Registry = Registry(
    mandates: map<Hash, Mandate>,
    payments: map<Hash, PaymentReceipt>,
    usedCharges: set<(Hash, Hash)>,
    usedRefunds: set<Hash>,
    refundedTotals: map<Hash, I128>,
    refunds: map<Hash, RefundReceipt>,
    charged: seq<PaymentReceipt>,
    refunded: seq<RefundReceipt>)

  const EMPTY := Registry(map[], map[], {}, {}, map[], map[], [], [])

  /** What the asset's token contract answers during one invocation. */
  datatype TokenReply = TokenReply(allowance: I128, balance: I128, transferSucceeds: bool)

  function EffectiveStatus(m: Mandate, now: int): MandateStatus
  {
    if (m.status == Active || m.status == Paused) && now >= m.expiresAt then Expired else m.status
  }

  // ---- lifecycle ----

  function InputError(input: MandateInput, now: U64): Option<Error>
  {
    if ChargeCap(input.amountRule) <= 0 then Some(InvalidAmount)
    else if input.maxPerPeriod <= 0 then Some(InvalidMandateInput)
    else if input.maxPerPeriod < ChargeCap(input.amountRule) then Some(InvalidMandateInput)
    else if input.periodSeconds == 0 then Some(InvalidMandateInput)
    else if input.expiresAt <= input.startAt then Some(InvalidMandateInput)
    else if input.expiresAt <= now then Some(InvalidMandateInput)
    else if input.payer == input.merchant then Some(InvalidMandateInput)
    else None
  }

  function InputId(input: MandateInput): Hash
  {
    MandateHash(input.payer, input.merchant, input.asset, input.clientNonce)
  }

  function NewMandate(input: MandateInput, now: U64): Mandate
  {
    Mandate(InputId(input), input.payer, input.merchant, input.asset, Active, input.amountRule,
            input.maxPerPeriod, input.periodSeconds, input.minIntervalSeconds, input.startAt,
            input.expiresAt, input.maxSuccessfulCharges, 0, 0, input.startAt, 0, None, now,
            input.metadataHash)
  }

  function Create(reg: Registry, now: U64, auth: set<Address>, input: MandateInput): (Registry, Outcome<Hash>)
  {
    if input.payer !in auth then (reg, Trap)
    else if InputId(input) in reg.mandates then (reg, Err(DuplicateMandate))
    else match InputError(input, now)
      case Some(e) => (reg, Err(e))
      case None => (reg.(mandates := reg.mandates[InputId(input) := NewMandate(input, now)]), Ok(InputId(input)))
  }

  datatype Control = Pause | Resume | Revoke

  /** The transition table: the status a control writes, or the error it reports. */
  function ControlTarget(control: Control, effective: MandateStatus): Outcome<MandateStatus>
  {
    match (control, effective)
    case (_, Revoked) => Err(MandateRevoked)
    case (_, Completed) => Err(MandateCompleted)
    case (Revoke, _) => Ok(Revoked)
    case (_, Expired) => Err(MandateExpired)
    case (Pause, Active) => Ok(Paused)
    case (Pause, Paused) => Err(MandateNotActive)
    case (Resume, Paused) => Ok(Active)
    case (Resume, Active) => Err(InvalidStateTransition)
  }

  function ApplyControl(reg: Registry, now: U64, auth: set<Address>, id: Hash, control: Control): (Registry, Outcome<()>)
  {
    if id !in reg.mandates then (reg, Err(MandateNotFound))
    else
      var m := reg.mandates[id];
      if m.payer !in auth then (reg, Trap)
      else match ControlTarget(control, EffectiveStatus(m, now))
        case Ok(status) => (reg.(mandates := reg.mandates[id := m.(status := status)]), Ok(()))
        case Err(e) => (reg, Err(e))
        case Trap => (reg, Trap)
  }

  /** `get_mandate`: the stored record with its status as seen at `now`. */
  function GetMandate(reg: Registry, now: int, id: Hash): Outcome<Mandate>
  {
    if id !in reg.mandates then Err(MandateNotFound)
    else Ok(reg.mandates[id].(status := EffectiveStatus(reg.mandates[id], now)))
  }

  // ---- charge ----

  /** The period state a charge will write: computed at steps 11 and 12. */
  datatype Plan = Plan(periodStart: U64, periodCollected: I128)

  /** Steps 1 to 12: everything a charge checks before it asks the token. */
  function ChargePlan(reg: Registry, now: U64, auth: set<Address>, mandateId: Hash, chargeId: Hash, amount: I128): Outcome<Plan>
  {
    if mandateId !in reg.mandates then Err(MandateNotFound)
    else
      var m := reg.mandates[mandateId];
      match EffectiveStatus(m, now)
      case Paused => Err(MandatePaused)
      case Revoked => Err(MandateRevoked)
      case Completed => Err(MandateCompleted)
      case Expired => Err(MandateExpired)
      case Active =>
        if now < m.startAt then Err(ChargeBeforeStart)
        else if now >= m.expiresAt then Err(MandateExpired)
        else if m.merchant !in auth then Trap
        else if (mandateId, chargeId) in reg.usedCharges then Err(DuplicateCharge)
        else if amount <= 0 then Err(InvalidAmount)
        else if !RuleAdmits(m.amountRule, amount) then Err(AmountExceedsChargeLimit)
        else TimingPlan(m, now, amount)
  }

  /** Steps 9 to 12. A zero period divides by zero, which panics. */
  function TimingPlan(m: Mandate, now: U64, amount: I128): Outcome<Plan>
    requires m.startAt <= now
  {
    if m.lastChargedAt.Some? && CheckedU64(m.lastChargedAt.value + m.minIntervalSeconds) == None then Err(ArithmeticOverflow)
    else if m.lastChargedAt.Some? && now < m.lastChargedAt.value + m.minIntervalSeconds then Err(ChargeTooSoon)
    else if m.maxSuccessfulCharges != 0 && m.successfulCharges >= m.maxSuccessfulCharges then Err(ChargeCountExceeded)
    else if m.periodSeconds == 0 then Trap
    else
      var product := CheckedU64((now - m.startAt) / m.periodSeconds * m.periodSeconds);
      if product.None? then Err(ArithmeticOverflow)
      else
        var periodStart := CheckedU64(m.startAt + product.value);
        if periodStart.None? then Err(ArithmeticOverflow)
        else
          var before: I128 := if periodStart.value != m.currentPeriodStart then 0 else m.currentPeriodCollected;
          var after := CheckedI128(before + amount);
          if after.None? then Err(ArithmeticOverflow)
          else if after.value > m.maxPerPeriod then Err(AmountExceedsPeriodLimit)
          else Ok(Plan(periodStart.value, after.value))
  }

  /** The mandate after its transfer went through, unless a counter overflows. */
  function AfterCharge(m: Mandate, now: U64, amount: I128, plan: Plan): Option<Mandate>
  {
    var count := CheckedU32(m.successfulCharges + 1);
    var total := CheckedI128(m.totalCollected + amount);
    if count.None? || total.None? then None
    else
      Some(m.(
        successfulCharges := count.value,
        totalCollected := total.value,
        currentPeriodStart := plan.periodStart,
        currentPeriodCollected := plan.periodCollected,
        lastChargedAt := Some(now),
        status := if m.maxSuccessfulCharges != 0 && count.value == m.maxSuccessfulCharges then Completed else m.status))
  }

  function ReceiptFor(m: Mandate, mandateId: Hash, chargeId: Hash, amount: I128, invoiceHash: Hash, now: U64): PaymentReceipt
  {
    PaymentReceipt(PaymentHash(mandateId, chargeId), mandateId, chargeId, m.payer, m.merchant, m.asset, amount, invoiceHash, now)
  }

  /** The storage after an accepted charge: mandate, replay guard, receipt, event. */
  function RecordCharge(reg: Registry, m: Mandate, receipt: PaymentReceipt): Registry
  {
    reg.(
      mandates := reg.mandates[m.id := m],
      usedCharges := reg.usedCharges + {(receipt.mandateId, receipt.chargeId)},
      payments := reg.payments[receipt.paymentId := receipt],
      charged := reg.charged + [receipt])
  }

  function Charge(reg: Registry, now: U64, auth: set<Address>, token: TokenReply,
                  mandateId: Hash, chargeId: Hash, amount: I128, invoiceHash: Hash): (Registry, Outcome<PaymentReceipt>)
  {
    match ChargePlan(reg, now, auth, mandateId, chargeId, amount)
    case Err(e) => (reg, Err(e))
    case Trap => (reg, Trap)
    case Ok(plan) =>
      if token.allowance < amount then (reg, Err(InsufficientAllowance))
      else if token.balance < amount then (reg, Err(InsufficientBalance))
      else if !token.transferSucceeds then (reg, Trap)
      else
        match AfterCharge(reg.mandates[mandateId], now, amount, plan)
        case None => (reg, Err(ArithmeticOverflow))
        case Some(m) =>
          var receipt := ReceiptFor(m, mandateId, chargeId, amount, invoiceHash, now);
          (RecordCharge(reg, m, receipt), Ok(receipt))
  }

  /** `get_payment`. */
  function GetPayment(reg: Registry, paymentId: Hash): Outcome<PaymentReceipt>
  {
    if paymentId in reg.payments then Ok(reg.payments[paymentId]) else Err(PaymentNotFound)
  }

  // ---- refund ----

  /** `get_refund`. */
  function GetRefund(reg: Registry, refundId: Hash): Outcome<RefundReceipt>
  {
    if refundId in reg.refunds then Ok(reg.refunds[refundId]) else Err(RefundNotFound)
  }

  /** `get_refunded_total`. */
  function RefundedTotal(reg: Registry, paymentId: Hash): I128
  {
    if paymentId in reg.refundedTotals then reg.refundedTotals[paymentId] else 0
  }

  /** Steps 1 to 7 of a refund: the new refunded total. */
  function RefundPlan(reg: Registry, auth: set<Address>, mandateId: Hash, paymentId: Hash, amount: I128, refundId: Hash): Outcome<I128>
  {
    if mandateId !in reg.mandates then Err(MandateNotFound)
    else if paymentId !in reg.payments || reg.payments[paymentId].mandateId != mandateId then Err(PaymentNotFound)
    else if reg.mandates[mandateId].merchant !in auth then Trap
    else if refundId in reg.usedRefunds then Err(DuplicateRefund)
    else if amount <= 0 then Err(InvalidAmount)
    else
      var total := CheckedI128(RefundedTotal(reg, paymentId) + amount);
      if total.None? then Err(ArithmeticOverflow)
      else if total.value > reg.payments[paymentId].amount then Err(RefundExceedsPayment)
      else Ok(total.value)
  }

  function RecordRefund(reg: Registry, receipt: RefundReceipt, total: I128): Registry
  {
    reg.(
      refundedTotals := reg.refundedTotals[receipt.paymentId := total],
      usedRefunds := reg.usedRefunds + {receipt.refundId},
      refunds := reg.refunds[receipt.refundId := receipt],
      refunded := reg.refunded + [receipt])
  }

  function Refund(reg: Registry, now: U64, auth: set<Address>, token: TokenReply,
                  mandateId: Hash, paymentId: Hash, amount: I128, refundId: Hash): (Registry, Outcome<RefundReceipt>)
  {
    match RefundPlan(reg, auth, mandateId, paymentId, amount, refundId)
    case Err(e) => (reg, Err(e))
    case Trap => (reg, Trap)
    case Ok(total) =>
      if token.balance < amount then (reg, Err(InsufficientBalance))
      else if !token.transferSucceeds then (reg, Trap)
      else
        var receipt := RefundReceipt(refundId, paymentId, amount, now);
        (RecordRefund(reg, receipt, total), Ok(receipt))
  }

  // ---- runs ----

  datatype Call =
    | CreateCall(input: MandateInput)
    | ControlCall(id: Hash, control: Control)
    | ChargeCall(mandateId: Hash, chargeId: Hash, amount: I128, invoiceHash: Hash)
    | RefundCall(refundMandateId: Hash, paymentId: Hash, refundAmount: I128, refundId: Hash)

  /** One invocation: the ledger time, who authorised it, the token's replies. Time need not move forward. */
  datatype Invocation = Invocation(now: U64, auth: set<Address>, token: TokenReply, call: Call)

  function Apply(reg: Registry, inv: Invocation): Registry
  {
    match inv.call
    case CreateCall(input) => Create(reg, inv.now, inv.auth, input).0
    case ControlCall(id, control) => ApplyControl(reg, inv.now, inv.auth, id, control).0
    case ChargeCall(m, c, amount, invoice) => Charge(reg, inv.now, inv.auth, inv.token, m, c, amount, invoice).0
    case RefundCall(m, p, amount, r) => Refund(reg, inv.now, inv.auth, inv.token, m, p, amount, r).0
  }

  /** The lifecycle event about a mandate as it is stored. */
  function EventOf(kind: LifecycleKind, m: Mandate): Lifecycle
  {
    Lifecycle(kind, m.id, m.payer, m.merchant, m.asset)
  }

  function ControlKind(control: Control): LifecycleKind
  {
    match control
    case Pause => PausedEvent
    case Resume => ResumedEvent
    case Revoke => RevokedEvent
  }

  /** What a creation publishes. */
  function CreateEvents(reg: Registry, r: Outcome<Hash>): seq<Lifecycle>
  {
    if r.Ok? && r.value in reg.mandates then [EventOf(CreatedEvent, reg.mandates[r.value])] else []
  }

  /** What a control publishes. */
  function ControlEvents(reg: Registry, r: Outcome<()>, id: Hash, control: Control): seq<Lifecycle>
  {
    if r.Ok? && id in reg.mandates then [EventOf(ControlKind(control), reg.mandates[id])] else []
  }

  /** Beside its own event, a charge publishes the completion it brought about. */
  function ChargeEvents(reg: Registry, r: Outcome<PaymentReceipt>, id: Hash): seq<Lifecycle>
  {
    if r.Ok? && id in reg.mandates && reg.mandates[id].status == Completed then [EventOf(CompletedEvent, reg.mandates[id])] else []
  }

  /** The lifecycle events of one invocation. */
  function Published(reg: Registry, inv: Invocation): seq<Lifecycle>
  {
    match inv.call
    case CreateCall(input) =>
      var (reg', r) := Create(reg, inv.now, inv.auth, input);
      CreateEvents(reg', r)
    case ControlCall(id, control) =>
      var (reg', r) := ApplyControl(reg, inv.now, inv.auth, id, control);
      ControlEvents(reg', r, id, control)
    case ChargeCall(m, c, amount, invoice) =>
      var (reg', r) := Charge(reg, inv.now, inv.auth, inv.token, m, c, amount, invoice);
      ChargeEvents(reg', r, m)
    case RefundCall(_, _, _, _) => []
  }

  function Run(reg: Registry, invs: seq<Invocation>): Registry
  {
    if invs == [] then reg else Apply(Run(reg, invs[..|invs| - 1]), invs[|invs| - 1])
  }
}
