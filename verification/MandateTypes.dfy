/**
 * The contract's records, its error table and the outcome of one invocation.
 *
 * Identifiers are 32-byte hashes. A derived identifier is a constructor of its
 * preimage, which makes derivation injective: equal ids have equal preimages.
 */
module MandateTypes {
  import opened Wrappers
  import opened Limits

  type Address = nat

  datatype Hash =
    | Raw(bytes: nat)
    | MandateHash(payer: Address, merchant: Address, asset: Address, nonce: Hash)
    | PaymentHash(mandate: Hash, charge: Hash)

  datatype MandateStatus = Active | Paused | Revoked | Completed | Expired

  datatype AmountRule = Fixed(amount: I128) | Variable(maxPerCharge: I128)

  /** The largest amount one charge may move. */
  function ChargeCap(rule: AmountRule): I128
  {
    match rule
    case Fixed(a) => a
    case Variable(max) => max
  }

  predicate RuleAdmits(rule: AmountRule, amount: int)
  {
    match rule
    case Fixed(a) => amount == a
    case Variable(max) => amount <= max
  }

  datatype Mandate = Mandate(
    id: Hash,
    payer: Address,
    merchant: Address,
    asset: Address,
    status: MandateStatus,
    amountRule: AmountRule,
    maxPerPeriod: I128,
    periodSeconds: U64,
    minIntervalSeconds: U64,
    startAt: U64,
    expiresAt: U64,
    maxSuccessfulCharges: U32,
    successfulCharges: U32,
    totalCollected: I128,
    currentPeriodStart: U64,
    currentPeriodCollected: I128,
    lastChargedAt: Option<U64>,
    createdAt: U64,
    metadataHash: Hash)

  datatype MandateInput = MandateInput(
    payer: Address,
    merchant: Address,
    asset: Address,
    amountRule: AmountRule,
    maxPerPeriod: I128,
    periodSeconds: U64,
    minIntervalSeconds: U64,
    startAt: U64,
    expiresAt: U64,
    maxSuccessfulCharges: U32,
    metadataHash: Hash,
    clientNonce: Hash)

  datatype PaymentReceipt = PaymentReceipt(
    paymentId: Hash,
    mandateId: Hash,
    chargeId: Hash,
    payer: Address,
    merchant: Address,
    asset: Address,
    amount: I128,
    invoiceHash: Hash,
    timestamp: U64)

  datatype RefundReceipt = RefundReceipt(refundId: Hash, paymentId: Hash, amount: I128, timestamp: U64)

  datatype LifecycleKind = CreatedEvent | PausedEvent | ResumedEvent | RevokedEvent | CompletedEvent

  /** A lifecycle event the contract publishes. On the chain only a creation carries the asset. */
  datatype Lifecycle = Lifecycle(kind: LifecycleKind, mandateId: Hash, payer: Address, merchant: Address, asset: Address)

  datatype Error =
    | MandateNotFound
    | MandateNotActive
    | MandatePaused
    | MandateRevoked
    | MandateCompleted
    | MandateExpired
    | ChargeBeforeStart
    | ChargeTooSoon
    | InvalidAmount
    | AmountExceedsChargeLimit
    | AmountExceedsPeriodLimit
    | ChargeCountExceeded
    | DuplicateCharge
    | UnauthorizedMerchant
    | InsufficientAllowance
    | InsufficientBalance
    | PaymentNotFound
    | RefundExceedsPayment
    | DuplicateRefund
    | ArithmeticOverflow
    | InvalidMandateInput
    | DuplicateMandate
    | InvalidStateTransition
    | RefundNotFound

  /** A typed result, a typed error, or a host trap (missing authorization, a panicking token). */
  datatype Outcome<+T> = Ok(value: T) | Err(error: Error) | Trap

  /** The terms a mandate is created with; nothing ever changes them. */
  datatype Terms = Terms(
    id: Hash, payer: Address, merchant: Address, asset: Address, amountRule: AmountRule,
    maxPerPeriod: I128, periodSeconds: U64, minIntervalSeconds: U64,
    startAt: U64, expiresAt: U64, maxSuccessfulCharges: U32)

  function TermsOf(m: Mandate): Terms
  {
    Terms(m.id, m.payer, m.merchant, m.asset, m.amountRule, m.maxPerPeriod, m.periodSeconds,
          m.minIntervalSeconds, m.startAt, m.expiresAt, m.maxSuccessfulCharges)
  }
}
