/**
 * The `ChargeRequest` row, its transition table, the guarded update every
 * writer goes through, and the retry schedule. Instants are milliseconds.
 */
module ChargeRequests {
  import opened Wrappers
  import opened Limits
  import opened MandateTypes

  type RequestId = nat

  datatype Status = Scheduled | Processing | Simulated | Submitted | Succeeded | RetryableFailed | PermanentlyFailed

  datatype ChargeRequest = ChargeRequest(
    merchantId: nat,
    mandateId: Hash,
    chargeId: Hash,
    amount: I128,
    invoiceHash: Hash,
    scheduledFor: int,
    status: Status,
    attemptCount: nat,
    nextAttemptAt: Option<int>,
    updatedAt: int)

  type Rows = map<RequestId, ChargeRequest>

  function LegalTransitions(from: Status): set<Status>
  {
    match from
    case Scheduled => {Processing}
    case Processing => {Simulated, RetryableFailed, PermanentlyFailed}
    case Simulated => {Submitted}
    case Submitted => {Succeeded, RetryableFailed, PermanentlyFailed}
    case Succeeded => {}
    case RetryableFailed => {Processing}
    case PermanentlyFailed => {}
  }

  /** The columns one update writes; None leaves a column alone. */
  datatype Update = Update(status: Status, attemptCount: Option<nat>, nextAttemptAt: Option<Option<int>>, at: int)

  function Write(row: ChargeRequest, u: Update): ChargeRequest
  {
    row.(
      status := u.status,
      attemptCount := if u.attemptCount.Some? then u.attemptCount.value else row.attemptCount,
      nextAttemptAt := if u.nextAttemptAt.Some? then u.nextAttemptAt.value else row.nextAttemptAt,
      updatedAt := u.at)
  }

  /** One guarded `updateMany`: it checks the edge and the current status, nothing else. None is the thrown conflict. */
  function Transition(rows: Rows, id: RequestId, from: Status, u: Update): (r: Option<Rows>)
    ensures r.Some? <==> u.status in LegalTransitions(from) && id in rows && rows[id].status == from
  {
    if u.status in LegalTransitions(from) && id in rows && rows[id].status == from
    then Some(rows[id := Write(rows[id], u)])
    else None
  }

  const STALE_PRE_SUBMISSION_MS := 600_000

  predicate Stale(row: ChargeRequest, now: int)
  {
    (row.status == Processing || row.status == Simulated) && row.updatedAt <= now - STALE_PRE_SUBMISSION_MS
  }

  /** The scheduler's recovery: one bulk update, outside the transition table. */
  function RecoverStale(rows: Rows, now: int): Rows
  {
    map id | id in rows ::
      if Stale(rows[id], now) then Write(rows[id], Update(RetryableFailed, None, Some(Some(now)), now)) else rows[id]
  }

  const RETRY_DELAYS_MS: seq<int> := [21_600_000, 86_400_000, 259_200_000]

  /** When to try again after `attemptCount` attempts, or None once the schedule is used up. */
  function NextRetryAt(attemptCount: int, from: int): Option<int>
  {
    if 0 <= attemptCount - 1 < |RETRY_DELAYS_MS| then Some(from + RETRY_DELAYS_MS[attemptCount - 1]) else None
  }

  predicate Claimable(s: Status) { s == Scheduled || s == RetryableFailed }

  predicate Terminal(s: Status) { s == Succeeded || s == PermanentlyFailed }

  /** The parts of a request nothing writes after creation. */
  datatype Order = Order(merchantId: nat, mandateId: Hash, chargeId: Hash, amount: I128, invoiceHash: Hash, scheduledFor: int)

  function OrderOf(row: ChargeRequest): Order
  {
    Order(row.merchantId, row.mandateId, row.chargeId, row.amount, row.invoiceHash, row.scheduledFor)
  }
}
