/**
 * The relayer as a protocol. Workers run `processChargeRequest` one statement
 * at a time, in any interleaving, over shared tables and the chain. A worker
 * may stop anywhere; the scheduler may recover stale rows at any moment; a
 * broadcast transaction may execute at any later time, or never; anyone else
 * may call the registry. The only synchronisation is the guarded update.
 */
module Relayer {
  import opened Wrappers
  import opened Limits
  import opened MandateTypes
  import opened RegistrySpec
  import opened ChargeRequests

  type WorkerId = nat
  type TxId = nat

  /** Where a worker is in `processChargeRequest`, with its local variables. */
  datatype Worker =
    | Idle
    | Loaded(req: RequestId, row: ChargeRequest)
    | Claimed(req: RequestId, row: ChargeRequest, attempt: nat)
    | MandateRead(req: RequestId, row: ChargeRequest, attempt: nat, mandate: Mandate)
    | Prepared(req: RequestId, row: ChargeRequest, attempt: nat, mandate: Mandate, simulated: PaymentReceipt, context: ChargeContext)
    | MarkedSimulated(req: RequestId, row: ChargeRequest, attempt: nat, mandate: Mandate)
    | Submitting(req: RequestId, row: ChargeRequest, attempt: nat, mandate: Mandate, tx: TxId)
    | Confirmed(req: RequestId, row: ChargeRequest, attempt: nat, mandate: Mandate, receipt: PaymentReceipt)
    | Failing(req: RequestId, row: ChargeRequest, attempt: nat, from: Status, transient: bool)

  /** A `Payment` row, keyed by its charge request. */
  datatype Payment = Payment(paymentId: Hash, mandateId: Hash, chargeId: Hash, amount: I128, asset: Address)

  datatype Webhook =
    | PaymentSucceeded(req: RequestId)
    | PaymentFailed(req: RequestId)
    | MandateCompletedHook(mandateId: Hash, req: RequestId)

  /** What the relayer logs, in order: claims, scheduled retries, recoveries. */
  datatype Entry =
    | ClaimEntry(req: RequestId)
    | RetryEntry(req: RequestId, attempt: nat)
    | RecoveryEntry(recovered: set<RequestId>)

  /** A broadcast charge: its arguments only. */
  datatype Tx = Tx(mandateId: Hash, chargeId: Hash, amount: I128, invoiceHash: Hash)

  datatype State = State(
    rows: Rows,
    payments: map<RequestId, Payment>,
    webhooks: seq<Webhook>,
    journal: seq<Entry>,
    workers: map<WorkerId, Worker>,
    chain: Registry,
    broadcast: map<TxId, Tx>,
    results: map<TxId, Outcome<PaymentReceipt>>,
    nextTx: TxId,
    directory: Directory)

  function At(s: State, w: WorkerId): Worker
  {
    if w in s.workers then s.workers[w] else Idle
  }

  function Goto(s: State, w: WorkerId, worker: Worker): State
  {
    s.(workers := s.workers[w := worker])
  }

  /** What the database says the simulated receipt must match. */
  datatype ChargeContext = ChargeContext(merchantWallet: Address, expectedAsset: Address)

  /** Merchants' wallets, and the asset of the product each mandate was sold for. */
  datatype Directory = Directory(wallets: map<nat, Address>, assets: map<(nat, Hash), Address>)

  function ResolveChargeContext(d: Directory, row: ChargeRequest): Option<ChargeContext>
  {
    if row.merchantId in d.wallets && (row.merchantId, row.mandateId) in d.assets
    then Some(ChargeContext(d.wallets[row.merchantId], d.assets[(row.merchantId, row.mandateId)]))
    else None
  }

  predicate Verified(receipt: PaymentReceipt, row: ChargeRequest, context: ChargeContext)
  {
    && receipt.merchant == context.merchantWallet
    && receipt.asset == context.expectedAsset
    && receipt.amount == row.amount
    && receipt.chargeId == row.chargeId
    && receipt.mandateId == row.mandateId
    && receipt.invoiceHash == row.invoiceHash
  }

  /** What one worker does next. `at` is the wall clock of a database write. */
  datatype Act =
    | Load(req: RequestId)
    | Claim(at: int)
    | ReadMandate(now: U64)
    | Reject(transient: bool)
    | Simulate(now: U64, auth: set<Address>, token: TokenReply)
    | MarkSimulated(at: int)
    | MarkSubmitted(at: int)
    | Broadcast
    | SubmitReturns
    | SubmitFails(transient: bool)
    | Settle(at: int)
    | WriteFailure(at: int)
    | Crash

  /** One atomic step: of a worker, of the API, of the ledger, of the scheduler, of anyone on chain, of the database's owner. */
  datatype Step =
    | By(w: WorkerId, act: Act)
    | Schedule(newReq: RequestId, order: Order, at: int)
    | Include(tx: TxId, now: U64, auth: set<Address>, token: TokenReply)
    | Recover(at: int)
    | ChainCall(inv: Invocation)
    | Enroll(merchantId: nat, wallet: Address)
    | Link(linkedMerchant: nat, linkedMandate: Hash, asset: Address)

  // ---- database statements ----

  /** A new request: Scheduled, never attempted, with a charge id no other request has. */
  function DoSchedule(s: State, req: RequestId, order: Order, at: int): State
  {
    if req in s.rows || (exists r :: r in s.rows && s.rows[r].chargeId == order.chargeId) then s
    else
      s.(rows := s.rows[req := ChargeRequest(order.merchantId, order.mandateId, order.chargeId, order.amount,
                                             order.invoiceHash, order.scheduledFor, Scheduled, 0, None, at)])
  }

  /**
   * One write of a worker: a guarded update of its row, with what commits in
   * the same transaction, and where the worker goes from there.
   */
  datatype Statement = Statement(
    req: RequestId, from: Status, update: Update, goesTo: Worker,
    entries: seq<Entry>, hooks: seq<Webhook>, payment: Option<Payment>)

  function ClaimFrom(row: ChargeRequest): Status
  {
    if row.status == RetryableFailed then RetryableFailed else Scheduled
  }

  function PaymentFrom(row: ChargeRequest, receipt: PaymentReceipt): Payment
  {
    Payment(receipt.paymentId, row.mandateId, row.chargeId, receipt.amount, receipt.asset)
  }

  /** The pipeline's test for `mandate.completed`, on the mandate it read before the charge. */
  function SettleHooks(req: RequestId, mandate: Mandate, row: ChargeRequest): seq<Webhook>
  {
    [PaymentSucceeded(req)]
    + if mandate.maxSuccessfulCharges > 0 && mandate.successfulCharges + 1 == mandate.maxSuccessfulCharges
      then [MandateCompletedHook(row.mandateId, req)] else []
  }

  /** The claim is guarded on the status alone; its attempt count comes from the row read earlier. */
  function ClaimStatement(req: RequestId, row: ChargeRequest, at: int): Statement
  {
    var attempt := row.attemptCount + 1;
    Statement(req, ClaimFrom(row), Update(Processing, Some(attempt), None, at), Claimed(req, row, attempt), [ClaimEntry(req)], [], None)
  }

  /** The inner `fail`: retry while the schedule lasts, otherwise give up and notify. */
  function FailureStatement(req: RequestId, attempt: nat, from: Status, transient: bool, at: int): Statement
  {
    var retryAt := if transient then NextRetryAt(attempt, at) else None;
    if retryAt.Some?
    then Statement(req, from, Update(RetryableFailed, None, Some(retryAt), at), Idle, [RetryEntry(req, attempt)], [], None)
    else Statement(req, from, Update(PermanentlyFailed, None, Some(None), at), Idle, [], [PaymentFailed(req)], None)
  }

  /** The write a step makes from where its worker stands. */
  function StatementOf(k: Worker, nextTx: TxId, act: Act): Option<Statement>
  {
    match (act, k)
    case (Claim(at), Loaded(req, row)) => Some(ClaimStatement(req, row, at))
    case (MarkSimulated(at), Prepared(req, row, attempt, mandate, _, _)) =>
      Some(Statement(req, Processing, Update(Simulated, None, None, at), MarkedSimulated(req, row, attempt, mandate), [], [], None))
    case (MarkSubmitted(at), MarkedSimulated(req, row, attempt, mandate)) =>
      Some(Statement(req, Simulated, Update(Submitted, None, None, at), Submitting(req, row, attempt, mandate, nextTx), [], [], None))
    case (Settle(at), Confirmed(req, row, _, mandate, receipt)) =>
      Some(Statement(req, Submitted, Update(Succeeded, None, None, at), Idle, [], SettleHooks(req, mandate, row), Some(PaymentFrom(row, receipt))))
    case (WriteFailure(at), Failing(req, _, attempt, from, transient)) => Some(FailureStatement(req, attempt, from, transient, at))
    case _ => None
  }

  /** The unique indexes on `Payment`. */
  predicate Insertable(payments: map<RequestId, Payment>, req: RequestId, payment: Option<Payment>)
  {
    payment.Some? ==>
      && req !in payments
      && forall r :: r in payments ==> payments[r].paymentId != payment.value.paymentId && payments[r].chargeId != payment.value.chargeId
  }

  predicate Commits(s: State, st: Statement)
  {
    Transition(s.rows, st.req, st.from, st.update).Some? && Insertable(s.payments, st.req, st.payment)
  }

  /** All of it, or none of it and the worker stops on the thrown error. */
  function Execute(s: State, w: WorkerId, st: Statement): State
  {
    if !Commits(s, st) then Goto(s, w, Idle)
    else
      Goto(s, w, st.goesTo).(
        rows := Transition(s.rows, st.req, st.from, st.update).value,
        payments := if st.payment.Some? then s.payments[st.req := st.payment.value] else s.payments,
        webhooks := s.webhooks + st.hooks,
        journal := s.journal + st.entries,
        nextTx := s.nextTx + 1)
  }

  function DoRecover(s: State, at: int): State
  {
    s.(rows := RecoverStale(s.rows, at),
       journal := s.journal + [RecoveryEntry(set id | id in s.rows && Stale(s.rows[id], at))])
  }

  /** Merchants and products come in over time; a wallet or an asset once entered stays. */
  function AddWallet(d: Directory, merchantId: nat, wallet: Address): Directory
  {
    if merchantId in d.wallets then d else d.(wallets := d.wallets[merchantId := wallet])
  }

  function AddAsset(d: Directory, merchantId: nat, mandateId: Hash, asset: Address): Directory
  {
    if (merchantId, mandateId) in d.assets then d else d.(assets := d.assets[(merchantId, mandateId) := asset])
  }

  // ---- steps that only move their worker ----

  /** Reads, simulations and returns of `submit()`. */
  function Move(s: State, act: Act, k: Worker): Worker
  {
    match (act, k)
    case (Load(req), Idle) => if req in s.rows then Loaded(req, s.rows[req]) else k
    case (ReadMandate(now), Claimed(req, row, attempt)) =>
      var read := GetMandate(s.chain, now, row.mandateId);
      if read.Ok? then MandateRead(req, row, attempt, read.value) else k
    // Every refusal before submission: unreadable mandate, missing context, rejected simulation, unreachable RPC.
    case (Reject(transient), Claimed(req, row, attempt)) => Failing(req, row, attempt, Processing, transient)
    case (Reject(transient), MandateRead(req, row, attempt, _)) => Failing(req, row, attempt, Processing, transient)
    // Simulation runs the charge and keeps nothing; the receipt must match the request.
    case (Simulate(now, auth, token), MandateRead(req, row, attempt, mandate)) =>
      var context := ResolveChargeContext(s.directory, row);
      var simulated := Charge(s.chain, now, auth, token, row.mandateId, row.chargeId, row.amount, row.invoiceHash).1;
      if context.None? || !simulated.Ok? then k
      else if context.value.merchantWallet == mandate.merchant && Verified(simulated.value, row, context.value)
      then Prepared(req, row, attempt, mandate, simulated.value, context.value)
      else Failing(req, row, attempt, Processing, false)
    // submit() reports what the ledger did with this worker's transaction ...
    case (SubmitReturns, Submitting(req, row, attempt, mandate, tx)) =>
      if tx in s.results && s.results[tx].Ok? then Confirmed(req, row, attempt, mandate, s.results[tx].value) else k
    // ... or fails: a contract error of any verdict, or lost contact with a transaction that did or will execute.
    case (SubmitFails(transient), Submitting(req, row, attempt, _, _)) => Failing(req, row, attempt, Submitted, transient)
    case (Crash, _) => Idle
    case _ => k
  }

  // ---- chain ----

  function DoBroadcast(s: State, w: WorkerId): State
  {
    match At(s, w)
    case Submitting(_, row, _, _, tx) => s.(broadcast := s.broadcast[tx := Tx(row.mandateId, row.chargeId, row.amount, row.invoiceHash)])
    case _ => s
  }

  function DoInclude(s: State, tx: TxId, now: U64, auth: set<Address>, token: TokenReply): State
  {
    if tx !in s.broadcast || tx in s.results then s
    else
      var t := s.broadcast[tx];
      var (chain, result) := Charge(s.chain, now, auth, token, t.mandateId, t.chargeId, t.amount, t.invoiceHash);
      s.(chain := chain, results := s.results[tx := result])
  }

  // ---- runs ----

  predicate IsWrite(act: Act)
  {
    act.Claim? || act.MarkSimulated? || act.MarkSubmitted? || act.Settle? || act.WriteFailure?
  }

  function DoWrite(s: State, w: WorkerId, act: Act): State
  {
    var st := StatementOf(At(s, w), s.nextTx, act);
    if st.None? then s else Execute(s, w, st.value)
  }

  function DoAct(s: State, w: WorkerId, act: Act): State
  {
    if IsWrite(act) then DoWrite(s, w, act)
    else if act.Broadcast? then DoBroadcast(s, w)
    else Goto(s, w, Move(s, act, At(s, w)))
  }

  function Next(s: State, step: Step): State
  {
    match step
    case By(w, act) => DoAct(s, w, act)
    case Schedule(req, order, at) => DoSchedule(s, req, order, at)
    case Include(tx, now, auth, token) => DoInclude(s, tx, now, auth, token)
    case Recover(at) => DoRecover(s, at)
    case ChainCall(inv) => s.(chain := Apply(s.chain, inv))
    case Enroll(merchantId, wallet) => s.(directory := AddWallet(s.directory, merchantId, wallet))
    case Link(merchantId, mandateId, asset) => s.(directory := AddAsset(s.directory, merchantId, mandateId, asset))
  }

  function Steps(s: State, steps: seq<Step>): State
  {
    if steps == [] then s else Next(Steps(s, steps[..|steps| - 1]), steps[|steps| - 1])
  }

  const START := State(map[], map[], [], [], map[], EMPTY, map[], map[], 0, Directory(map[], map[]))
}
