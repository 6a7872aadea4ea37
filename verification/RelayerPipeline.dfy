/**
 * The relayer's code: `processChargeRequest` run against the shared tables,
 * with other workers, the scheduler and the chain free to move between any two
 * of its statements. A ghost trace records every step, so that each state the
 * code reaches is a state of some run of Relayer.dfy, where the theorems are.
 */
module RelayerPipeline {
  import opened Wrappers
  import opened Limits
  import opened MandateTypes
  import opened RegistrySpec
  import opened ChargeRequests
  import opened Relayer
  import opened RelayerSafety
  import opened RelayerOutcomes
  import opened RelayerTheorems
  import RelayerRetries

  /** Why a job throws: there is no such request, a guarded write found the row elsewhere, or the error has no class. */
  datatype Cause = NoSuchRequest | LostWrite(expected: Status) | Unclassifiable

  datatype PipelineOutcome =
    | SkippedNotClaimable
    | SucceededWith(paymentId: Hash)
    | RetryScheduled(nextAttemptAt: int)
    | GaveUp
    | Thrown(cause: Cause)

  /** What the outcome says about the request's row, the moment it is returned. */
  ghost predicate OutcomeTrue(s: State, req: RequestId, outcome: PipelineOutcome)
  {
    match outcome
    case SkippedNotClaimable => true
    case SucceededWith(paymentId) =>
      && req in s.rows && s.rows[req].status == Succeeded
      && req in s.payments && s.payments[req].paymentId == paymentId && PaymentSucceeded(req) in s.webhooks
    case RetryScheduled(at) => req in s.rows && s.rows[req].status == RetryableFailed && s.rows[req].nextAttemptAt == Some(at)
    case GaveUp => req in s.rows && s.rows[req].status == PermanentlyFailed && PaymentFailed(req) in s.webhooks
    case Thrown(LostWrite(expected)) => req in s.rows ==> s.rows[req].status != expected
    case Thrown(_) => true
  }

  // ---- what a job meets outside the database ----

  /** How a call to the network ends: with its answer, with none, or with a contract error outside the table. */
  datatype Rpc = Answers | Unreachable | UnknownError

  /** The answers one job gets, the clock and signatures of its simulation, whether its transaction leaves, and the clock of a failure. */
  datatype Surroundings = Surroundings(
    read: Rpc, readAt: U64,
    simulate: Rpc, simulateAt: U64, auth: set<Address>, token: TokenReply,
    leaves: bool, submit: Rpc, failAt: int)

  datatype Verdict = Fine | Transient | Permanent | Unknown

  function ClassifyContractError(error: Error): Verdict
  {
    if error.InsufficientAllowance? || error.InsufficientBalance? then Transient else Permanent
  }

  /** The read of the mandate is fine when the network answers and the chain has it. */
  ghost predicate ReadsAs(v: Verdict, s: State, row: ChargeRequest, e: Surroundings)
  {
    match v
    case Fine => e.read.Answers? && row.mandateId in s.chain.mandates
    case Transient => e.read.Unreachable?
    case Permanent => e.read.Answers? && row.mandateId !in s.chain.mandates
    case Unknown => e.read.UnknownError?
  }

  /** The database names the wallet that the mandate names, and an asset. */
  ghost predicate WalletAgrees(d: Directory, row: ChargeRequest, merchant: Address)
  {
    row.merchantId in d.wallets && d.wallets[row.merchantId] == merchant && (row.merchantId, row.mandateId) in d.assets
  }

  /** The receipt is of the request itself, for the wallet and the asset the database names. */
  ghost predicate ReceiptFits(receipt: PaymentReceipt, d: Directory, row: ChargeRequest)
    requires row.merchantId in d.wallets && (row.merchantId, row.mandateId) in d.assets
  {
    && receipt.mandateId == row.mandateId && receipt.chargeId == row.chargeId
    && receipt.amount == row.amount && receipt.invoiceHash == row.invoiceHash
    && receipt.merchant == d.wallets[row.merchantId] && receipt.asset == d.assets[(row.merchantId, row.mandateId)]
  }

  /** Only a short allowance or a short balance may pass with time. */
  ghost predicate MayPass(result: Outcome<PaymentReceipt>)
  {
    result.Trap? || result == Err(InsufficientAllowance) || result == Err(InsufficientBalance)
  }

  /** What the charge would answer now. */
  function SimulatedResult(s: State, row: ChargeRequest, e: Surroundings): Outcome<PaymentReceipt>
  {
    Charge(s.chain, e.simulateAt, e.auth, e.token, row.mandateId, row.chargeId, row.amount, row.invoiceHash).1
  }

  /** The simulation is fine when the records agree with the mandate and the receipt with the request. */
  ghost predicate SimulatesAs(v: Verdict, s: State, row: ChargeRequest, merchant: Address, e: Surroundings)
  {
    var agrees := WalletAgrees(s.directory, row, merchant);
    var result := SimulatedResult(s, row, e);
    match v
    case Fine => agrees && e.simulate.Answers? && result.Ok? && ReceiptFits(result.value, s.directory, row)
    case Transient => agrees && (e.simulate.Unreachable? || (e.simulate.Answers? && MayPass(result)))
    case Permanent => !agrees || (e.simulate.Answers? && !MayPass(result) && (result.Ok? ==> !ReceiptFits(result.value, s.directory, row)))
    case Unknown => agrees && e.simulate.UnknownError?
  }

  /** The submission is fine when the network tells that the transaction executed with a receipt. */
  ghost predicate SubmitsAs(v: Verdict, results: map<TxId, Outcome<PaymentReceipt>>, tx: TxId, e: Surroundings)
  {
    match v
    case Fine => e.submit.Answers? && tx in results && results[tx].Ok?
    case Transient => e.submit.Unreachable? || (e.submit.Answers? && (tx in results ==> MayPass(results[tx])))
    case Permanent => e.submit.Answers? && tx in results && results[tx].Err? && !MayPass(results[tx])
    case Unknown => e.submit.UnknownError?
  }

  const HOUR_MS := 3_600_000

  /** What a verdict other than Fine leads to; `from` is where the row stood. */
  ghost predicate EndsAs(outcome: PipelineOutcome, v: Verdict, attempt: nat, from: Status, now: int)
  {
    match v
    case Fine => false
    case Unknown => outcome == Thrown(Unclassifiable)
    case Permanent => outcome == GaveUp || outcome == Thrown(LostWrite(from))
    case Transient =>
      || outcome == Thrown(LostWrite(from))
      || outcome == (if attempt == 1 then RetryScheduled(now + 6 * HOUR_MS)
                     else if attempt == 2 then RetryScheduled(now + 24 * HOUR_MS)
                     else if attempt == 3 then RetryScheduled(now + 72 * HOUR_MS)
                     else GaveUp)
  }

  lemma ThrowsUnclassified(s: State, req: RequestId, attempt: nat, from: Status, now: int)
    ensures OutcomeTrue(s, req, Thrown(Unclassifiable)) && EndsAs(Thrown(Unclassifiable), Unknown, attempt, from, now)
  {
  }

  lemma Disagrees(s: State, row: ChargeRequest, merchant: Address, e: Surroundings)
    requires var context := ResolveChargeContext(s.directory, row); context.Some? ==> context.value.merchantWallet != merchant
    ensures SimulatesAs(Permanent, s, row, merchant, e)
  {
    hide Charge;
  }

  // ---- where a job stands in its trace ----

  /** The state before step `n` of a run. */
  ghost function Before(steps: seq<Step>, n: nat): State
    requires n <= |steps|
  {
    Steps(START, steps[..n])
  }

  lemma BeforeStays(steps: seq<Step>, steps': seq<Step>, n: nat)
    requires n <= |steps| && steps <= steps'
    ensures Before(steps', n) == Before(steps, n)
  {
    assert steps'[..n] == steps[..n];
  }

  lemma BeforeNow(steps: seq<Step>)
    ensures Before(steps, |steps|) == Steps(START, steps)
  {
    assert steps[..|steps|] == steps;
  }

  /** The claim of a row read earlier is open. */
  ghost predicate ClaimOpen(s: State, req: RequestId, read: ChargeRequest)
  {
    req in s.rows && s.rows[req].status == if read.status == RetryableFailed then RetryableFailed else Scheduled
  }

  /** The steps of a run at which a job read the mandate and simulated, and what came of them. */
  datatype Preparation = Preparation(read: nat, readAs: Verdict, simulate: nat, simulatedAs: Verdict)

  /** The step at which `submit()` returned, with which transaction, and what came of it. */
  datatype Submission = Submission(submit: nat, tx: TxId, submittedAs: Verdict)

  /** Preparation goes on exactly when the mandate reads and the charge simulates as they should; otherwise it ends by its verdict. */
  ghost predicate PreparesAs(p: Preparation, w: WorkerId, trace: seq<Step>, row: ChargeRequest, attempt: nat,
                             ended: Option<PipelineOutcome>, e: Surroundings)
  {
    && p.read < |trace| && trace[p.read].By? && trace[p.read].w == w
    && ReadsAs(p.readAs, Before(trace, p.read), row, e)
    && if !p.readAs.Fine? then ended.Some? && EndsAs(ended.value, p.readAs, attempt, Processing, e.failAt)
       else
         && p.read < p.simulate < |trace| && trace[p.simulate].By? && trace[p.simulate].w == w
         && SimulatesAs(p.simulatedAs, Before(trace, p.simulate), row, Before(trace, p.read).chain.mandates[row.mandateId].merchant, e)
         && (ended.None? <==> p.simulatedAs.Fine?)
         && (ended.Some? ==> EndsAs(ended.value, p.simulatedAs, attempt, Processing, e.failAt))
  }

  lemma PreparesAsStays(p: Preparation, w: WorkerId, trace: seq<Step>, trace': seq<Step>, row: ChargeRequest, attempt: nat,
                        ended: Option<PipelineOutcome>, e: Surroundings)
    requires PreparesAs(p, w, trace, row, attempt, ended, e) && trace <= trace'
    ensures PreparesAs(p, w, trace', row, attempt, ended, e)
  {
    hide Before, ReadsAs, SimulatesAs, EndsAs;
    BeforeStays(trace, trace', p.read);
    if p.readAs.Fine? { BeforeStays(trace, trace', p.simulate); }
  }

  /** A submission reported as a success is settled with its own receipt; any other ends by its verdict, and its write is never lost. */
  ghost predicate SubmitsTo(b: Submission, w: WorkerId, trace: seq<Step>, attempt: nat, outcome: PipelineOutcome, e: Surroundings)
  {
    && b.submit < |trace| && trace[b.submit].By? && trace[b.submit].w == w
    && SubmitsAs(b.submittedAs, Before(trace, b.submit).results, b.tx, e)
    && if b.submittedAs.Fine? then outcome == SucceededWith(Before(trace, b.submit).results[b.tx].value.paymentId)
       else EndsAs(outcome, b.submittedAs, attempt, Submitted, e.failAt) && outcome != Thrown(LostWrite(Submitted))
  }

  /** What worker `w` itself did in a run, in order. */
  function ActsOf(steps: seq<Step>, w: WorkerId): seq<Act>
  {
    if steps == [] then []
    else
      var last := steps[|steps| - 1];
      ActsOf(steps[..|steps| - 1], w) + if last.By? && last.w == w then [last.act] else []
  }

  /** A charge is broadcast only as the seventh act, after the claim and both submission marks were written. */
  predicate BroadcastsLate(acts: seq<Act>)
  {
    forall i :: 0 <= i < |acts| && acts[i] == Broadcast ==>
      i == 6 && acts[1].Claim? && acts[3].Simulate? && acts[4].MarkSimulated? && acts[5].MarkSubmitted?
  }

  lemma StepsAppend(s: State, steps: seq<Step>, step: Step)
    ensures Steps(s, steps + [step]) == Next(Steps(s, steps), step)
    ensures forall w :: ActsOf(steps + [step], w) == ActsOf(steps, w) + if step.By? && step.w == w then [step.act] else []
  {
    assert (steps + [step])[..|steps|] == steps;
  }

  lemma OthersLeaveWorker(s: State, step: Step, w: WorkerId)
    requires !(step.By? && step.w == w)
    ensures At(Next(s, step), w) == At(s, w)
  {
    hide Charge, Apply, Move, StatementOf, Commits, Transition;
  }

  lemma MoveSubmitting(s: State, k: Worker, transient: bool)
    requires k.Submitting?
    ensures Move(s, Crash, k) == Idle
    ensures Move(s, SubmitFails(transient), k) == Failing(k.req, k.row, k.attempt, Submitted, transient)
    ensures k.tx in s.results && s.results[k.tx].Ok? ==>
      Move(s, SubmitReturns, k) == Confirmed(k.req, k.row, k.attempt, k.mandate, s.results[k.tx].value)
  {
  }

  lemma MayPassExactly(results: map<TxId, Outcome<PaymentReceipt>>, tx: TxId)
    ensures tx in results ==> match results[tx]
      case Ok(_) => !MayPass(results[tx])
      case Err(error) => MayPass(results[tx]) <==> ClassifyContractError(error) == Transient
      case Trap => MayPass(results[tx])
  {
  }

  lemma MoveClaimed(s: State, k: Worker, now: U64)
    requires k.Claimed? && GetMandate(s.chain, now, k.row.mandateId).Ok?
    ensures Move(s, ReadMandate(now), k) == MandateRead(k.req, k.row, k.attempt, GetMandate(s.chain, now, k.row.mandateId).value)
  {
  }

  lemma MoveSimulated(s: State, k: Worker, now: U64, auth: set<Address>, token: TokenReply, context: ChargeContext)
    requires k.MandateRead? && context.merchantWallet == k.mandate.merchant && ResolveChargeContext(s.directory, k.row) == Some(context)
    requires Charge(s.chain, now, auth, token, k.row.mandateId, k.row.chargeId, k.row.amount, k.row.invoiceHash).1.Ok?
    ensures Move(s, Simulate(now, auth, token), k) ==
      var receipt := Charge(s.chain, now, auth, token, k.row.mandateId, k.row.chargeId, k.row.amount, k.row.invoiceHash).1.value;
      if Verified(receipt, k.row, context) then Prepared(k.req, k.row, k.attempt, k.mandate, receipt, context)
      else Failing(k.req, k.row, k.attempt, Processing, false)
  {
  }

  lemma StoppedOutcome(p: Preparation, w: WorkerId, trace: seq<Step>, row: ChargeRequest, outcome: PipelineOutcome, e: Surroundings)
    requires PreparesAs(p, w, trace, row, row.attemptCount + 1, Some(outcome), e)
    ensures !(p.readAs.Fine? && p.simulatedAs.Fine?) && !outcome.SkippedNotClaimable? && outcome != Thrown(NoSuchRequest)
  {
    hide ReadsAs, SimulatesAs, Before;
  }

  lemma ReadyToSubmit(p: Preparation, w: WorkerId, trace: seq<Step>, row: ChargeRequest, e: Surroundings)
    requires PreparesAs(p, w, trace, row, row.attemptCount + 1, None, e)
    ensures p.readAs.Fine? && p.simulatedAs.Fine?
  {
    hide ReadsAs, SimulatesAs, Before;
  }

  /** A claim commits exactly while the row stands as it was read, and then the row is the worker's. */
  lemma ClaimExactly(s: State, w: WorkerId, at: int)
    requires At(s, w).Loaded?
    ensures var k, st := At(s, w), StatementOf(At(s, w), s.nextTx, Claim(at)).value;
      && (Commits(s, st) <==> ClaimOpen(s, k.req, k.row))
      && st.goesTo == Claimed(k.req, k.row, k.row.attemptCount + 1)
      && (Commits(s, st) ==> var rows := Execute(s, w, st).rows;
            k.req in rows && rows[k.req].status == Processing && rows[k.req].attemptCount == k.row.attemptCount + 1)
  {
    RelayerRetries.InsertsNothing(s, At(s, w).req);
  }

  /** A guarded write that inserts nothing fails only for a row that is elsewhere. */
  lemma LostMark(s: State, w: WorkerId, st: Statement)
    requires st.payment.None? && st.update.status in LegalTransitions(st.from)
    ensures !Commits(s, st) ==> OutcomeTrue(Execute(s, w, st), st.req, Thrown(LostWrite(st.from)))
  {
    RelayerRetries.InsertsNothing(s, st.req);
  }

  /** After preparation: either a mark found the row elsewhere, or the charge was submitted. */
  ghost predicate EndOf(b: Option<Submission>, w: WorkerId, trace: seq<Step>, attempt: nat, outcome: PipelineOutcome, e: Surroundings)
  {
    match b
    case None => outcome == Thrown(LostWrite(Processing)) || outcome == Thrown(LostWrite(Status.Simulated))
    case Some(b) => SubmitsTo(b, w, trace, attempt, outcome, e)
  }

  lemma EndOutcome(b: Option<Submission>, w: WorkerId, trace: seq<Step>, attempt: nat, outcome: PipelineOutcome, e: Surroundings)
    requires EndOf(b, w, trace, attempt, outcome, e)
    ensures !outcome.SkippedNotClaimable? && outcome != Thrown(NoSuchRequest)
  {
    hide SubmitsAs, Before;
  }

  /** A job of an existing request, from its claim to its outcome; `row` is what it read at its start. */
  ghost predicate CourseOf(claim: nat, p: Preparation, b: Option<Submission>, w: WorkerId, trace: seq<Step>,
                           req: RequestId, row: ChargeRequest, outcome: PipelineOutcome, e: Surroundings)
  {
    && claim < |trace| && trace[claim].By? && trace[claim].w == w
    && (outcome.SkippedNotClaimable? <==> !ClaimOpen(Before(trace, claim), req, row))
    && (!outcome.SkippedNotClaimable? ==> RunsAs(p, b, w, trace, row, outcome, e))
  }

  /** The job from its claim on: preparation ends it, or it marks and submits. */
  ghost predicate RunsAs(p: Preparation, b: Option<Submission>, w: WorkerId, trace: seq<Step>,
                         row: ChargeRequest, outcome: PipelineOutcome, e: Surroundings)
  {
    if p.readAs.Fine? && p.simulatedAs.Fine? then
      PreparesAs(p, w, trace, row, row.attemptCount + 1, None, e) && EndOf(b, w, trace, row.attemptCount + 1, outcome, e)
    else b.None? && PreparesAs(p, w, trace, row, row.attemptCount + 1, Some(outcome), e)
  }

  /** A job succeeds exactly when its claim is won, all three calls come out fine and both marks are written. */
  lemma SucceedsExactly(claim: nat, p: Preparation, b: Option<Submission>, w: WorkerId, trace: seq<Step>,
                        req: RequestId, row: ChargeRequest, outcome: PipelineOutcome, e: Surroundings)
    requires CourseOf(claim, p, b, w, trace, req, row, outcome, e)
    ensures outcome.SucceededWith? <==>
      && ClaimOpen(Before(trace, claim), req, row)
      && p.readAs.Fine? && p.simulatedAs.Fine?
      && b.Some? && b.value.submittedAs.Fine?
  {
    hide Before, ReadsAs, SimulatesAs, SubmitsAs, ClaimOpen;
  }

  /** A worker past submission finds its row where it left it. */
  lemma HeldRow(trace: seq<Step>, w: WorkerId)
    requires Holds(At(Steps(START, trace), w))
    ensures var s := Steps(START, trace); At(s, w).req in s.rows && s.rows[At(s, w).req].status == Submitted
  {
    hide Steps;
    OneSubmitter(trace, w, w);
  }

  /** Its payment is new as well. */
  lemma HeldWriteCommits(trace: seq<Step>, w: WorkerId)
    requires At(Steps(START, trace), w).Confirmed?
    ensures var s := Steps(START, trace); var k := At(s, w);
      && k.req in s.rows && s.rows[k.req].status == Submitted
      && Insertable(s.payments, k.req, Some(PaymentFrom(k.row, k.receipt)))
  {
    hide Steps, CoreOk, PaymentsOk, HooksOk, Insertable;
    RunSafe(trace);
    HeldRow(trace, w);
    RelayerRetries.SettleInserts(Steps(START, trace), w);
  }

  class Pipeline {
    var rows: Rows
    var payments: map<RequestId, Payment>
    var webhooks: seq<Webhook>
    var journal: seq<Entry>
    var workers: map<WorkerId, Worker>
    var chain: Registry
    var broadcast: map<TxId, Tx>
    var results: map<TxId, Outcome<PaymentReceipt>>
    var nextTx: TxId
    var directory: Directory
    ghost var trace: seq<Step>

    function Snapshot(): State
      reads this
    {
      State(rows, payments, webhooks, journal, workers, chain, broadcast, results, nextTx, directory)
    }

    /** This is a state of the protocol: the one its trace leads to. */
    ghost predicate Valid()
      reads this
    {
      Snapshot() == Steps(START, trace)
    }

    constructor ()
      ensures Valid() && trace == []
    {
      rows, payments, webhooks, journal, workers := map[], map[], [], [], map[];
      chain, broadcast, results, nextTx, directory := EMPTY, map[], map[], 0, Directory(map[], map[]);
      trace := [];
    }

    method Adopt(s: State)
      modifies this
      ensures Snapshot() == s && trace == old(trace)
    {
      rows, payments, webhooks, journal, workers := s.rows, s.payments, s.webhooks, s.journal, s.workers;
      chain, broadcast, results, nextTx, directory := s.chain, s.broadcast, s.results, s.nextTx, s.directory;
    }

    /** Between two statements anyone else may take any number of steps. */
    method Yield(w: WorkerId)
      requires Valid()
      modifies this
      ensures Valid() && old(trace) <= trace && ActsOf(trace, w) == old(ActsOf(trace, w))
      ensures At(Snapshot(), w) == old(At(Snapshot(), w)) && DirectoryGrows(old(directory), directory)
    {
      var n: nat := *;
      var i := 0;
      while i < n
        invariant Valid() && old(trace) <= trace && ActsOf(trace, w) == old(ActsOf(trace, w))
        invariant At(Snapshot(), w) == old(At(Snapshot(), w)) && DirectoryGrows(old(directory), directory)
      {
        var step: Step := *;
        if !(step.By? && step.w == w) {
          OthersLeaveWorker(Snapshot(), step, w);
          DirectoryNext(Snapshot(), step);
          StepsAppend(START, trace, step);
          hide Next;
          Adopt(Next(Snapshot(), step));
          trace := trace + [step];
        }
        i := i + 1;
      }
    }

    // ---- statements ----

    /** Inserts a payment row, unless a unique index refuses it. */
    method CreatePayment(req: RequestId, payment: Payment) returns (ok: bool)
      modifies this`payments
      ensures ok == Insertable(old(payments), req, Some(payment))
      ensures payments == if ok then old(payments)[req := payment] else old(payments)
    {
      ok := Insertable(payments, req, Some(payment));
      if ok { payments := payments[req := payment]; }
    }

    /** The guarded update: legal edge, expected status, one row; otherwise a conflict and no change. */
    method TransitionChargeRequest(id: RequestId, from: Status, u: Update) returns (ok: bool)
      modifies this`rows
      ensures ok == Transition(old(rows), id, from, u).Some?
      ensures rows == if ok then Transition(old(rows), id, from, u).value else old(rows)
    {
      if u.status !in LegalTransitions(from) { return false; }
      if id !in rows || rows[id].status != from { return false; }
      rows := rows[id := Write(rows[id], u)];
      ok := true;
    }

    method EnqueueChargeWebhook(hook: Webhook)
      modifies this`webhooks
      ensures webhooks == old(webhooks) + [hook]
    {
      webhooks := webhooks + [hook];
    }

    method EnqueueAll(hooks: seq<Webhook>)
      modifies this`webhooks
      ensures webhooks == old(webhooks) + hooks
    {
      var i := 0;
      while i < |hooks|
        invariant i <= |hooks| && webhooks == old(webhooks) + hooks[..i]
      {
        EnqueueChargeWebhook(hooks[i]);
        i := i + 1;
      }
    }

    /** The payment and the guarded update together, or neither. */
    method WriteTables(st: Statement) returns (ok: bool)
      modifies this`rows, this`payments
      ensures ok == (Transition(old(rows), st.req, st.from, st.update).Some? && Insertable(old(payments), st.req, st.payment))
      ensures rows == if ok then Transition(old(rows), st.req, st.from, st.update).value else old(rows)
      ensures payments == if ok && st.payment.Some? then old(payments)[st.req := st.payment.value] else old(payments)
    {
      var savedPayments := payments;
      ok := true;
      if st.payment.Some? { ok := CreatePayment(st.req, st.payment.value); }
      if ok { ok := TransitionChargeRequest(st.req, st.from, st.update); }
      if !ok { payments := savedPayments; }
    }

    /** One database transaction of a worker: every write of it, or none and the worker stops. */
    method RunTransaction(w: WorkerId, st: Statement) returns (ok: bool)
      modifies this
      ensures Snapshot() == Execute(old(Snapshot()), w, st) && trace == old(trace)
      ensures ok == Commits(old(Snapshot()), st)
    {
      hide Insertable, Transition;
      ok := WriteTables(st);
      if !ok {
        workers := workers[w := Idle];
        return;
      }
      EnqueueAll(st.hooks);
      journal := journal + st.entries;
      nextTx := nextTx + 1;
      workers := workers[w := st.goesTo];
    }

    /** Runs the write a worker has come to. */
    method Run(w: WorkerId, act: Act) returns (ok: bool)
      requires Valid() && IsWrite(act) && StatementOf(At(Snapshot(), w), nextTx, act).Some?
      modifies this
      ensures Valid() && trace == old(trace) + [By(w, act)]
      ensures ActsOf(trace, w) == old(ActsOf(trace, w)) + [act]
      ensures ok == Commits(old(Snapshot()), StatementOf(At(old(Snapshot()), w), old(nextTx), act).value)
      ensures Snapshot() == Execute(old(Snapshot()), w, StatementOf(At(old(Snapshot()), w), old(nextTx), act).value)
      ensures At(Snapshot(), w) == if ok then StatementOf(At(old(Snapshot()), w), old(nextTx), act).value.goesTo else Idle
    {
      StepsAppend(START, trace, By(w, act));
      ghost var before := Snapshot();
      var st := StatementOf(At(Snapshot(), w), nextTx, act).value;
      ok := RunTransaction(w, st);
      trace := trace + [By(w, act)];
      assert Next(before, By(w, act)) == Snapshot() by { hide Execute, StatementOf; }
    }

    /** A read, a simulation or a return of `submit()`: it moves only its own worker. */
    method Look(w: WorkerId, act: Act)
      requires Valid() && !IsWrite(act) && !act.Broadcast?
      modifies this
      ensures Valid() && trace == old(trace) + [By(w, act)]
      ensures ActsOf(trace, w) == old(ActsOf(trace, w)) + [act]
      ensures Snapshot() == Goto(old(Snapshot()), w, Move(old(Snapshot()), act, At(old(Snapshot()), w)))
      ensures At(Snapshot(), w) == Move(old(Snapshot()), act, At(old(Snapshot()), w))
    {
      StepsAppend(START, trace, By(w, act));
      hide Move;
      workers := workers[w := Move(Snapshot(), act, At(Snapshot(), w))];
      trace := trace + [By(w, act)];
    }

    /** The transaction leaves for the network. */
    method Send(w: WorkerId)
      requires Valid() && At(Snapshot(), w).Submitting?
      modifies this
      ensures Valid() && trace == old(trace) + [By(w, Broadcast)]
      ensures ActsOf(trace, w) == old(ActsOf(trace, w)) + [Broadcast]
      ensures Snapshot() == DoBroadcast(old(Snapshot()), w) && At(Snapshot(), w) == old(At(Snapshot(), w))
    {
      StepsAppend(START, trace, By(w, Broadcast));
      var k := workers[w];
      broadcast := broadcast[k.tx := Tx(k.row.mandateId, k.row.chargeId, k.row.amount, k.row.invoiceHash)];
      trace := trace + [By(w, Broadcast)];
    }

    // ---- processChargeRequest ----

    /**
     * The inner `fail`: a retry after 6, 24 and 72 hours while the schedule
     * lasts and the failure may pass, otherwise giving up with a notice. It
     * throws exactly when the row is no longer where the job left it.
     */
    method Fail(w: WorkerId, now: int) returns (outcome: PipelineOutcome, ghost act: Act)
      requires Valid() && At(Snapshot(), w).Failing?
      requires At(Snapshot(), w).from == Processing || At(Snapshot(), w).from == Submitted
      modifies this
      ensures Valid() && trace == old(trace) + [By(w, act)] && At(Snapshot(), w) == Idle && act == WriteFailure(now)
      ensures ActsOf(trace, w) == old(ActsOf(trace, w)) + [act]
      ensures var k := old(At(Snapshot(), w));
        && OutcomeTrue(Snapshot(), k.req, outcome)
        && EndsAs(outcome, if k.transient then Transient else Permanent, k.attempt, k.from, now)
        && (outcome == Thrown(LostWrite(k.from)) <==> !(k.req in old(rows) && old(rows)[k.req].status == k.from))
    {
      var k := workers[w];
      act := WriteFailure(now);
      var retryAt := if k.transient then NextRetryAt(k.attempt, now) else None;
      var ok := Run(w, WriteFailure(now));
      if !ok { return Thrown(LostWrite(k.from)), act; }
      outcome := if retryAt.Some? then RetryScheduled(retryAt.value) else GaveUp;
    }

    /** A refusal before submission, by its verdict; an error without a class is thrown and leaves the row as it is. */
    method Refuse(w: WorkerId, v: Verdict, failAt: int) returns (outcome: PipelineOutcome, ghost acts: seq<Act>)
      requires Valid() && (At(Snapshot(), w).Claimed? || At(Snapshot(), w).MandateRead?) && !v.Fine?
      modifies this
      ensures Valid() && At(Snapshot(), w) == Idle
      ensures |acts| > 0 && old(trace) + [By(w, acts[0])] <= trace
      ensures ActsOf(trace, w) == old(ActsOf(trace, w)) + acts && Broadcast !in acts
      ensures OutcomeTrue(Snapshot(), old(At(Snapshot(), w)).req, outcome)
      ensures EndsAs(outcome, v, old(At(Snapshot(), w)).attempt, Processing, failAt)
    {
      hide Steps, ActsOf, Charge, GetMandate, Verified, OutcomeTrue;
      if v.Unknown? {
        Look(w, Crash);
        ThrowsUnclassified(Snapshot(), old(At(Snapshot(), w)).req, old(At(Snapshot(), w)).attempt, Processing, failAt);
        return Thrown(Unclassifiable), [Crash];
      }
      Look(w, Reject(v.Transient?));
      ghost var act;
      Yield(w);
      outcome, act := Fail(w, failAt);
      acts := [Reject(v.Transient?), act];
    }

    /**
     * The part before the claim is won: read the row, then claim what was read.
     * It throws exactly for an unknown request and is lost exactly when the row
     * is no longer at the status that was read.
     */
    method ClaimRequest(w: WorkerId, req: RequestId) returns (stopped: Option<PipelineOutcome>, ghost acts: seq<Act>, ghost claim: nat)
      requires Valid() && At(Snapshot(), w) == Idle
      modifies this
      ensures Valid() && old(trace) <= trace && ActsOf(trace, w) == old(ActsOf(trace, w)) + acts && Broadcast !in acts
      ensures stopped == Some(Thrown(NoSuchRequest)) <==> req !in old(rows)
      ensures req in old(rows) ==> claim < |trace| && |acts| == 2 && acts[1].Claim? && trace[claim] == By(w, acts[1])
      ensures req in old(rows) ==> (stopped == Some(SkippedNotClaimable) <==> !ClaimOpen(Before(trace, claim), req, old(rows)[req]))
      ensures stopped.Some? ==> OutcomeTrue(Snapshot(), req, stopped.value)
      ensures stopped.Some? ==> At(Snapshot(), w) == Idle && (stopped.value.SkippedNotClaimable? || stopped.value == Thrown(NoSuchRequest))
      ensures stopped.None? ==> req in old(rows) && At(Snapshot(), w) == Claimed(req, old(rows)[req], old(rows)[req].attemptCount + 1)
      ensures stopped.None? ==> req in rows && rows[req].status == Processing && rows[req].attemptCount == old(rows)[req].attemptCount + 1
    {
      hide Steps, ActsOf, Charge, GetMandate, Verified, Before, Execute, Commits, ClaimOpen;
      Look(w, Relayer.Load(req));
      acts := [Relayer.Load(req)];
      if !At(Snapshot(), w).Loaded? { return Some(Thrown(NoSuchRequest)), acts, 0; }
      Yield(w);
      var now: int := *;
      claim := |trace|;
      BeforeNow(trace);
      ghost var sofar := trace;
      ClaimExactly(Snapshot(), w, now);
      var claimed := Run(w, Claim(now));
      BeforeStays(sofar, trace, claim);
      acts := acts + [Claim(now)];
      stopped := if claimed then None else Some(SkippedNotClaimable);
    }

    /** The fresh read of the mandate; the worker moves on exactly with a mandate. */
    method ReadFreshMandate(w: WorkerId, e: Surroundings) returns (v: Verdict, ghost acts: seq<Act>)
      requires Valid() && At(Snapshot(), w).Claimed?
      modifies this
      ensures Valid() && ReadsAs(v, old(Snapshot()), old(At(Snapshot(), w)).row, e)
      ensures directory == old(directory) && ActsOf(trace, w) == old(ActsOf(trace, w)) + acts
      ensures v.Fine? ==>
        && acts == [ReadMandate(e.readAt)] && trace == old(trace) + [By(w, acts[0])]
        && var k := old(At(Snapshot(), w));
           && At(Snapshot(), w).MandateRead? && At(Snapshot(), w) == MandateRead(k.req, k.row, k.attempt, At(Snapshot(), w).mandate)
           && At(Snapshot(), w).mandate.merchant == old(chain).mandates[k.row.mandateId].merchant
      ensures !v.Fine? ==> acts == [] && trace == old(trace) && Snapshot() == old(Snapshot())
    {
      hide Move, Steps, ActsOf;
      acts := [];
      var row := workers[w].row;
      if e.read.UnknownError? { return Unknown, acts; }
      if e.read.Unreachable? { return Transient, acts; }
      var read := GetMandate(chain, e.readAt, row.mandateId);
      if read.Err? { return ClassifyContractError(read.error), acts; }
      MoveClaimed(Snapshot(), workers[w], e.readAt);
      Look(w, ReadMandate(e.readAt));
      v, acts := Fine, [ReadMandate(e.readAt)];
    }

    /**
     * Simulates the charge and checks the receipt: prepared exactly with a
     * receipt that matches the request in every field and the wallet and asset
     * the database names, and otherwise still where it was, with its verdict.
     */
    method SimulateCharge(w: WorkerId, context: ChargeContext, e: Surroundings) returns (v: Verdict, ghost acts: seq<Act>)
      requires Valid() && At(Snapshot(), w).MandateRead? && context.merchantWallet == At(Snapshot(), w).mandate.merchant
      requires ResolveChargeContext(directory, At(Snapshot(), w).row) == Some(context)
      modifies this
      ensures Valid() && ActsOf(trace, w) == old(ActsOf(trace, w)) + acts
      ensures var k := old(At(Snapshot(), w)); SimulatesAs(v, old(Snapshot()), k.row, k.mandate.merchant, e)
      ensures v.Fine? ==>
        && acts == [Simulate(e.simulateAt, e.auth, e.token)] && trace == old(trace) + [By(w, acts[0])]
        && var k := old(At(Snapshot(), w));
           At(Snapshot(), w) == Prepared(k.req, k.row, k.attempt, k.mandate, SimulatedResult(old(Snapshot()), k.row, e).value, context)
      ensures !v.Fine? ==> acts == [] && trace == old(trace) && Snapshot() == old(Snapshot())
    {
      hide Move, Charge, Steps, ActsOf;
      acts := [];
      if e.simulate.UnknownError? { return Unknown, acts; }
      var row := workers[w].row;
      var simulated := Charge(chain, e.simulateAt, e.auth, e.token, row.mandateId, row.chargeId, row.amount, row.invoiceHash).1;
      if e.simulate.Unreachable? || simulated.Trap? { return Transient, acts; }
      if simulated.Err? { return ClassifyContractError(simulated.error), acts; }
      if !Verified(simulated.value, row, context) { return Permanent, acts; }
      MoveSimulated(Snapshot(), workers[w], e.simulateAt, e.auth, e.token, context);
      Look(w, Simulate(e.simulateAt, e.auth, e.token));
      v, acts := Fine, [Simulate(e.simulateAt, e.auth, e.token)];
    }

    /** From a mandate just read: resolve the context, compare wallets, simulate. */
    method CheckCharge(w: WorkerId, e: Surroundings)
      returns (v: Verdict, stopped: Option<PipelineOutcome>, ghost acts: seq<Act>, ghost simulate: nat)
      requires Valid() && At(Snapshot(), w).MandateRead?
      modifies this
      ensures Valid() && old(trace) <= trace && ActsOf(trace, w) == old(ActsOf(trace, w)) + acts && Broadcast !in acts
      ensures |old(trace)| <= simulate < |trace| && |acts| > 0 && trace[simulate] == By(w, acts[0])
      ensures var k := old(At(Snapshot(), w)); SimulatesAs(v, Before(trace, simulate), k.row, k.mandate.merchant, e)
      ensures stopped.None? <==> v.Fine?
      ensures stopped.Some? ==> At(Snapshot(), w) == Idle && OutcomeTrue(Snapshot(), old(At(Snapshot(), w)).req, stopped.value)
      ensures stopped.Some? ==> EndsAs(stopped.value, v, old(At(Snapshot(), w)).attempt, Processing, e.failAt)
      ensures stopped.None? ==> |acts| == 1 && acts[0].Simulate?
      ensures stopped.None? ==> var k := old(At(Snapshot(), w));
        At(Snapshot(), w).Prepared? && At(Snapshot(), w).req == k.req && At(Snapshot(), w).row == k.row && At(Snapshot(), w).attempt == k.attempt
    {
      hide Steps, ActsOf, Before, EndsAs, OutcomeTrue, SimulatesAs, Charge, Verified, DirectoryGrows, SimulatedResult;
      ghost var more;
      var o;
      ghost var k := workers[w];
      var row := workers[w].row;
      var merchant := workers[w].mandate.merchant;
      var context := ResolveChargeContext(directory, row);
      var agrees := context.Some? && context.value.merchantWallet == merchant;
      v := Permanent;
      acts := [];
      if !agrees { Disagrees(Snapshot(), row, merchant, e); }
      ghost var resolved := directory;
      if agrees {
        hide ResolveChargeContext;
        Yield(w);
        ContextStays(resolved, directory, row);
      }
      simulate := |trace|;
      BeforeNow(trace);
      ghost var sofar := trace;
      if agrees { v, acts := SimulateCharge(w, context.value, e); }
      if v.Fine? {
        stopped := None;
      } else {
        o, more := Refuse(w, v, e.failAt);
        acts := acts + more;
        stopped := Some(o);
      }
      BeforeStays(sofar, trace, simulate);
    }

    /**
     * Reads the mandate, simulates and verifies. What is left to submit was
     * simulated to a receipt of exactly the request, for the merchant the
     * mandate names.
     */
    method PrepareCharge(w: WorkerId, e: Surroundings)
      returns (stopped: Option<PipelineOutcome>, ghost acts: seq<Act>, ghost p: Preparation)
      requires Valid() && At(Snapshot(), w).Claimed?
      modifies this
      ensures Valid() && old(trace) <= trace && ActsOf(trace, w) == old(ActsOf(trace, w)) + acts && Broadcast !in acts
      ensures var k := old(At(Snapshot(), w)); PreparesAs(p, w, trace, k.row, k.attempt, stopped, e)
      ensures stopped.Some? ==> At(Snapshot(), w) == Idle && OutcomeTrue(Snapshot(), old(At(Snapshot(), w)).req, stopped.value)
      ensures stopped.None? ==> |acts| == 2 && acts[1].Simulate?
      ensures stopped.None? ==> var k := old(At(Snapshot(), w));
        At(Snapshot(), w).Prepared? && At(Snapshot(), w).req == k.req && At(Snapshot(), w).row == k.row && At(Snapshot(), w).attempt == k.attempt
    {
      hide Steps, ActsOf, Before, EndsAs, OutcomeTrue, SimulatesAs, DirectoryGrows;
      ghost var more;
      var o;
      Yield(w);
      ghost var read := |trace|;
      BeforeNow(trace);
      ghost var sofar := trace;
      var v;
      v, acts := ReadFreshMandate(w, e);
      if !v.Fine? {
        o, more := Refuse(w, v, e.failAt);
        acts := acts + more;
        BeforeStays(sofar, trace, read);
        return Some(o), acts, Preparation(read, v, 0, Permanent);
      }
      ghost var simulate;
      v, stopped, more, simulate := CheckCharge(w, e);
      acts := acts + more;
      p := Preparation(read, Fine, simulate, v);
      BeforeStays(sofar, trace, read);
    }

    /** The two marks, each a guarded write, which fails exactly when the row is elsewhere. */
    method MarkForSubmission(w: WorkerId) returns (failed: Option<PipelineOutcome>, ghost acts: seq<Act>)
      requires Valid() && At(Snapshot(), w).Prepared?
      modifies this
      ensures Valid() && old(trace) <= trace
      ensures ActsOf(trace, w) == old(ActsOf(trace, w)) + acts && Broadcast !in acts
      ensures failed.Some? ==> At(Snapshot(), w) == Idle && OutcomeTrue(Snapshot(), old(At(Snapshot(), w)).req, failed.value)
      ensures failed.Some? ==> failed.value == Thrown(LostWrite(Processing)) || failed.value == Thrown(LostWrite(Status.Simulated))
      ensures failed.None? ==> |acts| == 2 && acts[0].MarkSimulated? && acts[1].MarkSubmitted? && var k := old(At(Snapshot(), w));
        At(Snapshot(), w).Submitting? && At(Snapshot(), w).req == k.req && At(Snapshot(), w).row == k.row && At(Snapshot(), w).attempt == k.attempt
    {
      hide Steps, ActsOf, Execute, Commits, OutcomeTrue;
      Yield(w);
      var at: int := *;
      LostMark(Snapshot(), w, StatementOf(workers[w], nextTx, MarkSimulated(at)).value);
      var ok := Run(w, MarkSimulated(at));
      acts := [MarkSimulated(at)];
      if !ok { return Some(Thrown(LostWrite(Processing))), acts; }
      Yield(w);
      at := *;
      LostMark(Snapshot(), w, StatementOf(workers[w], nextTx, MarkSubmitted(at)).value);
      ok := Run(w, MarkSubmitted(at));
      acts := acts + [MarkSubmitted(at)];
      failed := if ok then None else Some(Thrown(LostWrite(Status.Simulated)));
    }

    /** The confirmed charge: payment, status and notices in one transaction, which always commits. */
    method SettleCharge(w: WorkerId) returns (outcome: PipelineOutcome, ghost act: Act)
      requires Valid() && At(Snapshot(), w).Confirmed?
      modifies this
      ensures Valid() && old(trace) <= trace && At(Snapshot(), w) == Idle
      ensures ActsOf(trace, w) == old(ActsOf(trace, w)) + [act] && act.Settle?
      ensures OutcomeTrue(Snapshot(), old(At(Snapshot(), w)).req, outcome)
      ensures var k := old(At(Snapshot(), w));
        && outcome == SucceededWith(k.receipt.paymentId)
        && k.req in payments && payments[k.req] == Payment(k.receipt.paymentId, k.row.mandateId, k.row.chargeId, k.receipt.amount, k.receipt.asset)
    {
      var paymentId := workers[w].receipt.paymentId;
      var now: int := *;
      act := Settle(now);
      HeldWriteCommits(trace, w);
      var ok := Run(w, Settle(now));
      outcome := if ok then SucceededWith(paymentId) else Thrown(LostWrite(Submitted));
    }

    /** `submit()` returns: confirmed exactly when the network tells of a receipt, and then with that receipt. */
    method AwaitResult(w: WorkerId, e: Surroundings) returns (v: Verdict, ghost act: Act)
      requires Valid() && At(Snapshot(), w).Submitting?
      modifies this
      ensures Valid() && trace == old(trace) + [By(w, act)]
      ensures ActsOf(trace, w) == old(ActsOf(trace, w)) + [act] && act != Broadcast
      ensures SubmitsAs(v, old(results), old(At(Snapshot(), w)).tx, e)
      ensures var k := old(At(Snapshot(), w));
        At(Snapshot(), w) == match v
          case Fine => Confirmed(k.req, k.row, k.attempt, k.mandate, old(results)[k.tx].value)
          case Transient => Failing(k.req, k.row, k.attempt, Submitted, true)
          case Permanent => Failing(k.req, k.row, k.attempt, Submitted, false)
          case Unknown => Idle
      ensures act.SubmitFails? ==> v.Transient? || v.Permanent?
    {
      hide Steps, ActsOf, Move, MayPass;
      var k := workers[w];
      MoveSubmitting(Snapshot(), k, true);
      MoveSubmitting(Snapshot(), k, false);
      if e.submit.UnknownError? {
        Look(w, Crash);
        return Unknown, Crash;
      }
      if e.submit.Answers? && k.tx in results && results[k.tx].Ok? {
        Look(w, SubmitReturns);
        return Fine, SubmitReturns;
      }
      MayPassExactly(results, k.tx);
      v := if e.submit.Answers? && k.tx in results && results[k.tx].Err? then ClassifyContractError(results[k.tx].error) else Transient;
      act := SubmitFails(v.Transient?);
      Look(w, SubmitFails(v.Transient?));
    }

    /** Writes what came of a submission; the row is this worker's, so no such write is lost. */
    method WriteOutcome(w: WorkerId, failAt: int) returns (outcome: PipelineOutcome, ghost act: Act)
      requires Valid() && Holds(At(Snapshot(), w)) && !At(Snapshot(), w).Submitting?
      modifies this
      ensures Valid() && old(trace) <= trace && At(Snapshot(), w) == Idle
      ensures ActsOf(trace, w) == old(ActsOf(trace, w)) + [act] && act != Broadcast
      ensures OutcomeTrue(Snapshot(), old(At(Snapshot(), w)).req, outcome)
      ensures var k := old(At(Snapshot(), w));
        if k.Confirmed? then outcome == SucceededWith(k.receipt.paymentId)
        else EndsAs(outcome, if k.transient then Transient else Permanent, k.attempt, Submitted, failAt) && outcome != Thrown(LostWrite(Submitted))
    {
      hide Steps, ActsOf, OutcomeTrue, EndsAs;
      HeldRow(trace, w);
      if At(Snapshot(), w).Failing? { outcome, act := Fail(w, failAt); } else { outcome, act := SettleCharge(w); }
    }

    /** Waits for the result and writes what came of it. */
    method Conclude(w: WorkerId, e: Surroundings) returns (outcome: PipelineOutcome, ghost acts: seq<Act>, ghost b: Submission)
      requires Valid() && At(Snapshot(), w).Submitting?
      modifies this
      ensures Valid() && old(trace) <= trace && At(Snapshot(), w) == Idle
      ensures ActsOf(trace, w) == old(ActsOf(trace, w)) + acts && |acts| > 0 && Broadcast !in acts
      ensures OutcomeTrue(Snapshot(), old(At(Snapshot(), w)).req, outcome)
      ensures b.tx == old(At(Snapshot(), w)).tx && SubmitsTo(b, w, trace, old(At(Snapshot(), w)).attempt, outcome, e)
    {
      hide OutcomeTrue, Steps, ActsOf, SubmitsAs, EndsAs, Before;
      ghost var k, submit, sofar := At(Snapshot(), w), |trace|, trace;
      BeforeNow(trace);
      ghost var act;
      var v;
      v, act := AwaitResult(w, e);
      acts := [act];
      if v.Unknown? {
        outcome := Thrown(Unclassifiable);
        ThrowsUnclassified(Snapshot(), k.req, k.attempt, Submitted, e.failAt);
      } else {
        Yield(w);
        outcome, act := WriteOutcome(w, e.failAt);
        acts := acts + [act];
      }
      b := Submission(submit, k.tx, v);
      BeforeStays(sofar, trace, submit);
    }

    /** Submits once and writes what came of it. */
    method SubmitOnce(w: WorkerId, e: Surroundings) returns (outcome: PipelineOutcome, ghost acts: seq<Act>, ghost b: Submission)
      requires Valid() && At(Snapshot(), w).Submitting?
      modifies this
      ensures Valid() && old(trace) <= trace && At(Snapshot(), w) == Idle
      ensures ActsOf(trace, w) == old(ActsOf(trace, w)) + acts
      ensures forall i :: 1 <= i < |acts| ==> acts[i] != Broadcast
      ensures |acts| > 0 && (acts[0] == Broadcast <==> e.leaves)
      ensures OutcomeTrue(Snapshot(), old(At(Snapshot(), w)).req, outcome)
      ensures b.tx == old(At(Snapshot(), w)).tx && SubmitsTo(b, w, trace, old(At(Snapshot(), w)).attempt, outcome, e)
    {
      hide OutcomeTrue, Steps, ActsOf, DoBroadcast, At, SubmitsTo;
      acts := [];
      if e.leaves {
        Yield(w);
        Send(w);
        acts := [Broadcast];
      }
      Yield(w);
      ghost var more;
      outcome, more, b := Conclude(w, e);
      acts := acts + more;
    }

    /** Marks the row and submits. */
    method SubmitPrepared(w: WorkerId, e: Surroundings) returns (outcome: PipelineOutcome, ghost acts: seq<Act>, ghost b: Option<Submission>)
      requires Valid() && At(Snapshot(), w).Prepared?
      modifies this
      ensures Valid() && old(trace) <= trace && At(Snapshot(), w) == Idle
      ensures ActsOf(trace, w) == old(ActsOf(trace, w)) + acts
      ensures forall i :: 0 <= i < |acts| && acts[i] == Broadcast ==> i == 2 && acts[0].MarkSimulated? && acts[1].MarkSubmitted?
      ensures Broadcast in acts <==> b.Some? && e.leaves
      ensures OutcomeTrue(Snapshot(), old(At(Snapshot(), w)).req, outcome)
      ensures EndOf(b, w, trace, old(At(Snapshot(), w)).attempt, outcome, e)
    {
      hide Steps, ActsOf, SubmitsTo, At;
      b := None;
      var failed;
      failed, acts := MarkForSubmission(w);
      if failed.Some? { return failed.value, acts, b; }
      ghost var more, sub;
      outcome, more, sub := SubmitOnce(w, e);
      acts, b := acts + more, Some(sub);
    }

    /** A job from its claim on. */
    method RunClaimed(w: WorkerId, e: Surroundings)
      returns (outcome: PipelineOutcome, ghost acts: seq<Act>, ghost p: Preparation, ghost b: Option<Submission>)
      requires Valid() && At(Snapshot(), w).Claimed? && At(Snapshot(), w).attempt == At(Snapshot(), w).row.attemptCount + 1
      modifies this
      ensures Valid() && old(trace) <= trace && At(Snapshot(), w) == Idle
      ensures ActsOf(trace, w) == old(ActsOf(trace, w)) + acts
      ensures forall i :: 0 <= i < |acts| && acts[i] == Broadcast ==> i == 4 && acts[1].Simulate? && acts[2].MarkSimulated? && acts[3].MarkSubmitted?
      ensures Broadcast in acts <==> b.Some? && e.leaves
      ensures OutcomeTrue(Snapshot(), old(At(Snapshot(), w)).req, outcome)
      ensures RunsAs(p, b, w, trace, old(At(Snapshot(), w)).row, outcome, e)
      ensures !outcome.SkippedNotClaimable? && outcome != Thrown(NoSuchRequest)
    {
      hide Steps, ActsOf, OutcomeTrue, PreparesAs, EndOf, At;
      ghost var row := At(Snapshot(), w).row;
      ghost var more;
      var stopped;
      stopped, acts, p := PrepareCharge(w, e);
      if stopped.Some? {
        outcome, b := stopped.value, None;
        StoppedOutcome(p, w, trace, row, outcome, e);
      } else {
        ReadyToSubmit(p, w, trace, row, e);
        ghost var prepared := trace;
        outcome, more, b := SubmitPrepared(w, e);
        acts := acts + more;
        PreparesAsStays(p, w, prepared, trace, row, row.attemptCount + 1, None, e);
        EndOutcome(b, w, trace, row.attemptCount + 1, outcome, e);
      }
    }

    /**
     * One job, from any reachable state and against any interference. It throws
     * for an unknown request only, skips exactly when its claim is lost, goes
     * on exactly while the mandate reads and the charge simulates as they
     * should, submits unless a mark finds the row elsewhere, and settles
     * exactly what the network reports as a success; every other end is its
     * verdict's. The outcome is what the database says when it is returned, and
     * the transaction is broadcast at most once, after claim and both marks.
     */
    method ProcessChargeRequest(w: WorkerId, req: RequestId, e: Surroundings)
      returns (outcome: PipelineOutcome, ghost acts: seq<Act>, ghost claim: nat, ghost p: Preparation, ghost b: Option<Submission>)
      requires Valid() && At(Snapshot(), w) == Idle
      modifies this
      ensures Valid() && old(trace) <= trace && At(Snapshot(), w) == Idle
      ensures ActsOf(trace, w) == old(ActsOf(trace, w)) + acts
      ensures BroadcastsLate(acts) && (Broadcast in acts <==> b.Some? && e.leaves)
      ensures OutcomeTrue(Snapshot(), req, outcome)
      ensures outcome == Thrown(NoSuchRequest) <==> req !in old(rows)
      ensures req in old(rows) ==> CourseOf(claim, p, b, w, trace, req, old(rows)[req], outcome, e)
    {
      hide Steps, ActsOf, OutcomeTrue, RunsAs, At, ClaimOpen, Before;
      ghost var more;
      var stopped;
      stopped, acts, claim := ClaimRequest(w, req);
      b, p := None, Preparation(0, Permanent, 0, Permanent);
      if stopped.Some? { outcome := stopped.value; return; }
      ghost var claimed := trace;
      outcome, more, p, b := RunClaimed(w, e);
      acts := acts + more;
      BeforeStays(claimed, trace, claim);
    }
  }

  /** What the theorems say of the state and the outcome of a job. */
  lemma ReachedByJobs(s: State, trace: seq<Step>, req: RequestId, outcome: PipelineOutcome)
    requires s == Steps(START, trace) && OutcomeTrue(s, req, outcome)
    ensures Safe(s)
    ensures outcome.SucceededWith? ==> req in s.rows && req in s.payments && ChargedAs(s.chain, s.rows[req], s.payments[req])
  {
    hide Safe, ChargedAs, Steps;
    RunSafe(trace);
    if outcome.SucceededWith? { AtMostOnceComposed(trace, req); }
    assert Safe(s);
  }
}
