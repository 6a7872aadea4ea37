/** The relayer's promises, over every interleaving from an empty system. */
module RelayerTheorems {
  import opened Wrappers
  import opened Limits
  import opened MandateTypes
  import opened RegistrySpec
  import opened RegistryInvariant
  import opened RegistryRuns
  import opened RegistryTheorems
  import opened ChargeHistory
  import opened ChargeRequests
  import opened Relayer
  import opened RelayerSafety
  import opened RelayerOutcomes

  /** At most one charge of the chain's history is this request's. */
  ghost predicate ChargedAtMostOnce(chain: Registry, mandateId: Hash, chargeId: Hash)
  {
    forall i, j | 0 <= i < |chain.charged| && 0 <= j < |chain.charged| ::
      IsCharge(chain.charged[i], mandateId, chargeId) && IsCharge(chain.charged[j], mandateId, chargeId) ==> i == j
  }

  /** The request's one charge, as the chain recorded it. */
  ghost predicate ChargedAs(chain: Registry, row: ChargeRequest, payment: Payment)
  {
    exists i :: 0 <= i < |chain.charged|
      && IsCharge(chain.charged[i], row.mandateId, row.chargeId)
      && payment == Payment(chain.charged[i].paymentId, row.mandateId, row.chargeId, row.amount, chain.charged[i].asset)
      && chain.charged[i].amount == row.amount
      && row.mandateId in chain.mandates && payment.asset == chain.mandates[row.mandateId].asset
  }

  lemma PaidIsCharged(chain: Registry, row: ChargeRequest, receipt: PaymentReceipt)
    requires ReceiptsStored(chain) && Paid(chain, row, receipt)
    ensures ChargedAs(chain, row, PaymentFrom(row, receipt))
  {
    var i :| 0 <= i < |chain.charged| && chain.charged[i] == receipt;
    assert IsCharge(chain.charged[i], row.mandateId, row.chargeId);
  }

  lemma StoredOnce(chain: Registry, mandateId: Hash, chargeId: Hash)
    requires ReceiptsStored(chain)
    ensures ChargedAtMostOnce(chain, mandateId, chargeId)
  {
  }

  /**
   * Whatever workers, retries, recoveries, crashes and late inclusions do: the
   * chain charges a request at most once, and a payment row exists exactly when
   * the request succeeded and is that charge, for the requested amount, in the
   * mandate's own asset.
   */
  lemma AtMostOnceComposed(steps: seq<Step>, req: RequestId)
    requires req in Steps(START, steps).rows
    ensures var s := Steps(START, steps); var row := s.rows[req];
      && ChargedAtMostOnce(s.chain, row.mandateId, row.chargeId)
      && (row.status == Succeeded <==> req in s.payments)
      && (req in s.payments ==> ChargedAs(s.chain, row, s.payments[req]))
  {
    RunSafe(steps);
    var s := Steps(START, steps);
    hide CoreOk, MandatesOk, ReceiptsStored, ChargedAs, ChargedAtMostOnce, Steps, Paid, HooksOk, SingleSubmitter;
    SafeChain(s);
    StoredOnce(s.chain, s.rows[req].mandateId, s.rows[req].chargeId);
    if req in s.payments {
      PaidIsCharged(s.chain, s.rows[req], s.chain.payments[s.payments[req].paymentId]);
    }
  }

  /**
   * Money only goes where the database says: the on-chain receipt of a recorded
   * payment names the wallet of the request's own merchant and the asset of the
   * product the mandate was sold for.
   */
  lemma PaidToNamedWallet(steps: seq<Step>, req: RequestId)
    requires req in Steps(START, steps).payments
    ensures var s := Steps(START, steps);
      && req in s.rows && s.payments[req].paymentId in s.chain.payments
      && var receipt := s.chain.payments[s.payments[req].paymentId];
         ResolveChargeContext(s.directory, s.rows[req]) == Some(ChargeContext(receipt.merchant, receipt.asset))
  {
    RunSafe(steps);
    hide CoreOk, Steps, HooksOk, SingleSubmitter, ResolveChargeContext;
    assert PaymentOk(Steps(START, steps), req);
  }

  lemma SafeChain(s: State)
    requires Safe(s)
    ensures RegistryOk(s.chain)
  {
    hide RegistryOk;
  }

  /** At most one worker is past submission for a request, and its row says Submitted. */
  lemma OneSubmitter(steps: seq<Step>, v: WorkerId, w: WorkerId)
    ensures var s := Steps(START, steps);
      && (Holds(At(s, v)) ==> At(s, v).req in s.rows && s.rows[At(s, v).req].status == Submitted)
      && (Holds(At(s, v)) && Holds(At(s, w)) && At(s, v).req == At(s, w).req ==> v == w)
  {
    RunSafe(steps);
    hide CoreOk, PaymentsOk, HooksOk, Steps;
  }

  lemma ActLeavesHeldRow(s: State, v: WorkerId, act: Act, req: RequestId)
    requires WorkerOk(s, v) && req in s.rows && s.rows[req].status == Submitted
    requires !(Holds(At(s, v)) && At(s, v).req == req)
    ensures req in DoAct(s, v, act).rows && DoAct(s, v, act).rows[req] == s.rows[req]
  {
    hide Charge, PaidAfter, ReadFrom;
  }

  lemma OtherLeavesHeldRow(s: State, step: Step, req: RequestId)
    requires !step.By? && req in s.rows && s.rows[req].status == Submitted
    ensures req in Next(s, step).rows && Next(s, step).rows[req] == s.rows[req]
  {
    hide Charge, Apply;
  }

  /** While a worker is past submission nobody else can write its row, not even the scheduler. */
  lemma HeldRowUntouched(steps: seq<Step>, step: Step, w: WorkerId)
    requires Holds(At(Steps(START, steps), w)) && !(step.By? && step.w == w)
    ensures var s := Steps(START, steps); var req := At(s, w).req;
      req in s.rows && req in Next(s, step).rows && Next(s, step).rows[req] == s.rows[req]
  {
    RunSafe(steps);
    var s := Steps(START, steps);
    hide PaymentsOk, HooksOk, Steps, RegistryOk, DistinctCharges, TxsOk, WorkerOk, DoAct;
    if step.By? {
      assert WorkerOk(s, step.w);
      ActIsNext(s, step.w, step.act);
      ActLeavesHeldRow(s, step.w, step.act, At(s, w).req);
    } else {
      OtherLeavesHeldRow(s, step, At(s, w).req);
    }
  }

  /**
   * `mandate.completed` is sound and sent at most once: each notice names the
   * request whose charge was number `max_successful_charges` of the mandate,
   * and no mandate has two.
   */
  lemma CompletionNoticesSound(steps: seq<Step>, i: nat, j: nat)
    requires i < |Steps(START, steps).webhooks| && j < |Steps(START, steps).webhooks|
    requires Steps(START, steps).webhooks[i].MandateCompletedHook? && Steps(START, steps).webhooks[j].MandateCompletedHook?
    ensures var s := Steps(START, steps);
      && CompletedBy(s, s.webhooks[i].mandateId, s.webhooks[i].req)
      && (s.webhooks[i].mandateId == s.webhooks[j].mandateId ==> i == j)
  {
    RunSafe(steps);
    var s := Steps(START, steps);
    hide PaymentsOk, Steps, RegistryOk, WorkersOk, TxsOk, SingleSubmitter;
    if s.webhooks[i].mandateId == s.webhooks[j].mandateId {
      SameCompletion(s, s.webhooks[i].mandateId, s.webhooks[i].req, s.webhooks[j].req);
    }
  }

  /** Only one request can have completed a mandate. */
  lemma SameCompletion(s: State, mandateId: Hash, a: RequestId, b: RequestId)
    requires CompletedBy(s, mandateId, a) && CompletedBy(s, mandateId, b) && DistinctCharges(s.rows)
    ensures a == b
  {
    hide IsChargeNumber;
    NumberIsUnique(s.chain, s.chain.payments[s.payments[a].paymentId], s.chain.payments[s.payments[b].paymentId],
                   s.chain.mandates[mandateId].maxSuccessfulCharges);
  }

  // ---- a row's life ----

  /** A request is taken unless its id or its charge id is, and starts as it was ordered, never attempted. */
  lemma ScheduledAsOrdered(s: State, req: RequestId, order: Order, at: int)
    ensures var s' := Next(s, Step.Schedule(req, order, at));
      if req in s.rows || exists r :: r in s.rows && s.rows[r].chargeId == order.chargeId then s' == s
      else
        && s' == s.(rows := s.rows[req := s'.rows[req]])
        && OrderOf(s'.rows[req]) == order && s'.rows[req].status == Scheduled
        && s'.rows[req].attemptCount == 0 && s'.rows[req].nextAttemptAt == None
  {
  }

  /** The status changes a row can make, recoveries aside. */
  predicate Edge(a: Status, b: Status)
  {
    || ((a == Scheduled || a == RetryableFailed) && b == Processing)
    || (a == Processing && (b == Simulated || b == RetryableFailed || b == PermanentlyFailed))
    || (a == Simulated && b == Submitted)
    || (a == Submitted && (b == Succeeded || b == RetryableFailed || b == PermanentlyFailed))
  }

  lemma ActEdge(s: State, w: WorkerId, act: Act, req: RequestId)
    requires req in s.rows
    ensures req in DoAct(s, w, act).rows
    ensures DoAct(s, w, act).rows[req] == s.rows[req] || Edge(s.rows[req].status, DoAct(s, w, act).rows[req].status)
  {
    hide Move, StatementOf, Insertable;
  }

  /**
   * Whatever anyone does in one step, a row keeps its status or takes one of
   * nine edges; only a recovery may also take a simulated row back. What is
   * ended stays as it is for good.
   */
  lemma RowEdges(s: State, step: Step, req: RequestId)
    requires req in s.rows
    ensures var s' := Next(s, step);
      && req in s'.rows
      && var (a, b) := (s.rows[req].status, s'.rows[req].status);
         && (a != b ==> Edge(a, b) || (step.Recover? && a == Status.Simulated && b == RetryableFailed))
         && (a == Succeeded || a == PermanentlyFailed ==> s'.rows[req] == s.rows[req])
  {
    if step.By? {
      ActEdge(s, step.w, step.act, req);
      ActIsNext(s, step.w, step.act);
    } else {
      hide Charge, Apply, DoAct;
    }
  }
}
