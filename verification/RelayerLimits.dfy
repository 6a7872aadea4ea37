/**
 * What the relayer does not promise: runs in which a request that failed for
 * good was charged on chain, and in which a completed mandate is never
 * announced. Neither needs a crash, a recovery, a stale read or a caller other
 * than the mandate's creator. RelayerCharged.dfy and RelayerAnnounced.dfy say
 * exactly when either happens.
 */
module RelayerLimits {
  import opened Wrappers
  import opened Limits
  import opened MandateTypes
  import opened RegistrySpec
  import opened ChargeRequests
  import opened Relayer
  import opened RelayerSafety
  import opened RegistryTheorems
  import opened RelayerCharged
  import R = RelayerRetries
  import RelayerPipeline

  /** Nobody calls the contract past the relayer, except to create the mandate at the start. */
  predicate OnlyCreation(steps: seq<Step>)
  {
    forall i :: 0 <= i < |steps| && steps[i].ChainCall? ==> i == 0 && steps[i].inv.call.CreateCall?
  }

  /** No crash, no recovery, no claim on a stale read, no caller but the creator. */
  predicate Plain(steps: seq<Step>)
  {
    R.Uninterrupted(steps) && R.FreshRun(START, steps) && OnlyCreation(steps)
  }

  /** A plain run leads here. */
  ghost predicate Reachable(s: State)
  {
    exists steps :: Plain(steps) && Steps(START, steps) == s
  }

  predicate PlainStep(s: State, step: Step)
  {
    !step.Recover? && !step.ChainCall? && !(step.By? && step.act.Crash?) && R.Fresh(s, step)
  }

  lemma ReachNext(s: State, step: Step)
    requires Reachable(s) && PlainStep(s, step)
    ensures Reachable(Next(s, step))
  {
    var steps :| Plain(steps) && Steps(START, steps) == s;
    var more := steps + [step];
    RelayerPipeline.StepsAppend(START, steps, step);
    assert more[..|more| - 1] == steps;
    hide Next, Steps;
    assert R.FreshRun(START, more);
    assert Plain(more);
  }

  lemma ReachCreated(inv: Invocation)
    requires inv.call.CreateCall?
    ensures Reachable(Next(START, ChainCall(inv)))
  {
    var steps := [ChainCall(inv)];
    R.StepsOne([], ChainCall(inv));
    assert [] + steps == steps && Steps(START, []) == START;
    hide Next, Steps;
    assert steps[..0] == [];
    assert R.FreshRun(START, []);
    assert R.FreshRun(START, steps);
    assert Plain(steps);
  }

  lemma {:induction false} NobodyChargesDirectly(steps: seq<Step>, m: Hash, c: Hash)
    requires OnlyCreation(steps)
    ensures !DirectlyCharged(steps, m, c)
  {
    if steps != [] {
      hide Steps, Charge;
      var front, last := steps[..|steps| - 1], steps[|steps| - 1];
      assert forall i :: 0 <= i < |front| ==> front[i] == steps[i];
      NobodyChargesDirectly(front, m, c);
      assert last.ChainCall? ==> last.inv.call.CreateCall?;
    }
  }

  // ---- what one step of a worker leaves alone ----

  /** Only the worker and its request's row have moved. */
  ghost predicate OnlyMoved(s: State, s': State, w: WorkerId, req: RequestId)
  {
    && s'.chain == s.chain && s'.directory == s.directory && s'.results == s.results
    && s'.payments == s.payments && s'.webhooks == s.webhooks && s.nextTx <= s'.nextTx
    && (forall v: WorkerId :: v != w ==> At(s', v) == At(s, v))
    && (forall r: RequestId :: r != req ==> (r in s'.rows <==> r in s.rows) && (r in s.rows ==> s'.rows[r] == s.rows[r]))
  }

  lemma Looks(s: State, w: WorkerId, act: Act, req: RequestId)
    requires Reachable(s) && !IsWrite(act) && !act.Broadcast? && !act.Crash?
    ensures var s' := Next(s, By(w, act));
      Reachable(s') && At(s', w) == Move(s, act, At(s, w)) && OnlyMoved(s, s', w, req)
      && s'.rows == s.rows && s'.broadcast == s.broadcast && s'.nextTx == s.nextTx && s'.journal == s.journal
  {
    ReachNext(s, By(w, act));
    hide Move;
  }

  lemma Writes(s: State, w: WorkerId, act: Act, st: Statement)
    requires Reachable(s) && IsWrite(act) && StatementOf(At(s, w), s.nextTx, act) == Some(st)
    requires st.payment.None? && st.hooks == [] && Transition(s.rows, st.req, st.from, st.update).Some? && R.Fresh(s, By(w, act))
    ensures var s' := Next(s, By(w, act));
      Reachable(s') && At(s', w) == st.goesTo && OnlyMoved(s, s', w, st.req)
      && st.req in s'.rows && s'.rows[st.req] == Write(s.rows[st.req], st.update)
      && s'.broadcast == s.broadcast && s'.nextTx == s.nextTx + 1 && s'.journal == s.journal + st.entries
  {
    ReachNext(s, By(w, act));
    hide StatementOf;
    assert s.webhooks + [] == s.webhooks;
  }

  lemma Sends(s: State, w: WorkerId)
    requires Reachable(s) && At(s, w).Submitting?
    ensures var s', k := Next(s, By(w, Broadcast)), At(s, w);
      Reachable(s') && At(s', w) == k && OnlyMoved(s, s', w, k.req) && s'.rows == s.rows && s'.nextTx == s.nextTx
      && s'.broadcast == s.broadcast[k.tx := Tx(k.row.mandateId, k.row.chargeId, k.row.amount, k.row.invoiceHash)]
  {
    ReachNext(s, By(w, Broadcast));
  }

  lemma OnlyMovedJoins(a: State, b: State, c: State, w: WorkerId, req: RequestId)
    requires OnlyMoved(a, b, w, req) && OnlyMoved(b, c, w, req)
    ensures OnlyMoved(a, c, w, req)
  {
  }

  // ---- a scheduled request up to its broadcast ----

  /** Everything a request needs to be charged: context, an active mandate, a charge the contract accepts. */
  ghost predicate Chargeable(s: State, row: ChargeRequest, token: TokenReply)
  {
    && row.mandateId in s.chain.mandates
    && var m := s.chain.mandates[row.mandateId];
       && ResolveChargeContext(s.directory, row) == Some(ChargeContext(m.merchant, m.asset))
       && Charge(s.chain, 0, {m.merchant}, token, row.mandateId, row.chargeId, row.amount, row.invoiceHash).1.Ok?
  }

  /** Read and claimed. */
  lemma ToClaimed(s: State, w: WorkerId, req: RequestId) returns (s': State)
    requires Reachable(s) && At(s, w) == Idle && req in s.rows && s.rows[req].status == Scheduled && s.rows[req].attemptCount == 0
    ensures Reachable(s') && OnlyMoved(s, s', w, req) && s'.broadcast == s.broadcast
    ensures At(s', w) == Claimed(req, s.rows[req], 1)
    ensures req in s'.rows && s'.rows[req].status == Processing && s'.rows[req].attemptCount == 1 && OrderOf(s'.rows[req]) == OrderOf(s.rows[req])
  {
    hide Next, Reachable;
    var row := s.rows[req];
    var s1 := Next(s, By(w, Load(req)));
    Looks(s, w, Load(req), req);
    assert At(s1, w) == Loaded(req, row);
    hide Move;
    s' := Next(s1, By(w, Claim(0)));
    Writes(s1, w, Claim(0), ClaimStatement(req, row, 0));
    OnlyMovedJoins(s, s1, s', w, req);
  }

  /** Claimed, with the mandate as it is on chain now. */
  lemma ToMandateRead(s: State, w: WorkerId, req: RequestId) returns (s': State)
    requires Reachable(s) && At(s, w) == Idle && req in s.rows && s.rows[req].status == Scheduled && s.rows[req].attemptCount == 0
    requires s.rows[req].mandateId in s.chain.mandates
    ensures Reachable(s') && OnlyMoved(s, s', w, req) && s'.broadcast == s.broadcast
    ensures At(s', w) == MandateRead(req, s.rows[req], 1, GetMandate(s.chain, 0, s.rows[req].mandateId).value)
    ensures req in s'.rows && s'.rows[req].status == Processing && s'.rows[req].attemptCount == 1 && OrderOf(s'.rows[req]) == OrderOf(s.rows[req])
  {
    hide Next, Reachable, Move;
    var s1 := ToClaimed(s, w, req);
    s' := Next(s1, By(w, ReadMandate(0)));
    Looks(s1, w, ReadMandate(0), req);
    RelayerPipeline.MoveClaimed(s1, At(s1, w), 0);
    OnlyMovedJoins(s, s1, s', w, req);
  }

  /** Simulated and verified. */
  lemma ToPrepared(s: State, w: WorkerId, req: RequestId, row: ChargeRequest, mandate: Mandate, token: TokenReply) returns (s': State)
    requires Reachable(s) && At(s, w) == MandateRead(req, row, 1, mandate)
    requires Chargeable(s, row, token) && mandate.merchant == s.chain.mandates[row.mandateId].merchant
    ensures Reachable(s') && OnlyMoved(s, s', w, req) && s'.rows == s.rows && s'.broadcast == s.broadcast && s'.nextTx == s.nextTx
    ensures At(s', w).Prepared? && At(s', w) == Prepared(req, row, 1, mandate, At(s', w).simulated, At(s', w).context)
  {
    var m := s.chain.mandates[row.mandateId];
    s' := Next(s, By(w, Simulate(0, {m.merchant}, token)));
    Looks(s, w, Simulate(0, {m.merchant}, token), req);
    SimulatedMatches(s, row, token);
    RelayerPipeline.MoveSimulated(s, At(s, w), 0, {m.merchant}, token, ChargeContext(m.merchant, m.asset));
    hide Next, Charge, Move, Verified;
  }

  /** Marked twice and broadcast. */
  lemma ToSubmitted(s: State, w: WorkerId, req: RequestId, row: ChargeRequest, mandate: Mandate) returns (s': State)
    requires Reachable(s) && At(s, w).Prepared? && At(s, w) == Prepared(req, row, 1, mandate, At(s, w).simulated, At(s, w).context)
    requires req in s.rows && s.rows[req].status == Processing
    ensures Reachable(s') && OnlyMoved(s, s', w, req)
    ensures At(s', w).Submitting? && At(s', w) == Submitting(req, row, 1, mandate, At(s', w).tx)
    ensures s'.broadcast == s.broadcast[At(s', w).tx := Tx(row.mandateId, row.chargeId, row.amount, row.invoiceHash)]
    ensures s.nextTx <= At(s', w).tx < s'.nextTx
    ensures req in s'.rows && s'.rows[req].status == Submitted && s'.rows[req].attemptCount == s.rows[req].attemptCount
    ensures OrderOf(s'.rows[req]) == OrderOf(s.rows[req])
  {
    hide Next, OnlyMoved;
    var s1 := Next(s, By(w, MarkSimulated(0)));
    Writes(s, w, MarkSimulated(0), Statement(req, Processing, Update(Simulated, None, None, 0), MarkedSimulated(req, row, 1, mandate), [], [], None));
    var s2 := Next(s1, By(w, MarkSubmitted(0)));
    Writes(s1, w, MarkSubmitted(0),
           Statement(req, Simulated, Update(Submitted, None, None, 0), Submitting(req, row, 1, mandate, s1.nextTx), [], [], None));
    s' := Next(s2, By(w, Broadcast));
    Sends(s2, w);
    OnlyMovedJoins(s, s1, s2, w, req);
    OnlyMovedJoins(s, s2, s', w, req);
  }

  /** From Scheduled to a transaction on the network, on the mandate as it is on chain now. */
  lemma ToBroadcast(s: State, w: WorkerId, req: RequestId, token: TokenReply) returns (s': State)
    requires Reachable(s) && At(s, w) == Idle && req in s.rows && s.rows[req].status == Scheduled && s.rows[req].attemptCount == 0
    requires Chargeable(s, s.rows[req], token)
    ensures Reachable(s') && OnlyMoved(s, s', w, req)
    ensures var row := s.rows[req];
      && At(s', w).Submitting? && At(s', w) == Submitting(req, row, 1, GetMandate(s.chain, 0, row.mandateId).value, At(s', w).tx)
      && s'.broadcast == s.broadcast[At(s', w).tx := Tx(row.mandateId, row.chargeId, row.amount, row.invoiceHash)]
    ensures s.nextTx <= At(s', w).tx < s'.nextTx
    ensures req in s'.rows && s'.rows[req].status == Submitted && s'.rows[req].attemptCount == 1
    ensures OrderOf(s'.rows[req]) == OrderOf(s.rows[req])
  {
    var row := s.rows[req];
    var mandate := GetMandate(s.chain, 0, row.mandateId).value;
    var s1 := ToMandateRead(s, w, req);
    assert Chargeable(s1, row, token);
    hide Charge, Chargeable;
    var s2 := ToPrepared(s1, w, req, row, mandate, token);
    s' := ToSubmitted(s2, w, req, row, mandate);
    OnlyMovedJoins(s, s1, s2, w, req);
    OnlyMovedJoins(s, s2, s', w, req);
  }

  /** The simulated receipt of a chargeable request is the request. */
  lemma SimulatedMatches(s: State, row: ChargeRequest, token: TokenReply)
    requires Chargeable(s, row, token)
    ensures var m := s.chain.mandates[row.mandateId];
      Verified(Charge(s.chain, 0, {m.merchant}, token, row.mandateId, row.chargeId, row.amount, row.invoiceHash).1.value, row,
               ChargeContext(m.merchant, m.asset))
  {
    SimulatedParties(s.chain, 0, {s.chain.mandates[row.mandateId].merchant}, token, row);
    hide TimingPlan;
  }

  // ---- the example: a mandate for two charges of ten, and two requests ----

  const INPUT := MandateInput(1, 2, 3, Fixed(10), 100, 1000, 0, 0, 10_000, 2, Raw(1), Raw(2))
  const MANDATE := MandateHash(1, 2, 3, Raw(2))
  const PAYS := TokenReply(1000, 1000, true)

  function OrderNumber(n: nat): Order { Order(7, MANDATE, Raw(10 + n), 10, Raw(3), 0) }

  const CREATED := Create(EMPTY, 0, {1}, INPUT).0

  /** The chain's charge of request n. */
  function Charged(chain: Registry, n: nat): (Registry, Outcome<PaymentReceipt>)
  {
    Charge(chain, 0, {2}, PAYS, MANDATE, Raw(10 + n), 10, Raw(3))
  }

  /** The mandate's record after `count` charges at time 0. */
  function Record(count: nat): Mandate
    requires count <= 2
  {
    NewMandate(INPUT, 0).(
      successfulCharges := count, totalCollected := 10 * count, currentPeriodCollected := 10 * count,
      lastChargedAt := if count == 0 then None else Some(0), status := if count == 2 then Completed else Active)
  }

  ghost predicate ChargedTimes(chain: Registry, count: nat)
    requires count <= 2
  {
    MANDATE in chain.mandates && chain.mandates[MANDATE] == Record(count)
  }

  lemma TimingPasses(count: nat)
    requires count < 2
    ensures TimingPlan(Record(count), 0, 10) == Ok(Plan(0, 10 * count + 10))
  {
    var m := Record(count);
    TimingOf(m);
  }

  /** At time 0, in the mandate's first period, with a count and a sum below the caps. */
  lemma TimingOf(m: Mandate)
    requires m.startAt == 0 && m.periodSeconds == 1000 && m.minIntervalSeconds == 0 && m.currentPeriodStart == 0
    requires m.maxPerPeriod == 100 && m.maxSuccessfulCharges == 2 && m.successfulCharges < 2 && m.currentPeriodCollected <= 10
    requires m.lastChargedAt.Some? ==> m.lastChargedAt.value == 0
    ensures TimingPlan(m, 0, 10) == Ok(Plan(0, m.currentPeriodCollected + 10))
  {
  }

  /** A request not charged yet passes, as the next charge of the mandate. */
  lemma Passes(chain: Registry, count: nat, n: nat)
    requires count < 2 && ChargedTimes(chain, count) && (MANDATE, Raw(10 + n)) !in chain.usedCharges
    ensures var (after, r) := Charged(chain, n);
      && r.Ok? && ChargedTimes(after, count + 1)
      && r.value.paymentId == PaymentHash(MANDATE, Raw(10 + n)) && IsCharge(r.value, MANDATE, Raw(10 + n)) && r.value.amount == 10
      && after.charged == chain.charged + [r.value] && after.usedCharges == chain.usedCharges + {(MANDATE, Raw(10 + n))}
  {
    TimingPasses(count);
    hide TimingPlan;
  }

  lemma Created()
    ensures ChargedTimes(CREATED, 0) && CREATED.usedCharges == {} && CREATED.charged == []
  {
  }

  /** Both requests can be charged, one after the other; the second completes the mandate. */
  lemma BothChargesPass()
    ensures MANDATE in CREATED.mandates && CREATED.mandates[MANDATE].merchant == 2 && CREATED.mandates[MANDATE].asset == 3
    ensures CREATED.mandates[MANDATE].successfulCharges == 0 && CREATED.mandates[MANDATE].maxSuccessfulCharges == 2
    ensures EffectiveStatus(CREATED.mandates[MANDATE], 0) == Active
    ensures Charged(CREATED, 0).1.Ok? && Charged(CREATED, 1).1.Ok?
    ensures var after := Charged(CREATED, 0).0;
      Charged(after, 1).1.Ok? && MANDATE in Charged(after, 1).0.mandates && Charged(after, 1).0.mandates[MANDATE].status == Completed
    ensures Charged(CREATED, 0).1.value.paymentId == PaymentHash(MANDATE, Raw(10))
    ensures Charged(Charged(CREATED, 0).0, 1).1.value.paymentId == PaymentHash(MANDATE, Raw(11))
  {
    Created();
    hide Charged, Create;
    Passes(CREATED, 0, 0);
    Passes(CREATED, 0, 1);
    Passes(Charged(CREATED, 0).0, 1, 1);
  }

  /** Scheduled requests 0 and 1 for that mandate, and nothing else has happened. */
  ghost predicate Ready(s: State)
  {
    && Reachable(s) && s.chain == CREATED && s.workers == map[] && s.payments == map[] && s.webhooks == []
    && s.broadcast == map[] && s.results == map[]
    && ResolvesTo(s) && Untried(s, 0) && Untried(s, 1)
  }

  predicate Untried(s: State, n: nat)
  {
    n in s.rows && OrderOf(s.rows[n]) == OrderNumber(n) && s.rows[n].status == Scheduled && s.rows[n].attemptCount == 0
  }

  predicate ResolvesTo(s: State)
  {
    7 in s.directory.wallets && s.directory.wallets[7] == 2 && (7, MANDATE) in s.directory.assets && s.directory.assets[(7, MANDATE)] == 3
  }

  /** The mandate created, the merchant and its product entered. */
  lemma Enrolled() returns (s: State)
    ensures Reachable(s) && s == START.(chain := CREATED, directory := Directory(map[7 := 2], map[(7, MANDATE) := 3]))
  {
    hide Steps, Create;
    var create := ChainCall(Invocation(0, {1}, PAYS, CreateCall(INPUT)));
    ReachCreated(create.inv);
    var s1 := START.(chain := CREATED);
    assert Next(START, create) == s1;
    ReachNext(s1, Enroll(7, 2));
    var s2 := s1.(directory := Directory(map[7 := 2], map[]));
    assert Next(s1, Enroll(7, 2)) == s2;
    ReachNext(s2, Link(7, MANDATE, 3));
    s := s2.(directory := Directory(map[7 := 2], map[(7, MANDATE) := 3]));
    assert Next(s2, Link(7, MANDATE, 3)) == s;
  }

  lemma Schedules(s: State, n: nat)
    requires Reachable(s) && n !in s.rows && forall r :: r in s.rows ==> s.rows[r].chargeId != Raw(10 + n)
    ensures var s' := Next(s, Schedule(n, OrderNumber(n), 0));
      && Reachable(s') && s' == s.(rows := s'.rows) && Untried(s', n)
      && forall r :: r in s.rows ==> r in s'.rows && s'.rows[r] == s.rows[r]
    ensures Next(s, Schedule(n, OrderNumber(n), 0)).rows.Keys == s.rows.Keys + {n}
  {
    ReachNext(s, Schedule(n, OrderNumber(n), 0));
    hide Charge, Apply;
  }

  lemma GetReady() returns (s: State)
    ensures Ready(s)
  {
    var s0 := Enrolled();
    var s1 := Next(s0, Schedule(0, OrderNumber(0), 0));
    Schedules(s0, 0);
    assert s1.rows.Keys == {0} && s1.rows[0].chargeId == Raw(10);
    s := Next(s1, Schedule(1, OrderNumber(1), 0));
    hide Next, Create, Reachable;
    Schedules(s1, 1);
  }

  /** The ledger executes a broadcast request. */
  lemma Includes(s: State, tx: TxId, n: nat)
    requires Reachable(s) && tx in s.broadcast && tx !in s.results && s.broadcast[tx] == Tx(MANDATE, Raw(10 + n), 10, Raw(3))
    ensures var s' := Next(s, Include(tx, 0, {2}, PAYS));
      Reachable(s') && s' == s.(chain := Charged(s.chain, n).0, results := s.results[tx := Charged(s.chain, n).1])
  {
    ReachNext(s, Include(tx, 0, {2}, PAYS));
    hide Charge;
  }

  lemma ReadyCharges(s: State, n: nat)
    requires n < 2 && s.chain == CREATED && ResolvesTo(s) && n in s.rows && OrderOf(s.rows[n]) == OrderNumber(n)
    ensures Chargeable(s, s.rows[n], PAYS)
  {
    BothChargesPass();
    hide Charge, Create;
  }

  // ---- charged, and failed for good ----

  /** The first attempt of request 0 ended in a scheduled retry. */
  const RETRIED := RetryEntry(0, 1)

  /** Request 0 is on the network. */
  ghost predicate OnTheNetwork(s: State, tx: TxId)
  {
    && Reachable(s) && s.chain == CREATED && tx !in s.results
    && tx in s.broadcast && s.broadcast[tx] == Tx(MANDATE, Raw(10), 10, Raw(3))
    && 0 in s.rows && OrderOf(s.rows[0]) == OrderNumber(0) && s.rows[0].attemptCount == 1
  }

  lemma FirstOnTheNetwork() returns (s: State, row: ChargeRequest, mandate: Mandate, tx: TxId)
    ensures OnTheNetwork(s, tx) && At(s, 0) == Submitting(0, row, 1, mandate, tx) && s.rows[0].status == Submitted
  {
    var s0 := GetReady();
    ReadyCharges(s0, 0);
    hide Next, Create, Charge, Chargeable, Reachable;
    s := ToBroadcast(s0, 0, 0, PAYS);
    row, mandate, tx := At(s, 0).row, At(s, 0).mandate, At(s, 0).tx;
  }

  lemma LosesContact(s: State, row: ChargeRequest, mandate: Mandate, tx: TxId) returns (s': State)
    requires OnTheNetwork(s, tx) && At(s, 0) == Submitting(0, row, 1, mandate, tx) && s.rows[0].status == Submitted
    ensures OnTheNetwork(s', tx) && At(s', 0) == Idle && s'.rows[0].status == RetryableFailed && RETRIED in s'.journal
  {
    hide Next, Move, Create, Reachable;
    var s1 := Next(s, By(0, SubmitFails(true)));
    Looks(s, 0, SubmitFails(true), 0);
    RelayerPipeline.MoveSubmitting(s, At(s, 0), true);
    s' := SchedulesRetry(s1, row, tx);
  }

  lemma SchedulesRetry(s: State, row: ChargeRequest, tx: TxId) returns (s': State)
    requires OnTheNetwork(s, tx) && At(s, 0) == Failing(0, row, 1, Submitted, true) && s.rows[0].status == Submitted
    ensures OnTheNetwork(s', tx) && At(s', 0) == Idle && s'.rows[0].status == RetryableFailed && RETRIED in s'.journal
  {
    hide Next, Create, Reachable;
    s' := Next(s, By(0, WriteFailure(0)));
    Writes(s, 0, WriteFailure(0), FailureStatement(0, 1, Submitted, true, 0));
  }

  /** Contact is lost after the broadcast, the retry is scheduled, and only then the ledger executes the transaction. */
  lemma LateInclusion() returns (s: State)
    ensures Reachable(s) && s.chain == Charged(CREATED, 0).0 && At(s, 0) == Idle
    ensures 0 in s.rows && OrderOf(s.rows[0]) == OrderNumber(0) && s.rows[0].status == RetryableFailed && s.rows[0].attemptCount == 1
    ensures RETRIED in s.journal
  {
    hide Next, Create, Charge, Reachable;
    var s1, row, mandate, tx := FirstOnTheNetwork();
    var s2 := LosesContact(s1, row, mandate, tx);
    s := Next(s2, Include(tx, 0, {2}, PAYS));
    Includes(s2, tx, 0);
  }

  /** The second attempt is refused as a duplicate, for good. */
  lemma SecondAttemptFails(s: State) returns (s': State)
    requires Reachable(s) && At(s, 0) == Idle && 0 in s.rows && s.rows[0].status == RetryableFailed && s.rows[0].attemptCount == 1
    ensures Reachable(s') && s'.chain == s.chain && 0 in s'.rows && s'.rows[0].status == PermanentlyFailed
    ensures OrderOf(s'.rows[0]) == OrderOf(s.rows[0]) && s.journal <= s'.journal
  {
    hide Next, Reachable;
    var row := s.rows[0];
    var s1 := Next(s, By(0, Load(0)));
    Looks(s, 0, Load(0), 0);
    assert At(s1, 0) == Loaded(0, row);
    var s2 := Next(s1, By(0, Claim(0)));
    Writes(s1, 0, Claim(0), ClaimStatement(0, row, 0));
    s' := RefusedAgain(s2, row);
  }

  lemma RefusedAgain(s: State, row: ChargeRequest) returns (s': State)
    requires Reachable(s) && At(s, 0) == Claimed(0, row, 2) && 0 in s.rows && s.rows[0].status == Processing
    ensures Reachable(s') && s'.chain == s.chain && 0 in s'.rows && s'.rows[0].status == PermanentlyFailed
    ensures OrderOf(s'.rows[0]) == OrderOf(s.rows[0]) && s.journal <= s'.journal
  {
    hide Next, Reachable;
    var s1 := Next(s, By(0, Reject(false)));
    Looks(s, 0, Reject(false), 0);
    assert At(s1, 0) == Failing(0, row, 2, Processing, false);
    s' := GivesUpForGood(s1, row);
  }

  lemma GivesUpForGood(s: State, row: ChargeRequest) returns (s': State)
    requires Reachable(s) && At(s, 0) == Failing(0, row, 2, Processing, false) && 0 in s.rows && s.rows[0].status == Processing
    ensures Reachable(s') && s'.chain == s.chain && 0 in s'.rows && s'.rows[0].status == PermanentlyFailed
    ensures OrderOf(s'.rows[0]) == OrderOf(s.rows[0]) && s.journal <= s'.journal
  {
    hide *;
    s' := Next(s, By(0, WriteFailure(0)));
    WritingIsPlain(s);
    ReachNext(s, By(0, WriteFailure(0)));
    StatementOfFailure(row, s.nextTx);
    FailureWritten(s, FailureStatement(0, 2, Processing, false, 0));
  }

  lemma WritingIsPlain(s: State)
    ensures PlainStep(s, By(0, WriteFailure(0)))
  {
  }

  lemma StatementOfFailure(row: ChargeRequest, nextTx: TxId)
    ensures StatementOf(Failing(0, row, 2, Processing, false), nextTx, WriteFailure(0)) == Some(FailureStatement(0, 2, Processing, false, 0))
  {
  }

  lemma FailureWritten(s: State, st: Statement)
    requires st == FailureStatement(0, 2, Processing, false, 0) && 0 in s.rows && s.rows[0].status == Processing
    requires StatementOf(At(s, 0), s.nextTx, WriteFailure(0)) == Some(st)
    ensures var s' := Next(s, By(0, WriteFailure(0)));
      && s'.chain == s.chain && 0 in s'.rows && s'.rows[0].status == PermanentlyFailed
      && OrderOf(s'.rows[0]) == OrderOf(s.rows[0]) && s.journal <= s'.journal
  {
    hide StatementOf, Move;
  }

  /**
   * A request can end permanently failed although the chain charged it: its
   * submission is given up, its transaction executes all the same, and the retry
   * that was scheduled is refused as the duplicate it is.
   */
  lemma FailedForGoodButCharged()
    ensures exists steps: seq<Step> :: var s := Steps(START, steps);
      && Plain(steps)
      && 0 in s.rows && s.rows[0].status == PermanentlyFailed && RETRIED in s.journal
      && |s.chain.charged| == 1 && IsChargeOf(s.chain.charged[0], s.rows[0])
      && GivenUpButExecuted(steps, s.rows[0].mandateId, s.rows[0].chargeId)
      && ChargePlan(s.chain, 0, {2}, s.rows[0].mandateId, s.rows[0].chargeId, s.rows[0].amount) == Err(DuplicateCharge)
  {
    var s := LateInclusion();
    var s' := SecondAttemptFails(s);
    OneCharge();
    var steps :| Plain(steps) && Steps(START, steps) == s';
    hide Steps, Charge, Create, ChargePlan, Reachable, R.FreshRun, R.Uninterrupted, GivenUpButExecuted;
    NobodyChargesDirectly(steps, MANDATE, Raw(10));
    assert IsCharge(s'.chain.charged[0], MANDATE, Raw(10));
    ChargedWithoutSuccess(steps, 0);
    assert 0 in Steps(START, steps).rows;
  }

  predicate IsChargeOf(r: PaymentReceipt, row: ChargeRequest)
  {
    r.mandateId == row.mandateId && r.chargeId == row.chargeId && r.amount == row.amount
  }

  lemma OneCharge()
    ensures var chain := Charged(CREATED, 0).0;
      && |chain.charged| == 1 && chain.charged[0].mandateId == MANDATE && chain.charged[0].chargeId == Raw(10) && chain.charged[0].amount == 10
      && ChargePlan(chain, 0, {2}, MANDATE, Raw(10), 10) == Err(DuplicateCharge)
  {
    Created();
    Passes(CREATED, 0, 0);
    hide Charged, Create, TimingPlan;
  }

  // ---- completed, and never announced ----

  /** Both workers have their transaction on the network, each having read the mandate before either charge. */
  ghost predicate BothSubmitted(s: State, a: TxId, b: TxId)
  {
    && Reachable(s) && s.webhooks == [] && s.payments == map[] && a != b
    && SubmittedWith(s, 0, a) && SubmittedWith(s, 1, b)
  }

  /** Worker n waits for request n's transaction; the mandate it read had no charge yet. */
  ghost predicate SubmittedWith(s: State, n: nat, tx: TxId)
  {
    && n in s.rows && OrderOf(s.rows[n]) == OrderNumber(n) && s.rows[n].status == Submitted
    && At(s, n).Submitting? && At(s, n).req == n && At(s, n).tx == tx && OrderOf(At(s, n).row) == OrderNumber(n)
    && At(s, n).mandate.successfulCharges == 0 && At(s, n).mandate.maxSuccessfulCharges == 2
    && tx in s.broadcast && s.broadcast[tx] == Tx(MANDATE, Raw(10 + n), 10, Raw(3))
  }

  lemma Submits(s: State, n: nat) returns (s': State)
    requires n < 2 && Reachable(s) && s.chain == CREATED && ResolvesTo(s) && Untried(s, n) && At(s, n) == Idle
    ensures Reachable(s') && OnlyMoved(s, s', n, n) && At(s', n).Submitting? && SubmittedWith(s', n, At(s', n).tx) && s.nextTx <= At(s', n).tx < s'.nextTx
    ensures s'.broadcast.Keys == s.broadcast.Keys + {At(s', n).tx}
    ensures forall tx :: tx in s.broadcast && tx < s.nextTx ==> s'.broadcast[tx] == s.broadcast[tx]
  {
    ReadyCharges(s, n);
    BothChargesPass();
    hide Charge, Create, Chargeable, Reachable, OnlyMoved;
    s' := ToBroadcast(s, n, n, PAYS);
  }

  lemma BothSubmit() returns (s: State, a: TxId, b: TxId)
    ensures BothSubmitted(s, a, b) && s.chain == CREATED && s.results == map[]
  {
    var s0 := GetReady();
    hide Next, Create, Reachable;
    var s1 := Submits(s0, 0);
    a := At(s1, 0).tx;
    s := Submits(s1, 1);
    b := At(s, 1).tx;
  }

  /** The ledger executes both: the mandate is complete. */
  ghost predicate BothExecuted(s: State, a: TxId, b: TxId)
  {
    && BothSubmitted(s, a, b) && MANDATE in s.chain.mandates && s.chain.mandates[MANDATE].status == Completed
    && a in s.results && s.results[a] == Charged(CREATED, 0).1
    && b in s.results && s.results[b] == Charged(Charged(CREATED, 0).0, 1).1
  }

  lemma BothExecute() returns (s: State, a: TxId, b: TxId)
    ensures BothExecuted(s, a, b)
  {
    var s0;
    s0, a, b := BothSubmit();
    BothChargesPass();
    hide Next, Create, Charge, Reachable;
    var s1 := Next(s0, Include(a, 0, {2}, PAYS));
    Includes(s0, a, 0);
    s := Next(s1, Include(b, 0, {2}, PAYS));
    Includes(s1, b, 1);
  }

  /** Worker n settles: the payment, the status and one notice of success. */
  lemma Settles(s: State, n: nat, tx: TxId) returns (s': State)
    requires n < 2 && Reachable(s) && SubmittedWith(s, n, tx) && tx in s.results && s.results[tx].Ok?
    requires s.results[tx].value.paymentId == PaymentHash(MANDATE, Raw(10 + n))
    requires forall r :: r in s.payments ==> r != n && s.payments[r].paymentId == PaymentHash(MANDATE, s.payments[r].chargeId) && s.payments[r].chargeId != Raw(10 + n)
    ensures Reachable(s') && s'.chain == s.chain && s'.results == s.results && s'.broadcast == s.broadcast
    ensures s'.webhooks == s.webhooks + [PaymentSucceeded(n)]
    ensures s'.rows.Keys == s.rows.Keys && s'.rows[n].status == Succeeded && forall r :: r in s.rows && r != n ==> s'.rows[r] == s.rows[r]
    ensures s'.payments.Keys == s.payments.Keys + {n} && forall r :: r in s.payments ==> s'.payments[r] == s.payments[r]
    ensures s'.payments[n].chargeId == Raw(10 + n) && s'.payments[n].paymentId == PaymentHash(MANDATE, Raw(10 + n))
    ensures forall v: WorkerId :: v != n ==> At(s', v) == At(s, v)
  {
    var k := At(s, n);
    var s1 := Next(s, By(n, SubmitReturns));
    Looks(s, n, SubmitReturns, n);
    RelayerPipeline.MoveSubmitting(s, k, true);
    hide Move, Reachable;
    s' := Next(s1, By(n, Settle(0)));
    ReachNext(s1, By(n, Settle(0)));
    SettlesOne(s1, n, k.row, k.mandate, s.results[tx].value);
  }

  lemma SettlesOne(s: State, n: nat, row: ChargeRequest, mandate: Mandate, receipt: PaymentReceipt)
    requires At(s, n).Confirmed? && At(s, n) == Confirmed(n, row, At(s, n).attempt, mandate, receipt)
    requires n in s.rows && s.rows[n].status == Submitted && mandate.successfulCharges + 1 != mandate.maxSuccessfulCharges
    requires Insertable(s.payments, n, Some(PaymentFrom(row, receipt)))
    ensures var s' := Next(s, By(n, Settle(0)));
      && s'.chain == s.chain && s'.results == s.results && s'.broadcast == s.broadcast
      && s'.webhooks == s.webhooks + [PaymentSucceeded(n)]
      && s'.rows.Keys == s.rows.Keys && s'.rows[n].status == Succeeded
      && (forall r :: r in s.rows && r != n ==> s'.rows[r] == s.rows[r])
      && s'.payments == s.payments[n := PaymentFrom(row, receipt)]
      && forall v: WorkerId :: v != n ==> At(s', v) == At(s, v)
  {
    hide Insertable;
    assert SettleHooks(n, mandate, row) == [PaymentSucceeded(n)];
  }

  /**
   * A mandate can complete without the pipeline ever announcing it: two
   * overlapping charges each read the count before the other's charge, and both
   * succeed.
   */
  lemma CompletedButNotAnnounced()
    ensures exists steps: seq<Step> :: var s := Steps(START, steps);
      && Plain(steps)
      && MANDATE in s.chain.mandates && s.chain.mandates[MANDATE].status == Completed
      && 0 in s.rows && s.rows[0].status == Succeeded && 1 in s.rows && s.rows[1].status == Succeeded
      && s.webhooks == [PaymentSucceeded(0), PaymentSucceeded(1)]
  {
    var s0, a, b := BothExecute();
    BothChargesPass();
    hide Next, Create, Charge, Reachable, Steps;
    var s1 := Settles(s0, 0, a);
    var s2 := Settles(s1, 1, b);
    Witness(s2);
  }

  lemma Witness(s: State)
    requires Reachable(s)
    ensures exists steps: seq<Step> :: Plain(steps) && Steps(START, steps) == s
  {
  }
}
