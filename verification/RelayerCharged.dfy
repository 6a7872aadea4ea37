/**
 * When the chain has charged a request: through which transaction, and what
 * that says about a request the relayer gave up on.
 */
module RelayerCharged {
  import opened Wrappers
  import opened Limits
  import opened MandateTypes
  import opened RegistrySpec
  import opened RegistryRuns
  import opened ChargeRequests
  import opened Relayer
  import opened RelayerSafety
  import opened RelayerOutcomes
  import opened RegistryTheorems

  predicate Names(t: Tx, mandateId: Hash, chargeId: Hash)
  {
    t.mandateId == mandateId && t.chargeId == chargeId
  }

  /** A transaction of the relayer for this charge has executed, and the contract accepted it. */
  ghost predicate ExecutedFor(s: State, mandateId: Hash, chargeId: Hash)
  {
    exists tx :: tx in s.broadcast && tx in s.results && s.results[tx].Ok? && Names(s.broadcast[tx], mandateId, chargeId)
  }

  /** This step is somebody's own call of the contract that charges (mandate, charge id). */
  predicate ChargesDirectly(s: State, step: Step, mandateId: Hash, chargeId: Hash)
  {
    && step.ChainCall? && step.inv.call.ChargeCall? && step.inv.call.mandateId == mandateId && step.inv.call.chargeId == chargeId
    && Charge(s.chain, step.inv.now, step.inv.auth, step.inv.token, mandateId, chargeId, step.inv.call.amount, step.inv.call.invoiceHash).1.Ok?
  }

  /** Somebody charged (mandate, charge id) past the relayer. */
  predicate DirectlyCharged(steps: seq<Step>, mandateId: Hash, chargeId: Hash)
  {
    steps != []
    && (DirectlyCharged(steps[..|steps| - 1], mandateId, chargeId)
        || ChargesDirectly(Steps(START, steps[..|steps| - 1]), steps[|steps| - 1], mandateId, chargeId))
  }

  /** This step executes a transaction of the relayer that charges (mandate, charge id). */
  predicate ExecutesFor(s: State, step: Step, mandateId: Hash, chargeId: Hash)
  {
    && step.Include? && step.tx in s.broadcast && step.tx !in s.results && Names(s.broadcast[step.tx], mandateId, chargeId)
    && Charge(s.chain, step.now, step.auth, step.token, mandateId, chargeId, s.broadcast[step.tx].amount, s.broadcast[step.tx].invoiceHash).1.Ok?
  }

  lemma ChargeUses(reg: Registry, now: U64, auth: set<Address>, token: TokenReply,
                   mandateId: Hash, chargeId: Hash, amount: I128, invoiceHash: Hash, m: Hash, c: Hash)
    ensures var (reg', result) := Charge(reg, now, auth, token, mandateId, chargeId, amount, invoiceHash);
      (m, c) in reg'.usedCharges <==> (m, c) in reg.usedCharges || (result.Ok? && (m, c) == (mandateId, chargeId))
  {
    if Charge(reg, now, auth, token, mandateId, chargeId, amount, invoiceHash).1.Ok? {
      ChargeRecords(reg, now, auth, token, mandateId, chargeId, amount, invoiceHash);
      hide Charge, AfterCharge, TimingPlan;
    } else {
      ChargeRefused(reg, now, auth, token, mandateId, chargeId, amount, invoiceHash);
      hide Charge;
    }
  }

  lemma ApplyUses(reg: Registry, inv: Invocation, m: Hash, c: Hash)
    ensures (m, c) in Apply(reg, inv).usedCharges <==>
      || (m, c) in reg.usedCharges
      || (inv.call.ChargeCall? && (inv.call.mandateId, inv.call.chargeId) == (m, c)
          && Charge(reg, inv.now, inv.auth, inv.token, m, c, inv.call.amount, inv.call.invoiceHash).1.Ok?)
  {
    hide Charge, RefundPlan, InputError;
    match inv.call
    case ChargeCall(id, charge, amount, invoice) => ChargeUses(reg, inv.now, inv.auth, inv.token, id, charge, amount, invoice, m, c);
    case _ =>
  }

  lemma ActLeavesChain(s: State, w: WorkerId, act: Act)
    ensures DoAct(s, w, act).chain == s.chain && DoAct(s, w, act).results == s.results
  {
    hide Move, StatementOf, Commits, Transition;
  }

  /** Charge ids are used up by the relayer's transactions and by direct calls, and by nothing else. */
  lemma UsedNext(s: State, step: Step, m: Hash, c: Hash)
    ensures (m, c) in Next(s, step).chain.usedCharges <==>
      (m, c) in s.chain.usedCharges || ChargesDirectly(s, step, m, c) || ExecutesFor(s, step, m, c)
  {
    hide Charge, Apply, DoAct;
    match step
    case By(w, act) => ActLeavesChain(s, w, act);
    case Include(tx, now, auth, token) =>
      if tx in s.broadcast {
        var t := s.broadcast[tx];
        ChargeUses(s.chain, now, auth, token, t.mandateId, t.chargeId, t.amount, t.invoiceHash, m, c);
      }
    case ChainCall(inv) => ApplyUses(s.chain, inv, m, c);
    case _ =>
  }

  /** A transaction once on the network is not replaced by another. */
  lemma BroadcastStays(s: State, step: Step)
    requires WorkersOk(s)
    ensures forall tx :: tx in s.broadcast ==> tx in Next(s, step).broadcast && Next(s, step).broadcast[tx] == s.broadcast[tx]
  {
    hide Charge, Apply, Move, StatementOf, Commits, Transition;
    if step.By? { assert WorkerOk(s, step.w); }
  }

  lemma ExecutedStays(s: State, step: Step, m: Hash, c: Hash)
    requires WorkersOk(s) && (ExecutedFor(s, m, c) || ExecutesFor(s, step, m, c))
    ensures ExecutedFor(Next(s, step), m, c)
  {
    var s' := Next(s, step);
    BroadcastStays(s, step);
    ResultsNext(s, step);
    hide Next, WorkersOk, Charge;
    if ExecutedFor(s, m, c) {
      var tx :| tx in s.broadcast && tx in s.results && s.results[tx].Ok? && Names(s.broadcast[tx], m, c);
      assert s'.results[tx].Ok? && Names(s'.broadcast[tx], m, c);
    } else {
      assert s'.results[step.tx].Ok? && Names(s'.broadcast[step.tx], m, c);
    }
  }

  lemma ExecutedBefore(s: State, step: Step, m: Hash, c: Hash)
    requires WorkersOk(s) && TxsOk(s) && ExecutedFor(Next(s, step), m, c)
    ensures ExecutedFor(s, m, c) || ExecutesFor(s, step, m, c)
  {
    var s' := Next(s, step);
    BroadcastStays(s, step);
    ResultsNext(s, step);
    assert forall tx :: tx in s.results ==> tx in s.broadcast;
    hide Next, WorkersOk, TxsOk, Charge;
    var tx :| tx in s'.broadcast && tx in s'.results && s'.results[tx].Ok? && Names(s'.broadcast[tx], m, c);
    if tx in s.results { assert s.results[tx].Ok? && Names(s.broadcast[tx], m, c); }
  }

  lemma ExecutedNext(s: State, step: Step, m: Hash, c: Hash)
    requires WorkersOk(s) && TxsOk(s)
    ensures ExecutedFor(Next(s, step), m, c) <==> ExecutedFor(s, m, c) || ExecutesFor(s, step, m, c)
  {
    hide *;
    if ExecutedFor(s, m, c) || ExecutesFor(s, step, m, c) { ExecutedStays(s, step, m, c); }
    if ExecutedFor(Next(s, step), m, c) { ExecutedBefore(s, step, m, c); }
  }

  /** Results are only added, by an inclusion, as the contract's answer. */
  lemma ResultsNext(s: State, step: Step)
    ensures forall tx :: tx in s.results ==> tx in Next(s, step).results && Next(s, step).results[tx] == s.results[tx]
    ensures forall tx :: tx in Next(s, step).results && tx !in s.results ==>
      && step.Include? && tx == step.tx && tx in s.broadcast
      && Next(s, step).results[tx] == Charge(s.chain, step.now, step.auth, step.token, s.broadcast[tx].mandateId,
                                             s.broadcast[tx].chargeId, s.broadcast[tx].amount, s.broadcast[tx].invoiceHash).1
    ensures step.Include? && step.tx in s.broadcast ==> step.tx in Next(s, step).results
  {
    hide Charge, Apply, DoAct;
    if step.By? { ActLeavesChain(s, step.w, step.act); }
  }

  /**
   * Over every run: a charge id is used exactly when a transaction of the
   * relayer that names it has executed, or somebody has charged it directly.
   */
  lemma {:induction false} ChargedExactly(steps: seq<Step>, m: Hash, c: Hash)
    ensures (m, c) in Steps(START, steps).chain.usedCharges <==>
      ExecutedFor(Steps(START, steps), m, c) || DirectlyCharged(steps, m, c)
  {
    if steps != [] {
      var front, last := steps[..|steps| - 1], steps[|steps| - 1];
      ChargedExactly(front, m, c);
      RunSafe(front);
      hide Next, RegistryOk, DistinctCharges, TxsOk, WorkersOk, SingleSubmitter, PaymentsOk, HooksOk, ExecutedFor, ExecutesFor, ChargesDirectly;
      UsedNext(Steps(START, front), last, m, c);
      ExecutedNext(Steps(START, front), last, m, c);
    }
  }

  // ---- submissions given up ----

  /** The transaction whose outcome a step stops waiting for: `submit()` ended without a receipt. */
  function GivesUp(s: State, step: Step): set<TxId>
  {
    if step.By? && step.act.SubmitFails? && At(s, step.w).Submitting? then {At(s, step.w).tx} else {}
  }

  function GivenUp(steps: seq<Step>): set<TxId>
  {
    if steps == [] then {}
    else GivenUp(steps[..|steps| - 1]) + GivesUp(Steps(START, steps[..|steps| - 1]), steps[|steps| - 1])
  }

  /** Whoever still holds the request waits for this transaction, or has its receipt. */
  ghost predicate OnlyWaitingFor(s: State, req: RequestId, tx: TxId)
  {
    forall w :: Holds(At(s, w)) && At(s, w).req == req ==> At(s, w).Confirmed? || (At(s, w).Submitting? && At(s, w).tx == tx)
  }

  /** A transaction not given up: its request is submitted, and nobody has turned to anything else, or it succeeded. */
  ghost predicate FateOk(s: State, lost: set<TxId>, tx: TxId, req: RequestId)
    requires tx in s.broadcast && req in s.rows
  {
    s.rows[req].chargeId == s.broadcast[tx].chargeId && tx !in lost ==>
      s.rows[req].status == Succeeded || (s.rows[req].status == Submitted && OnlyWaitingFor(s, req, tx))
  }

  ghost predicate FatesOk(s: State, lost: set<TxId>)
  {
    && (forall tx :: tx in s.broadcast ==> exists r :: r in s.rows && s.rows[r].chargeId == s.broadcast[tx].chargeId)
    && (forall tx, r | tx in s.broadcast && r in s.rows :: FateOk(s, lost, tx, r))
  }

  /** What a holder that is waiting or confirmed can do, other than give up: wait on, stop, or settle. */
  lemma HolderAct(s: State, w: WorkerId, act: Act)
    requires At(s, w).Confirmed? || (At(s, w).Submitting? && !act.SubmitFails?)
    requires At(s, w).req in s.rows && s.rows[At(s, w).req].status == Submitted
    ensures var s', k, k' := DoAct(s, w, act), At(s, w), At(DoAct(s, w, act), w);
      && k.req in s'.rows
      && (s'.rows[k.req].status == Succeeded
          || (s'.rows[k.req].status == Submitted && (k' == k || k'.Idle? || (k'.Confirmed? && k'.req == k.req))))
  {
    hide Charge, GetMandate, Insertable, ResolveChargeContext, Verified;
  }

  /** An act on the side of a transaction already on the network. */
  lemma FateAfterAct(s: State, w: WorkerId, act: Act, lost: set<TxId>, tx: TxId, req: RequestId)
    requires SingleSubmitter(s) && WorkerOk(s, w) && tx in s.broadcast && req in s.rows && FateOk(s, lost, tx, req)
    requires tx in DoAct(s, w, act).broadcast && DoAct(s, w, act).broadcast[tx] == s.broadcast[tx]
    requires req in DoAct(s, w, act).rows && OrderOf(DoAct(s, w, act).rows[req]) == OrderOf(s.rows[req])
    ensures FateOk(DoAct(s, w, act), lost + GivesUp(s, By(w, act)), tx, req)
  {
    var s', k := DoAct(s, w, act), At(s, w);
    ActTables(s, w, act);
    ActOnStatus(s, w, act, req);
    if s.rows[req].chargeId == s.broadcast[tx].chargeId && tx !in lost + GivesUp(s, By(w, act)) && s.rows[req].status == Submitted {
      if Holds(k) && k.req == req {
        HolderAct(s, w, act);
      } else {
        OnlyHolderMoves(s, w, act, req);
      }
    }
    hide DoAct, WorkerOk;
  }

  /** A transaction that comes onto the network: its worker alone holds its request, and waits for it. */
  lemma FateOfNew(s: State, w: WorkerId, lost: set<TxId>, req: RequestId)
    requires SingleSubmitter(s) && DistinctCharges(s.rows) && WorkerOk(s, w) && At(s, w).Submitting? && req in s.rows
    ensures FateOk(DoAct(s, w, Broadcast), lost, At(s, w).tx, req)
  {
    var s', k := DoAct(s, w, Broadcast), At(s, w);
    assert Knows(s, k.req, k.row);
    assert s' == s.(broadcast := s'.broadcast) && s'.broadcast[k.tx].chargeId == k.row.chargeId;
    hide DoAct, WorkerOk;
    assert forall v: WorkerId :: At(s', v) == At(s, v);
  }

  lemma FatesAfterAct(s: State, w: WorkerId, act: Act, lost: set<TxId>)
    requires CoreOk(s) && SingleSubmitter(s) && FatesOk(s, lost)
    ensures FatesOk(DoAct(s, w, act), lost + GivesUp(s, By(w, act)))
  {
    var s' := DoAct(s, w, act);
    assert WorkerOk(s, w) && DistinctCharges(s.rows) && WorkersOk(s);
    ActKeepsOrders(s, w, act);
    ActTables(s, w, act);
    BroadcastStays(s, By(w, act));
    ActIsNext(s, w, act);
    NewBroadcast(s, w, act);
    hide DoAct, Next, CoreOk, WorkerOk, WorkersOk, DistinctCharges, SingleSubmitter, FateOk;
    forall tx | tx in s'.broadcast ensures exists r :: r in s'.rows && s'.rows[r].chargeId == s'.broadcast[tx].chargeId {
      if tx in s.broadcast {
        var r :| r in s.rows && s.rows[r].chargeId == s.broadcast[tx].chargeId;
        assert OrderOf(s'.rows[r]) == OrderOf(s.rows[r]);
      }
    }
    forall tx, r | tx in s'.broadcast && r in s'.rows ensures FateOk(s', lost + GivesUp(s, By(w, act)), tx, r) {
      if tx in s.broadcast {
        FateAfterAct(s, w, act, lost, tx, r);
      } else {
        FateOfNew(s, w, lost + GivesUp(s, By(w, act)), r);
      }
    }
  }

  /** What is new on the network is the transaction of a worker's own request. */
  lemma NewBroadcast(s: State, w: WorkerId, act: Act)
    requires WorkerOk(s, w)
    ensures forall tx :: tx in DoAct(s, w, act).broadcast && tx !in s.broadcast ==>
      && act == Broadcast && At(s, w).Submitting? && tx == At(s, w).tx
      && exists r :: r in DoAct(s, w, act).rows && DoAct(s, w, act).rows[r].chargeId == DoAct(s, w, act).broadcast[tx].chargeId
  {
    hide Move, StatementOf, Commits, Transition;
    if At(s, w).Submitting? { assert Knows(s, At(s, w).req, At(s, w).row); }
  }

  lemma FatesAfterOther(s: State, step: Step, lost: set<TxId>)
    requires !step.By? && FatesOk(s, lost)
    ensures FatesOk(Next(s, step), lost)
  {
    var s' := Next(s, step);
    OtherKeepsFates(s, step);
    hide Next;
    forall tx | tx in s'.broadcast ensures exists r :: r in s'.rows && s'.rows[r].chargeId == s'.broadcast[tx].chargeId {
      var r :| r in s.rows && s.rows[r].chargeId == s.broadcast[tx].chargeId;
      assert r in s'.rows;
    }
    forall tx, r | tx in s'.broadcast && r in s'.rows ensures FateOk(s', lost, tx, r) {
      var r' :| r' in s.rows && s.rows[r'].chargeId == s.broadcast[tx].chargeId;
      if r in s.rows { assert FateOk(s, lost, tx, r); }
    }
  }

  /** Steps of nobody: no transaction sent, no worker moved, no submitted or ended row changed, new requests under new charge ids. */
  lemma OtherKeepsFates(s: State, step: Step)
    requires !step.By?
    ensures var s' := Next(s, step);
      && s'.broadcast == s.broadcast && (forall w: WorkerId :: At(s', w) == At(s, w))
      && (forall r :: r in s.rows ==> r in s'.rows && s'.rows[r].chargeId == s.rows[r].chargeId)
      && (forall r :: r in s.rows && (s.rows[r].status == Submitted || s.rows[r].status == Succeeded) ==> s'.rows[r].status == s.rows[r].status)
      && (forall r, q :: r in s'.rows && r !in s.rows && q in s.rows ==> s'.rows[r].chargeId != s.rows[q].chargeId)
  {
    hide Charge, Apply;
  }

  lemma {:induction false} FatesRun(steps: seq<Step>)
    ensures FatesOk(Steps(START, steps), GivenUp(steps))
  {
    if steps != [] {
      var front, last := steps[..|steps| - 1], steps[|steps| - 1];
      FatesRun(front);
      RunSafe(front);
      var s := Steps(START, front);
      hide Next, DoAct, CoreOk, SingleSubmitter, PaymentsOk, HooksOk, FatesOk;
      if last.By? {
        ActIsNext(s, last.w, last.act);
        FatesAfterAct(s, last.w, last.act, GivenUp(front));
        assert By(last.w, last.act) == last;
      } else {
        FatesAfterOther(s, last, GivenUp(front));
        assert GivenUp(steps) == GivenUp(front);
      }
      assert FatesOk(Steps(START, steps), GivenUp(steps));
    }
  }

  // ---- when giving up means not charged ----

  /** A submission of this charge was given up, and the ledger executed its transaction all the same. */
  ghost predicate GivenUpButExecuted(steps: seq<Step>, mandateId: Hash, chargeId: Hash)
  {
    var s := Steps(START, steps);
    exists tx :: tx in GivenUp(steps) && tx in s.broadcast && tx in s.results && s.results[tx].Ok? && Names(s.broadcast[tx], mandateId, chargeId)
  }

  /**
   * A request that is neither submitted nor succeeded, permanently failed ones
   * among them, has been charged if and only if a submission of it was given up
   * and its transaction executed all the same, or somebody charged its id past
   * the relayer. Crashes, recoveries and stale reads make no difference.
   */
  lemma ChargedWithoutSuccess(steps: seq<Step>, req: RequestId)
    requires req in Steps(START, steps).rows
    requires Steps(START, steps).rows[req].status != Submitted && Steps(START, steps).rows[req].status != Succeeded
    ensures var s := Steps(START, steps); var row := s.rows[req];
      (exists i :: 0 <= i < |s.chain.charged| && IsCharge(s.chain.charged[i], row.mandateId, row.chargeId)) <==>
        GivenUpButExecuted(steps, row.mandateId, row.chargeId) || DirectlyCharged(steps, row.mandateId, row.chargeId)
  {
    var s := Steps(START, steps);
    var row := s.rows[req];
    RunSafe(steps);
    FatesRun(steps);
    ChargedExactly(steps, row.mandateId, row.chargeId);
    UsedIsCharged(s, row.mandateId, row.chargeId);
    hide Steps, Safe, GivenUp, DirectlyCharged;
    if ExecutedFor(s, row.mandateId, row.chargeId) {
      var tx :| tx in s.broadcast && tx in s.results && s.results[tx].Ok? && Names(s.broadcast[tx], row.mandateId, row.chargeId);
      assert FateOk(s, GivenUp(steps), tx, req);
      assert tx in GivenUp(steps);
    }
  }

  lemma UsedIsCharged(s: State, m: Hash, c: Hash)
    requires Safe(s)
    ensures (m, c) in s.chain.usedCharges <==> exists i :: 0 <= i < |s.chain.charged| && IsCharge(s.chain.charged[i], m, c)
  {
    assert RegistryOk(s.chain);
    hide Safe, MandatesOk, RefundsOk;
    UsedMeansSeen(s.chain, m, c);
  }
}
