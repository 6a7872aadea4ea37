/**
 * What every interleaving of the relayer keeps: one submitter per request, a
 * payment row exactly for each success and equal to what the chain did, and a
 * completion notice only for the charge that completed the mandate.
 */
module RelayerSafety {
  import opened Wrappers
  import opened Limits
  import opened MandateTypes
  import opened RegistrySpec
  import opened RegistryInvariant
  import opened RegistryRuns
  import opened RegistryTheorems
  import opened ChargeHistory
  import opened ChargeRequests
  import opened Relayer

  // ---- chain and rows move one way ----

  lemma ChainNext(s: State, step: Step)
    requires RegistryOk(s.chain)
    ensures RegistryOk(Next(s, step).chain) && Evolves(s.chain, Next(s, step).chain)
  {
    hide RegistryOk, Evolves, Apply, Charge, Move, StatementOf;
    match step
    case ChainCall(inv) =>
      ApplyKeeps(s.chain, inv);
      ApplyEvolves(s.chain, inv);
    case Include(tx, now, auth, token) =>
      if tx in s.broadcast && tx !in s.results {
        var t := s.broadcast[tx];
        ChargeKeepsRegistry(s.chain, now, auth, token, t.mandateId, t.chargeId, t.amount, t.invoiceHash);
        ChargeEvolves(s.chain, now, auth, token, t.mandateId, t.chargeId, t.amount, t.invoiceHash);
      } else {
        EvolvesItself(s.chain);
      }
    case _ => EvolvesItself(s.chain);
  }

  lemma MandateStays(chain: Registry, chain': Registry, id: Hash)
    requires Evolves(chain, chain') && id in chain.mandates
    ensures id in chain'.mandates && MandateEvolves(chain.mandates[id], chain'.mandates[id])
  {
  }

  /** Requests are never dropped and keep their order. */
  ghost predicate RowsEvolve(rows: Rows, rows': Rows)
  {
    forall r :: r in rows ==> r in rows' && OrderOf(rows'[r]) == OrderOf(rows[r])
  }

  ghost predicate DistinctCharges(rows: Rows)
  {
    forall a, b :: a in rows && b in rows && rows[a].chargeId == rows[b].chargeId ==> a == b
  }

  /** Same requests, same orders; only the mutable columns may differ. */
  ghost predicate SameOrders(rows: Rows, rows': Rows)
  {
    rows'.Keys == rows.Keys && forall r :: r in rows ==> OrderOf(rows'[r]) == OrderOf(rows[r])
  }

  /** A worker's write keeps every order. */
  lemma ActKeepsOrders(s: State, w: WorkerId, act: Act)
    ensures SameOrders(s.rows, DoAct(s, w, act).rows)
  {
    hide Move, StatementOf, Insertable;
  }

  /** Every step but a new request only writes mutable columns. */
  lemma StepKeepsOrders(s: State, step: Step)
    requires !step.Schedule?
    ensures SameOrders(s.rows, Next(s, step).rows)
  {
    hide Charge, Apply, DoAct;
    if step.By? { hide SameOrders; ActKeepsOrders(s, step.w, step.act); }
  }

  lemma RowsNext(s: State, step: Step)
    requires DistinctCharges(s.rows)
    ensures RowsEvolve(s.rows, Next(s, step).rows) && DistinctCharges(Next(s, step).rows)
  {
    if !step.Schedule? {
      StepKeepsOrders(s, step);
      hide Next;
      forall a, b | a in Next(s, step).rows && b in Next(s, step).rows && Next(s, step).rows[a].chargeId == Next(s, step).rows[b].chargeId
        ensures a == b
      {
        assert OrderOf(Next(s, step).rows[a]) == OrderOf(s.rows[a]) && OrderOf(Next(s, step).rows[b]) == OrderOf(s.rows[b]);
      }
    }
  }

  // ---- what a worker may rely on ----

  ghost predicate Knows(s: State, req: RequestId, row: ChargeRequest)
  {
    req in s.rows && OrderOf(s.rows[req]) == OrderOf(row)
  }

  /** The mandate was read from this chain, no later than now. */
  ghost predicate ReadFrom(chain: Registry, row: ChargeRequest, mandate: Mandate)
  {
    && row.mandateId in chain.mandates
    && mandate.maxSuccessfulCharges == chain.mandates[row.mandateId].maxSuccessfulCharges
    && mandate.successfulCharges <= chain.mandates[row.mandateId].successfulCharges
  }

  /** The chain executed this request's charge, and stores this receipt of it. */
  ghost predicate Paid(chain: Registry, row: ChargeRequest, receipt: PaymentReceipt)
  {
    && receipt.mandateId == row.mandateId && receipt.chargeId == row.chargeId
    && receipt.amount == row.amount && receipt.invoiceHash == row.invoiceHash
    && receipt.paymentId == PaymentHash(row.mandateId, row.chargeId)
    && receipt.paymentId in chain.payments && chain.payments[receipt.paymentId] == receipt
    && row.mandateId in chain.mandates && receipt.asset == chain.mandates[row.mandateId].asset
    && receipt.merchant == chain.mandates[row.mandateId].merchant
  }

  /** The receipt is charge number `count` of its mandate. */
  ghost predicate IsChargeNumber(chain: Registry, receipt: PaymentReceipt, count: int)
  {
    exists i :: 0 <= i < |chain.charged| && chain.charged[i] == receipt && Charges(chain.charged[..i + 1], receipt.mandateId) == count
  }

  /** It came after the mandate was read: its number is beyond the count then read. */
  ghost predicate PaidAfter(chain: Registry, row: ChargeRequest, mandate: Mandate, receipt: PaymentReceipt)
  {
    && Paid(chain, row, receipt)
    && mandate.maxSuccessfulCharges == chain.mandates[row.mandateId].maxSuccessfulCharges
    && exists count :: IsChargeNumber(chain, receipt, count) && mandate.successfulCharges < count
  }

  /** The database names the wallet and the asset that the mandate on chain has. */
  ghost predicate Expected(s: State, row: ChargeRequest)
  {
    && row.mandateId in s.chain.mandates
    && ResolveChargeContext(s.directory, row)
       == Some(ChargeContext(s.chain.mandates[row.mandateId].merchant, s.chain.mandates[row.mandateId].asset))
  }

  /** The simulated receipt is of exactly this request, to the wallet and in the asset the database names. */
  ghost predicate Cleared(s: State, row: ChargeRequest, simulated: PaymentReceipt, context: ChargeContext)
  {
    Verified(simulated, row, context) && ResolveChargeContext(s.directory, row) == Some(context) && Expected(s, row)
  }

  ghost predicate DirectoryGrows(d: Directory, d': Directory)
  {
    && (forall m :: m in d.wallets ==> m in d'.wallets && d'.wallets[m] == d.wallets[m])
    && (forall k :: k in d.assets ==> k in d'.assets && d'.assets[k] == d.assets[k])
  }

  lemma ActLeavesDirectory(s: State, w: WorkerId, act: Act)
    ensures DoAct(s, w, act).directory == s.directory
  {
    hide Move, StatementOf, Commits, Transition;
  }

  lemma DirectoryNext(s: State, step: Step)
    ensures DirectoryGrows(s.directory, Next(s, step).directory)
  {
    hide Charge, Apply, DoAct;
    if step.By? { ActLeavesDirectory(s, step.w, step.act); }
  }

  lemma ExpectedRow(s: State, row: ChargeRequest, row': ChargeRequest)
    requires Expected(s, row) && OrderOf(row') == OrderOf(row)
    ensures Expected(s, row')
  {
  }

  lemma ExpectedStays(s: State, s': State, row: ChargeRequest)
    requires Expected(s, row) && Evolves(s.chain, s'.chain) && DirectoryGrows(s.directory, s'.directory)
    ensures Expected(s', row)
  {
    MandateStays(s.chain, s'.chain, row.mandateId);
  }

  ghost predicate WorkerOk(s: State, w: WorkerId)
  {
    match At(s, w)
    case Idle => true
    case Loaded(req, row) => Knows(s, req, row)
    case Claimed(req, row, _) => Knows(s, req, row)
    case MandateRead(req, row, _, mandate) => Knows(s, req, row) && ReadFrom(s.chain, row, mandate)
    case Prepared(req, row, _, mandate, simulated, context) =>
      Knows(s, req, row) && ReadFrom(s.chain, row, mandate) && Cleared(s, row, simulated, context)
    case MarkedSimulated(req, row, _, mandate) => Knows(s, req, row) && ReadFrom(s.chain, row, mandate) && Expected(s, row)
    case Submitting(req, row, _, mandate, tx) =>
      && Knows(s, req, row) && ReadFrom(s.chain, row, mandate) && Expected(s, row)
      && tx < s.nextTx
      && (tx in s.broadcast ==> s.broadcast[tx] == Tx(row.mandateId, row.chargeId, row.amount, row.invoiceHash))
      && (tx in s.results && s.results[tx].Ok? ==> PaidAfter(s.chain, row, mandate, s.results[tx].value))
    case Confirmed(req, row, _, mandate, receipt) => Knows(s, req, row) && PaidAfter(s.chain, row, mandate, receipt) && Expected(s, row)
    case Failing(req, row, _, from, _) => Knows(s, req, row) && (from == Processing || from == Submitted)
  }

  ghost predicate WorkersOk(s: State)
  {
    forall w :: WorkerOk(s, w)
  }

  ghost predicate TxsOk(s: State)
  {
    && (forall tx :: tx in s.broadcast ==> tx < s.nextTx)
    && (forall tx :: tx in s.results ==> tx in s.broadcast)
    && (forall v, w :: At(s, v).Submitting? && At(s, w).Submitting? && At(s, v).tx == At(s, w).tx ==> v == w)
  }

  lemma IsChargeNumberStays(chain: Registry, chain': Registry, receipt: PaymentReceipt, count: int)
    requires IsChargeNumber(chain, receipt, count) && chain.charged <= chain'.charged
    ensures IsChargeNumber(chain', receipt, count)
  {
    var i :| 0 <= i < |chain.charged| && chain.charged[i] == receipt && Charges(chain.charged[..i + 1], receipt.mandateId) == count;
    assert chain'.charged[..i + 1] == chain.charged[..i + 1];
    assert chain'.charged[i] == receipt;
  }

  lemma PaidAfterStays(chain: Registry, chain': Registry, row: ChargeRequest, mandate: Mandate, receipt: PaymentReceipt)
    requires PaidAfter(chain, row, mandate, receipt) && Evolves(chain, chain')
    ensures PaidAfter(chain', row, mandate, receipt)
  {
    var count :| IsChargeNumber(chain, receipt, count) && mandate.successfulCharges < count;
    IsChargeNumberStays(chain, chain', receipt, count);
    assert MandateEvolves(chain.mandates[row.mandateId], chain'.mandates[row.mandateId]);
  }

  lemma ReadStays(chain: Registry, chain': Registry, row: ChargeRequest, mandate: Mandate)
    requires ReadFrom(chain, row, mandate) && Evolves(chain, chain')
    ensures ReadFrom(chain', row, mandate)
  {
    MandateStays(chain, chain', row.mandateId);
  }

  /** A worker that did not move still knows what it knew. */
  lemma BystanderOk(s: State, s': State, w: WorkerId)
    requires WorkerOk(s, w) && At(s', w) == At(s, w)
    requires RowsEvolve(s.rows, s'.rows) && Evolves(s.chain, s'.chain) && s.nextTx <= s'.nextTx
    requires DirectoryGrows(s.directory, s'.directory)
    requires At(s, w).Submitting? ==>
      && (At(s, w).tx in s'.broadcast ==> At(s, w).tx in s.broadcast && s'.broadcast[At(s, w).tx] == s.broadcast[At(s, w).tx])
      && (At(s, w).tx in s'.results ==> At(s, w).tx in s.results && s'.results[At(s, w).tx] == s.results[At(s, w).tx])
    ensures WorkerOk(s', w)
  {
    hide Expected, ReadFrom, Evolves, DirectoryGrows, PaidAfter;
    match At(s, w)
    case Submitting(req, row, _, mandate, tx) =>
      ReadStays(s.chain, s'.chain, row, mandate);
      ExpectedStays(s, s', row);
      if tx in s.results && s.results[tx].Ok? { PaidAfterStays(s.chain, s'.chain, row, mandate, s.results[tx].value); }
    case Confirmed(_, row, _, mandate, receipt) =>
      PaidAfterStays(s.chain, s'.chain, row, mandate, receipt);
      ExpectedStays(s, s', row);
    case MandateRead(_, row, _, mandate) => ReadStays(s.chain, s'.chain, row, mandate);
    case Prepared(_, row, _, mandate, _, _) =>
      ReadStays(s.chain, s'.chain, row, mandate);
      ExpectedStays(s, s', row);
      ContextStays(s.directory, s'.directory, row);
    case MarkedSimulated(_, row, _, mandate) =>
      ReadStays(s.chain, s'.chain, row, mandate);
      ExpectedStays(s, s', row);
    case _ =>
  }

  lemma ContextStays(d: Directory, d': Directory, row: ChargeRequest)
    requires DirectoryGrows(d, d') && ResolveChargeContext(d, row).Some?
    ensures ResolveChargeContext(d', row) == ResolveChargeContext(d, row)
  {
  }

  /** A simulated receipt names the mandate's own merchant and asset. */
  lemma SimulatedParties(chain: Registry, now: U64, auth: set<Address>, token: TokenReply, row: ChargeRequest)
    requires Charge(chain, now, auth, token, row.mandateId, row.chargeId, row.amount, row.invoiceHash).1.Ok?
    ensures var receipt := Charge(chain, now, auth, token, row.mandateId, row.chargeId, row.amount, row.invoiceHash).1.value;
      row.mandateId in chain.mandates
      && receipt.merchant == chain.mandates[row.mandateId].merchant && receipt.asset == chain.mandates[row.mandateId].asset
  {
    hide TimingPlan;
  }

  /** A recorded charge has the number after those before it. */
  lemma NumberedNext(chain: Registry, chain': Registry, r: PaymentReceipt)
    requires chain'.charged == chain.charged + [r]
    ensures IsChargeNumber(chain', r, Charges(chain.charged, r.mandateId) + 1)
  {
    var n := |chain.charged|;
    assert chain'.charged[..n + 1] == chain.charged + [r];
    Extend(chain.charged, r, r.mandateId, 0, 0);
    assert chain'.charged[n] == r;
  }

  /** The receipt of a recorded charge is paid, whatever its mandate's counters became. */
  lemma RecordedIsPaid(chain: Registry, m: Mandate, r: PaymentReceipt, row: ChargeRequest, mandate: Mandate)
    requires ReadFrom(chain, row, mandate) && m.id == row.mandateId && TermsOf(m) == TermsOf(chain.mandates[row.mandateId])
    requires chain.mandates[row.mandateId].successfulCharges == Charges(chain.charged, row.mandateId)
    requires r.mandateId == row.mandateId && r.chargeId == row.chargeId && r.amount == row.amount && r.invoiceHash == row.invoiceHash
    requires r.paymentId == PaymentHash(row.mandateId, row.chargeId) && r.merchant == m.merchant && r.asset == m.asset
    ensures PaidAfter(RecordCharge(chain, m, r), row, mandate, r)
  {
    NumberedNext(chain, RecordCharge(chain, m, r), r);
    hide IsChargeNumber, Charges;
  }

  /** A charge the chain accepts for a transaction is paid, and numbered after every count read before. */
  lemma ExecutedIsPaid(chain: Registry, now: U64, auth: set<Address>, token: TokenReply, row: ChargeRequest, mandate: Mandate)
    requires RegistryOk(chain) && ReadFrom(chain, row, mandate)
    requires Charge(chain, now, auth, token, row.mandateId, row.chargeId, row.amount, row.invoiceHash).1.Ok?
    ensures var (chain', result) := Charge(chain, now, auth, token, row.mandateId, row.chargeId, row.amount, row.invoiceHash);
      PaidAfter(chain', row, mandate, result.value)
  {
    var m := chain.mandates[row.mandateId];
    MandateCounted(chain, row.mandateId);
    hide RegistryOk, Charge, AfterCharge, TimingPlan, ReadFrom, PaidAfter;
    var (chain', result) := Charge(chain, now, auth, token, row.mandateId, row.chargeId, row.amount, row.invoiceHash);
    ChargeRecords(chain, now, auth, token, row.mandateId, row.chargeId, row.amount, row.invoiceHash);
    var plan := TimingPlan(m, now, row.amount).value;
    AfterChargeEvolves(m, now, row.amount, plan);
    RecordedIsPaid(chain, AfterCharge(m, now, row.amount, plan).value, result.value, row, mandate);
    assert PaidAfter(chain', row, mandate, result.value);
  }

  lemma MandateCounted(chain: Registry, id: Hash)
    requires RegistryOk(chain) && id in chain.mandates
    ensures chain.mandates[id].id == id && chain.mandates[id].successfulCharges == Charges(chain.charged, id)
  {
    assert MandateOk(chain.mandates[id], chain.charged);
  }

  /** The transaction a step executed belongs to at most one waiting worker, whose claim on it is now true. */
  lemma IncludeKeepsSubmitter(s: State, step: Step, w: WorkerId)
    requires RegistryOk(s.chain) && DistinctCharges(s.rows) && WorkerOk(s, w)
    requires step.Include? && At(s, w).Submitting? && At(s, w).tx == step.tx
    ensures WorkerOk(Next(s, step), w)
  {
    hide RegistryOk, Evolves, Charge, DistinctCharges;
    var k := At(s, w);
    ChainNext(s, step);
    MandateStays(s.chain, Next(s, step).chain, k.row.mandateId);
    if step.tx in s.broadcast && step.tx !in s.results {
      var result := Charge(s.chain, step.now, step.auth, step.token, k.row.mandateId, k.row.chargeId, k.row.amount, k.row.invoiceHash).1;
      if result.Ok? { ExecutedIsPaid(s.chain, step.now, step.auth, step.token, k.row, k.mandate); }
    }
  }

  lemma SimulateOk(s: State, w: WorkerId, act: Act)
    requires WorkerOk(s, w) && act.Simulate?
    ensures WorkerOk(DoAct(s, w, act), w)
  {
    var k := At(s, w);
    if k.MandateRead? && Charge(s.chain, act.now, act.auth, act.token, k.row.mandateId, k.row.chargeId, k.row.amount, k.row.invoiceHash).1.Ok? {
      SimulatedParties(s.chain, act.now, act.auth, act.token, k.row);
    }
    hide PaidAfter, Charge;
  }

  /** A worker's own write leaves its request's order as it read it. */
  lemma OwnOrderKept(s: State, w: WorkerId, act: Act)
    requires WorkerOk(s, w) && !At(s, w).Idle?
    ensures Knows(DoAct(s, w, act), At(s, w).req, At(s, w).row)
  {
    assert Knows(s, At(s, w).req, At(s, w).row);
    ActKeepsOrders(s, w, act);
    hide DoAct, WorkerOk;
  }

  lemma WriterOk(s: State, w: WorkerId, act: Act)
    requires WorkerOk(s, w) && TxsOk(s) && IsWrite(act)
    ensures WorkerOk(DoAct(s, w, act), w)
  {
    if !At(s, w).Idle? { OwnOrderKept(s, w, act); }
    hide PaidAfter, ReadFrom, Charge, ResolveChargeContext, Verified, Move, Insertable, Knows, Transition;
  }

  lemma LookerOk(s: State, w: WorkerId, act: Act)
    requires WorkerOk(s, w) && TxsOk(s) && !IsWrite(act) && !act.Simulate?
    ensures WorkerOk(DoAct(s, w, act), w)
  {
    hide PaidAfter, Charge, ResolveChargeContext, Verified, StatementOf, Commits, Transition;
  }

  /** After its own act, a worker knows what its next statement relies on. */
  lemma ActorOk(s: State, w: WorkerId, act: Act)
    requires WorkerOk(s, w) && TxsOk(s)
    ensures WorkerOk(DoAct(s, w, act), w)
  {
    hide DoAct, TxsOk;
    if act.Simulate? { SimulateOk(s, w, act); } else if IsWrite(act) { WriterOk(s, w, act); } else { LookerOk(s, w, act); }
  }

  /** What an act of someone else, or a step of nobody, leaves of the state that worker w looks at. */
  predicate Undisturbed(s: State, s': State, w: WorkerId)
  {
    && At(s', w) == At(s, w) && s.nextTx <= s'.nextTx
    && (At(s, w).Submitting? ==>
          var tx := At(s, w).tx;
          && (tx in s'.broadcast ==> tx in s.broadcast && s'.broadcast[tx] == s.broadcast[tx])
          && (tx in s'.results ==> tx in s.results && s'.results[tx] == s.results[tx]))
  }

  lemma ActUndisturbed(s: State, v: WorkerId, act: Act, w: WorkerId)
    requires TxsOk(s) && v != w
    ensures Undisturbed(s, DoAct(s, v, act), w)
  {
    hide Move, StatementOf, Commits, Transition;
  }

  lemma BystandersOk(s: State, step: Step, w: WorkerId)
    requires RegistryOk(s.chain) && DistinctCharges(s.rows) && WorkerOk(s, w) && TxsOk(s)
    requires !(step.By? && step.w == w)
    ensures WorkerOk(Next(s, step), w)
  {
    hide RegistryOk, Evolves, DistinctCharges, RowsEvolve, DirectoryGrows, WorkerOk, Charge, Apply, DoAct, TxsOk;
    if step.Include? && At(s, w).Submitting? && At(s, w).tx == step.tx {
      IncludeKeepsSubmitter(s, step, w);
    } else {
      ChainNext(s, step);
      RowsNext(s, step);
      if step.By? { ActUndisturbed(s, step.w, step.act, w); }
      DirectoryNext(s, step);
      BystanderOk(s, Next(s, step), w);
    }
  }

  /** An act that leaves its worker submitting leaves it with its transaction, or gives it the next number. */
  lemma ActTx(s: State, w: WorkerId, act: Act)
    ensures At(DoAct(s, w, act), w).Submitting? ==> At(DoAct(s, w, act), w) == At(s, w) || (At(DoAct(s, w, act), w).tx == s.nextTx < DoAct(s, w, act).nextTx)
  {
    hide Charge, GetMandate, Commits, Transition;
  }

  /** The transaction tables after an act: at most the worker's own broadcast is new. */
  lemma ActTables(s: State, w: WorkerId, act: Act)
    ensures var s' := DoAct(s, w, act);
      && s'.results == s.results && s.nextTx <= s'.nextTx
      && (s'.broadcast == s.broadcast || (At(s, w).Submitting? && s'.broadcast.Keys == s.broadcast.Keys + {At(s, w).tx}))
      && forall v: WorkerId :: v != w ==> At(s', v) == At(s, v)
  {
    hide Move, StatementOf, Commits, Transition;
  }

  lemma TxsAfterAct(s: State, w: WorkerId, act: Act)
    requires TxsOk(s) && WorkersOk(s)
    ensures TxsOk(DoAct(s, w, act))
  {
    hide DoAct, WorkersOk;
    WorkersAt(s);
    ActTx(s, w, act);
    ActTables(s, w, act);
  }

  lemma TxsNext(s: State, step: Step)
    requires TxsOk(s) && WorkersOk(s)
    ensures TxsOk(Next(s, step))
  {
    hide Charge, Apply, WorkersOk, DoAct;
    match step
    case By(w, act) =>
      TxsAfterAct(s, w, act);
      assert TxsOk(Next(s, step));
    case _ =>
      assert forall w: WorkerId :: At(Next(s, step), w) == At(s, w);
  }

  /** Submitting workers hold transaction numbers already given out. */
  lemma WorkersAt(s: State)
    requires WorkersOk(s)
    ensures forall w :: At(s, w).Submitting? ==> At(s, w).tx < s.nextTx
  {
    forall w: WorkerId | At(s, w).Submitting? ensures At(s, w).tx < s.nextTx { assert WorkerOk(s, w); }
  }

  ghost predicate CoreOk(s: State)
  {
    RegistryOk(s.chain) && DistinctCharges(s.rows) && WorkersOk(s) && TxsOk(s)
  }

  lemma CoreNext(s: State, step: Step)
    requires CoreOk(s)
    ensures CoreOk(Next(s, step))
  {
    hide RegistryOk, DistinctCharges, TxsOk, WorkerOk, Next, Evolves, RowsEvolve;
    ChainNext(s, step);
    RowsNext(s, step);
    TxsNext(s, step);
    forall w: WorkerId ensures WorkerOk(Next(s, step), w) {
      if step.By? && step.w == w { ActIsNext(s, w, step.act); ActorOk(s, w, step.act); } else { BystandersOk(s, step, w); }
    }
  }

  lemma ActIsNext(s: State, w: WorkerId, act: Act)
    ensures Next(s, By(w, act)) == DoAct(s, w, act)
  {
  }

  // ---- single submitter ----

  /** In `submit()`, or between its return and the write of its outcome. */
  predicate Holds(k: Worker)
  {
    k.Submitting? || k.Confirmed? || (k.Failing? && k.from == Submitted)
  }

  /** Whoever is past submission holds its row in Submitted, alone. */
  ghost predicate SingleSubmitter(s: State)
  {
    && (forall w :: Holds(At(s, w)) ==> At(s, w).req in s.rows && s.rows[At(s, w).req].status == Submitted)
    && (forall v, w :: Holds(At(s, v)) && Holds(At(s, w)) && At(s, v).req == At(s, w).req ==> v == w)
  }

  /** A statement is on its worker's own row, from Submitted only if its worker holds it, and to submission only from Simulated. */
  lemma StatementHolder(k: Worker, nextTx: TxId, act: Act)
    requires StatementOf(k, nextTx, act).Some?
    ensures var st := StatementOf(k, nextTx, act).value;
      && !k.Idle? && st.req == k.req && (Holds(k) <==> st.from == Submitted)
      && (Holds(st.goesTo) ==> st.goesTo.req == st.req && st.from == Simulated && st.update.status == Submitted)
  {
  }

  lemma MoveHolder(s: State, act: Act, k: Worker)
    ensures Holds(Move(s, act, k)) ==> Holds(k) && Move(s, act, k).req == k.req
  {
    hide Charge, GetMandate, ResolveChargeContext, Verified;
  }

  /** What a transaction does to rows: its own from the expected status, or nothing. */
  lemma ExecuteOnRows(s: State, w: WorkerId, st: Statement)
    ensures var s' := Execute(s, w, st);
      if Commits(s, st) then
        && st.req in s.rows && s.rows[st.req].status == st.from && At(s', w) == st.goesTo
        && s'.rows.Keys == s.rows.Keys && s'.rows[st.req].status == st.update.status
        && forall r :: r in s.rows && r != st.req ==> s'.rows[r] == s.rows[r]
      else s'.rows == s.rows && At(s', w) == Idle
  {
    hide Insertable;
  }

  /** An act: its worker's own statement, or no row moved and no new hold. */
  lemma ActOnHolds(s: State, w: WorkerId, act: Act)
    ensures var s', k, k' := DoAct(s, w, act), At(s, w), At(DoAct(s, w, act), w);
      || (s'.rows == s.rows && (Holds(k') ==> Holds(k) && k'.req == k.req))
      || (!k.Idle? && k.req in s.rows && s'.rows.Keys == s.rows.Keys && (Holds(k) <==> s.rows[k.req].status == Submitted)
          && (forall r :: r in s.rows && r != k.req ==> s'.rows[r] == s.rows[r])
          && (Holds(k') ==> k'.req == k.req && s.rows[k.req].status == Simulated && s'.rows[k.req].status == Submitted))
  {
    var st := StatementOf(At(s, w), s.nextTx, act);
    if IsWrite(act) && st.Some? {
      StatementHolder(At(s, w), s.nextTx, act);
      ExecuteOnRows(s, w, st.value);
      hide Execute, Commits, StatementOf, Move;
    } else {
      MoveHolder(s, act, At(s, w));
      hide Move, StatementOf, Execute;
    }
  }

  /** An act of a worker that does not hold a request leaves it Submitted if it was. */
  lemma OnlyHolderMoves(s: State, v: WorkerId, act: Act, req: RequestId)
    requires req in s.rows && s.rows[req].status == Submitted
    requires !(Holds(At(s, v)) && At(s, v).req == req)
    ensures req in DoAct(s, v, act).rows && DoAct(s, v, act).rows[req].status == Submitted
    ensures Holds(At(DoAct(s, v, act), v)) ==> At(DoAct(s, v, act), v).req != req
  {
    ActOnHolds(s, v, act);
    hide DoAct;
  }

  /** A worker that holds after its act either held before, or just took its row from Simulated. */
  lemma HolderAfterAct(s: State, w: WorkerId, act: Act)
    requires Holds(At(DoAct(s, w, act), w))
    requires Holds(At(s, w)) ==> At(s, w).req in s.rows && s.rows[At(s, w).req].status == Submitted
    ensures At(DoAct(s, w, act), w).req in DoAct(s, w, act).rows
    ensures DoAct(s, w, act).rows[At(DoAct(s, w, act), w).req].status == Submitted
    ensures if Holds(At(s, w)) then At(DoAct(s, w, act), w).req == At(s, w).req
            else At(DoAct(s, w, act), w).req in s.rows && s.rows[At(DoAct(s, w, act), w).req].status == Simulated
  {
    ActOnHolds(s, w, act);
    hide DoAct;
  }

  lemma SubmitterAfterAct(s: State, v: WorkerId, act: Act)
    requires SingleSubmitter(s) && WorkersOk(s) && TxsOk(s)
    ensures SingleSubmitter(DoAct(s, v, act))
  {
    var s' := DoAct(s, v, act);
    hide DoAct, WorkerOk, TxsOk;
    forall w: WorkerId | Holds(At(s', w))
      ensures At(s', w).req in s'.rows && s'.rows[At(s', w).req].status == Submitted
      ensures w == v || At(s', w) == At(s, w)
      ensures w != v && Holds(At(s', v)) ==> At(s', v).req != At(s', w).req
    {
      assert WorkerOk(s, v);
      if w == v {
        HolderAfterAct(s, v, act);
      } else {
        ActUndisturbed(s, v, act, w);
        OnlyHolderMoves(s, v, act, At(s, w).req);
      }
    }
  }

  /** Steps that are nobody's act move no worker and no Submitted row. */
  lemma SubmitterAfterOther(s: State, step: Step)
    requires SingleSubmitter(s) && !step.By?
    ensures SingleSubmitter(Next(s, step))
  {
    hide Charge, Apply;
    var s' := Next(s, step);
    assert forall w: WorkerId :: At(s', w) == At(s, w);
    assert forall r :: r in s.rows && s.rows[r].status == Submitted ==> r in s'.rows && s'.rows[r].status == Submitted;
    hide Next;
  }

  lemma SingleSubmitterNext(s: State, step: Step)
    requires SingleSubmitter(s) && WorkersOk(s) && TxsOk(s)
    ensures SingleSubmitter(Next(s, step))
  {
    hide Next, DoAct, WorkersOk, TxsOk;
    if step.By? {
      ActIsNext(s, step.w, step.act);
      SubmitterAfterAct(s, step.w, step.act);
    } else {
      SubmitterAfterOther(s, step);
    }
  }
}
