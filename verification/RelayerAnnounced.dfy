/** Which completed mandates the pipeline announces, and which it does not. */
module RelayerAnnounced {
  import opened Wrappers
  import opened Limits
  import opened MandateTypes
  import opened RegistrySpec
  import opened RegistryInvariant
  import opened RegistryRuns
  import opened ChargeHistory
  import opened ChargeRequests
  import opened Relayer
  import opened RelayerSafety
  import opened RelayerOutcomes

  // ---- when a worker read its mandate ----

  /** Worker `w` reads its mandate in this step. */
  predicate Reads(s: State, step: Step, w: WorkerId)
  {
    step.By? && step.w == w && step.act.ReadMandate? && At(s, w).Claimed?
  }

  /** How long the chain's history was when worker `w` last read a mandate. */
  function ReadAt(steps: seq<Step>, w: WorkerId): nat
  {
    if steps == [] then 0
    else
      var front, last := steps[..|steps| - 1], steps[|steps| - 1];
      if Reads(Steps(START, front), last, w) then |Steps(START, front).chain.charged| else ReadAt(front, w)
  }

  /** The worker that settles request `req` in this step, if one does. */
  predicate SettlesBy(s: State, step: Step, req: RequestId)
  {
    && step.By? && step.act.Settle? && At(s, step.w).Confirmed? && At(s, step.w).req == req
    && Commits(s, StatementOf(At(s, step.w), s.nextTx, step.act).value)
  }

  /** How long the chain's history was when the worker that settled `req` had read the mandate. */
  function SettledReadAt(steps: seq<Step>, req: RequestId): Option<nat>
  {
    if steps == [] then None
    else
      var front, last := steps[..|steps| - 1], steps[|steps| - 1];
      if SettlesBy(Steps(START, front), last, req) then Some(ReadAt(front, last.w)) else SettledReadAt(front, req)
  }

  predicate HasMandate(k: Worker)
  {
    k.MandateRead? || k.Prepared? || k.MarkedSimulated? || k.Submitting? || k.Confirmed?
  }

  /** The count a worker holds is that of the history it read. */
  ghost predicate CountRead(chain: Registry, k: Worker, at: nat)
    requires HasMandate(k)
  {
    && at <= |chain.charged| && k.row.mandateId in chain.mandates
    && k.mandate.maxSuccessfulCharges == chain.mandates[k.row.mandateId].maxSuccessfulCharges
    && k.mandate.successfulCharges == Charges(chain.charged[..at], k.row.mandateId)
  }

  ghost predicate ReadsOk(s: State, steps: seq<Step>)
  {
    forall w :: HasMandate(At(s, w)) ==> CountRead(s.chain, At(s, w), ReadAt(steps, w))
  }

  lemma ReadAtNext(steps: seq<Step>, step: Step, w: WorkerId)
    ensures ReadAt(steps + [step], w) ==
      if Reads(Steps(START, steps), step, w) then |Steps(START, steps).chain.charged| else ReadAt(steps, w)
  {
    assert (steps + [step])[..|steps|] == steps;
  }

  /** A longer history says the same of its beginning. */
  lemma CountReadStays(chain: Registry, chain': Registry, k: Worker, at: nat)
    requires HasMandate(k) && CountRead(chain, k, at) && Evolves(chain, chain')
    ensures CountRead(chain', k, at)
  {
    assert chain'.charged[..at] == chain.charged[..at];
    MandateStays(chain, chain', k.row.mandateId);
  }

  /** A live read counts the whole history so far. */
  lemma FreshRead(chain: Registry, now: U64, id: Hash)
    requires RegistryOk(chain) && GetMandate(chain, now, id).Ok?
    ensures var m := GetMandate(chain, now, id).value;
      && id in chain.mandates && m.maxSuccessfulCharges == chain.mandates[id].maxSuccessfulCharges
      && m.successfulCharges == Charges(chain.charged[..|chain.charged|], id)
  {
    hide RegistryOk, Charges, EffectiveStatus;
    MandateCounted(chain, id);
    assert chain.charged[..|chain.charged|] == chain.charged;
  }

  /** An act leaves its worker with the mandate it had, or with one just read, or without one. */
  lemma ActOnMandate(s: State, w: WorkerId, act: Act)
    ensures var k, k' := At(s, w), At(DoAct(s, w, act), w);
      HasMandate(k') ==>
        || (act.ReadMandate? && k.Claimed? && GetMandate(s.chain, act.now, k.row.mandateId).Ok?
            && k'.row == k.row && k'.mandate == GetMandate(s.chain, act.now, k.row.mandateId).value)
        || (HasMandate(k) && !(act.ReadMandate? && k.Claimed?) && k'.row == k.row && k'.mandate == k.mandate)
  {
    if IsWrite(act) {
      hide Move, Commits, Transition;
    } else {
      hide Charge, GetMandate, Verified, ResolveChargeContext, StatementOf, Execute;
    }
  }

  lemma ReadsAfterAct(s: State, w: WorkerId, act: Act, k': Worker, at: nat)
    requires RegistryOk(s.chain) && k' == At(DoAct(s, w, act), w) && HasMandate(k')
    requires HasMandate(At(s, w)) ==> CountRead(s.chain, At(s, w), at)
    ensures CountRead(s.chain, k', if Reads(s, By(w, act), w) then |s.chain.charged| else at)
  {
    hide DoAct, CountRead, GetMandate, RegistryOk;
    ActOnMandate(s, w, act);
    if Reads(s, By(w, act), w) {
      FreshRead(s.chain, act.now, k'.row.mandateId);
      assert CountRead(s.chain, k', |s.chain.charged|) by { ReadOfNow(s.chain, act.now, k'); }
    } else {
      SameRead(s.chain, At(s, w), k', at);
    }
  }

  lemma ReadOfNow(chain: Registry, now: U64, k: Worker)
    requires RegistryOk(chain) && HasMandate(k) && GetMandate(chain, now, k.row.mandateId).Ok?
    requires k.mandate == GetMandate(chain, now, k.row.mandateId).value
    ensures CountRead(chain, k, |chain.charged|)
  {
    hide RegistryOk, GetMandate, Charges;
    FreshRead(chain, now, k.row.mandateId);
  }

  lemma SameRead(chain: Registry, k: Worker, k': Worker, at: nat)
    requires HasMandate(k) && HasMandate(k') && k'.row == k.row && k'.mandate == k.mandate && CountRead(chain, k, at)
    ensures CountRead(chain, k', at)
  {
    hide Charges;
  }

  lemma ReadsNext(s: State, steps: seq<Step>, step: Step)
    requires CoreOk(s) && s == Steps(START, steps) && ReadsOk(s, steps)
    ensures ReadsOk(Next(s, step), steps + [step])
  {
    var s' := Next(s, step);
    assert RegistryOk(s.chain);
    ChainNext(s, step);
    hide Next, CoreOk, RegistryOk, Evolves, CountRead, Steps, ReadAt;
    forall w: WorkerId | HasMandate(At(s', w)) ensures CountRead(s'.chain, At(s', w), ReadAt(steps + [step], w)) {
      ReadAtNext(steps, step, w);
      if step.By? && step.w == w {
        ActIsNext(s, w, step.act);
        ReadsAfterAct(s, w, step.act, At(s', w), ReadAt(steps, w));
      } else {
        Bystands(s, step, w);
      }
      CountReadStays(s.chain, s'.chain, At(s', w), ReadAt(steps + [step], w));
    }
  }

  lemma Bystands(s: State, step: Step, w: WorkerId)
    requires !(step.By? && step.w == w)
    ensures At(Next(s, step), w) == At(s, w)
  {
    hide Charge, Apply, DoAct;
    if step.By? { ActTables(s, step.w, step.act); }
  }

  // ---- what a settled request announced ----

  /** The request settled on a read after which only its own charge was missing to the cap. */
  ghost predicate ReadOneShort(chain: Registry, mandateId: Hash, at: nat)
  {
    && mandateId in chain.mandates && at <= |chain.charged|
    && chain.mandates[mandateId].maxSuccessfulCharges > 0
    && Charges(chain.charged[..at], mandateId) + 1 == chain.mandates[mandateId].maxSuccessfulCharges
  }

  /** The receipt was recorded after the history that was read. */
  ghost predicate RecordedAfter(chain: Registry, paymentId: Hash, at: nat)
  {
    forall i :: 0 <= i < |chain.charged| && chain.charged[i].paymentId == paymentId ==> at <= i
  }

  /** A settled request: its read is known, came before its charge, and decided whether it announced. */
  ghost predicate SettledOk(s: State, steps: seq<Step>, req: RequestId)
    requires req in s.payments && req in s.rows
  {
    && SettledReadAt(steps, req).Some?
    && var at := SettledReadAt(steps, req).value;
       && at <= |s.chain.charged| && s.rows[req].mandateId in s.chain.mandates
       && RecordedAfter(s.chain, s.payments[req].paymentId, at)
       && (MandateCompletedHook(s.rows[req].mandateId, req) in s.webhooks <==> ReadOneShort(s.chain, s.rows[req].mandateId, at))
  }

  ghost predicate AllSettledOk(s: State, steps: seq<Step>)
  {
    forall r :: r in s.payments && r in s.rows ==> SettledOk(s, steps, r)
  }

  lemma SettledNext(steps: seq<Step>, step: Step, req: RequestId)
    ensures SettledReadAt(steps + [step], req) ==
      if SettlesBy(Steps(START, steps), step, req) then Some(ReadAt(steps, step.w)) else SettledReadAt(steps, req)
  {
    assert (steps + [step])[..|steps|] == steps;
  }

  lemma OneShortStays(chain: Registry, chain': Registry, mandateId: Hash, at: nat)
    requires Evolves(chain, chain') && mandateId in chain.mandates && at <= |chain.charged|
    ensures ReadOneShort(chain, mandateId, at) <==> ReadOneShort(chain', mandateId, at)
  {
    assert chain'.charged[..at] == chain.charged[..at];
    MandateStays(chain, chain', mandateId);
    hide Evolves, Charges;
  }

  lemma AfterStays(chain: Registry, chain': Registry, paymentId: Hash, at: nat)
    requires RecordedAfter(chain, paymentId, at) && Evolves(chain, chain') && at <= |chain.charged|
    ensures RecordedAfter(chain', paymentId, at)
  {
    forall i | 0 <= i < |chain'.charged| && chain'.charged[i].paymentId == paymentId ensures at <= i {
      if i < |chain.charged| { assert chain.charged[i] == chain'.charged[i]; }
    }
  }

  /** Receipts are recorded once. */
  lemma OnlyRecord(chain: Registry, i: nat, at: nat)
    requires ReceiptsStored(chain) && at <= i < |chain.charged|
    ensures RecordedAfter(chain, chain.charged[i].paymentId, at)
  {
    forall j | 0 <= j < |chain.charged| && chain.charged[j].paymentId == chain.charged[i].paymentId ensures at <= j { assert j == i; }
  }

  /** A receipt whose number is beyond the count read at some moment was recorded after it. */
  lemma NumberedAfter(chain: Registry, receipt: PaymentReceipt, count: int, mandateId: Hash, at: nat)
    requires ReceiptsStored(chain) && IsChargeNumber(chain, receipt, count) && receipt.mandateId == mandateId
    requires at <= |chain.charged| && Charges(chain.charged[..at], mandateId) < count
    ensures RecordedAfter(chain, receipt.paymentId, at)
  {
    var i :| 0 <= i < |chain.charged| && chain.charged[i] == receipt && Charges(chain.charged[..i + 1], mandateId) == count;
    hide *;
    if i < at { PrefixCounts(chain.charged, i + 1, at, mandateId); }
    OnlyRecord(chain, i, at);
  }

  /** A confirmed receipt lies after what its worker read. */
  lemma ConfirmedAfterRead(chain: Registry, k: Worker, at: nat)
    requires RegistryOk(chain) && k.Confirmed? && PaidAfter(chain, k.row, k.mandate, k.receipt) && CountRead(chain, k, at)
    ensures RecordedAfter(chain, k.receipt.paymentId, at)
  {
    assert ReceiptsStored(chain);
    hide RegistryOk, Charges, ReceiptsStored, IsChargeNumber, RecordedAfter;
    var count :| IsChargeNumber(chain, k.receipt, count) && k.mandate.successfulCharges < count;
    NumberedAfter(chain, k.receipt, count, k.row.mandateId, at);
  }

  lemma PrefixCounts(log: seq<PaymentReceipt>, i: nat, j: nat, mandateId: Hash)
    requires i <= j <= |log|
    ensures Charges(log[..i], mandateId) <= Charges(log[..j], mandateId)
  {
    assert log[..j][..i] == log[..i];
    ChargesOfPrefix(log[..j], i, mandateId);
  }

  /** A payment appears only when its request is settled, with the hooks of that settlement. */
  lemma NewPayment(s: State, w: WorkerId, act: Act, req: RequestId)
    requires req in DoAct(s, w, act).payments && req !in s.payments
    ensures SettlesBy(s, By(w, act), req)
    ensures var k := At(s, w);
      && DoAct(s, w, act).payments[req] == PaymentFrom(k.row, k.receipt)
      && DoAct(s, w, act).webhooks == s.webhooks + SettleHooks(req, k.mandate, k.row)
      && req in s.rows && req in DoAct(s, w, act).rows
  {
    hide Move, Insertable, SettleHooks;
  }

  /** A settlement of a request inserts its payment. */
  lemma SettlesOnce(s: State, step: Step, req: RequestId)
    requires SettlesBy(s, step, req)
    ensures req !in s.payments
  {
    hide Transition;
  }

  /** No completion notice names a request without a payment. */
  lemma HookHasPayment(s: State, mandateId: Hash, req: RequestId)
    requires HooksOk(s) && MandateCompletedHook(mandateId, req) in s.webhooks
    ensures req in s.payments
  {
    var i :| 0 <= i < |s.webhooks| && s.webhooks[i] == MandateCompletedHook(mandateId, req);
    assert CompletedBy(s, mandateId, req);
  }

  lemma OldHooks(s: State, w: WorkerId, act: Act, mandateId: Hash, req: RequestId)
    requires req in s.payments
    ensures MandateCompletedHook(mandateId, req) in DoAct(s, w, act).webhooks <==> MandateCompletedHook(mandateId, req) in s.webhooks
  {
    ActOnHooks(s, w, act);
    hide DoAct, AddedHooks;
  }

  /** What a payment keeps: itself, its request's mandate, and whether it was announced. */
  ghost predicate PaymentKeeps(s: State, s': State, req: RequestId)
  {
    && req in s.payments && req in s'.payments && s'.payments[req] == s.payments[req]
    && req in s.rows && req in s'.rows && s'.rows[req].mandateId == s.rows[req].mandateId
    && (MandateCompletedHook(s.rows[req].mandateId, req) in s'.webhooks <==> MandateCompletedHook(s.rows[req].mandateId, req) in s.webhooks)
  }

  lemma ActKeepsPayment(s: State, w: WorkerId, act: Act, req: RequestId)
    requires req in s.payments && req in s.rows
    ensures PaymentKeeps(s, DoAct(s, w, act), req)
  {
    SettledOnce(s, w, act);
    OldHooks(s, w, act, s.rows[req].mandateId, req);
    ActKeepsOrders(s, w, act);
    hide DoAct;
    assert OrderOf(DoAct(s, w, act).rows[req]) == OrderOf(s.rows[req]);
  }

  lemma OldPaymentKeeps(s: State, step: Step, req: RequestId)
    requires Safe(s) && req in s.payments
    ensures PaymentKeeps(s, Next(s, step), req)
  {
    PaymentHasRow(s, req);
    SafeCore(s);
    if step.By? {
      hide DoAct, Next, Safe, CoreOk, RegistryOk, WorkersOk, HooksOk, PaymentOk, PaymentKeeps;
      ActIsNext(s, step.w, step.act);
      ActKeepsPayment(s, step.w, step.act, req);
      assert PaymentKeeps(s, Next(s, step), req);
    } else {
      hide Next, Safe, CoreOk, RegistryOk, WorkersOk, HooksOk, PaymentOk, PaymentKeeps;
      OtherKeepsPayment(s, step, req);
      assert PaymentKeeps(s, Next(s, step), req);
    }
  }

  lemma OtherKeepsPayment(s: State, step: Step, req: RequestId)
    requires !step.By? && req in s.payments && req in s.rows
    ensures PaymentKeeps(s, Next(s, step), req)
  {
    OtherOnStatus(s, step);
    OtherKeepsMandate(s, step, req);
    hide Next;
  }

  lemma OtherKeepsMandate(s: State, step: Step, req: RequestId)
    requires !step.By? && req in s.rows
    ensures req in Next(s, step).rows && Next(s, step).rows[req].mandateId == s.rows[req].mandateId
  {
    hide Charge, Apply;
  }

  lemma OldSettledOk(s: State, steps: seq<Step>, step: Step, req: RequestId)
    requires Safe(s) && s == Steps(START, steps) && req in s.payments && req in s.rows && SettledOk(s, steps, req)
    ensures req in Next(s, step).payments && req in Next(s, step).rows && SettledOk(Next(s, step), steps + [step], req)
  {
    var s' := Next(s, step);
    OldPaymentKeeps(s, step, req);
    SettledNext(steps, step, req);
    if SettlesBy(s, step, req) { SettlesOnce(s, step, req); }
    SafeCore(s);
    ChainNext(s, step);
    hide Next, Safe, CoreOk, RegistryOk, Evolves, Steps, SettledReadAt, SettlesBy, ReadOneShort, RecordedAfter;
    var at := SettledReadAt(steps, req).value;
    OneShortStays(s.chain, s'.chain, s.rows[req].mandateId, at);
    AfterStays(s.chain, s'.chain, s.payments[req].paymentId, at);
    HistoryGrows(s.chain, s'.chain);
    MandateStays(s.chain, s'.chain, s.rows[req].mandateId);
  }

  lemma HistoryGrows(chain: Registry, chain': Registry)
    requires Evolves(chain, chain')
    ensures |chain.charged| <= |chain'.charged|
  {
  }

  lemma SafeCore(s: State)
    requires Safe(s)
    ensures CoreOk(s) && RegistryOk(s.chain) && HooksOk(s) && WorkersOk(s)
  {
    hide RegistryOk, HooksOk, WorkersOk;
  }

  /** A worker about to settle: what its read decides. */
  lemma SettlementDecides(s: State, w: WorkerId, at: nat)
    requires At(s, w).Confirmed? && CountRead(s.chain, At(s, w), at)
    ensures var k := At(s, w);
      MandateCompletedHook(k.row.mandateId, k.req) in SettleHooks(k.req, k.mandate, k.row) <==> ReadOneShort(s.chain, k.row.mandateId, at)
  {
    hide Charges;
  }

  /** A settling worker's read: of this chain, before its receipt, and deciding its notice. */
  lemma SettlerRead(s: State, w: WorkerId, at: nat)
    requires Safe(s) && At(s, w).Confirmed? && CountRead(s.chain, At(s, w), at)
    ensures var k := At(s, w);
      && at <= |s.chain.charged| && k.row.mandateId in s.chain.mandates && RecordedAfter(s.chain, k.receipt.paymentId, at)
      && k.req in s.rows && OrderOf(s.rows[k.req]) == OrderOf(k.row)
      && (MandateCompletedHook(k.row.mandateId, k.req) in SettleHooks(k.req, k.mandate, k.row) <==> ReadOneShort(s.chain, k.row.mandateId, at))
  {
    hide Safe, CoreOk, RegistryOk, WorkersOk, HooksOk, PaidAfter, ReadOneShort, RecordedAfter, SettleHooks, Charges;
    SafeCore(s);
    ConfirmedKnows(s, w);
    ConfirmedAfterRead(s.chain, At(s, w), at);
    SettlementDecides(s, w, at);
  }

  lemma ConfirmedKnows(s: State, w: WorkerId)
    requires WorkersOk(s) && At(s, w).Confirmed?
    ensures Knows(s, At(s, w).req, At(s, w).row) && PaidAfter(s.chain, At(s, w).row, At(s, w).mandate, At(s, w).receipt)
  {
    hide PaidAfter;
    assert WorkerOk(s, w);
  }

  lemma NewSettledOk(s: State, steps: seq<Step>, w: WorkerId, act: Act, req: RequestId)
    requires Safe(s) && s == Steps(START, steps) && ReadsOk(s, steps)
    requires req in DoAct(s, w, act).payments && req !in s.payments && req in DoAct(s, w, act).rows
    ensures SettledOk(DoAct(s, w, act), steps + [By(w, act)], req)
  {
    var s', k, at := DoAct(s, w, act), At(s, w), ReadAt(steps, w);
    NewPayment(s, w, act, req);
    SettledNext(steps, By(w, act), req);
    assert k.Confirmed? && k.req == req && CountRead(s.chain, k, at);
    SettlerRead(s, w, at);
    NoEarlierHook(s, k.row.mandateId, req);
    ActKeepsOrders(s, w, act);
    ActChain(s, w, act);
    hide DoAct, Safe, ReadsOk, Steps, SettledReadAt, SettlesBy, ReadOneShort, RecordedAfter, CountRead, SettleHooks, ReadAt;
    assert OrderOf(s'.rows[req]) == OrderOf(s.rows[req]);
  }

  lemma NoEarlierHook(s: State, mandateId: Hash, req: RequestId)
    requires Safe(s) && req !in s.payments
    ensures MandateCompletedHook(mandateId, req) !in s.webhooks
  {
    SafeCore(s);
    hide Safe, HooksOk;
    if MandateCompletedHook(mandateId, req) in s.webhooks { HookHasPayment(s, mandateId, req); }
  }

  lemma ActChain(s: State, w: WorkerId, act: Act)
    ensures DoAct(s, w, act).chain == s.chain
  {
    hide Move, StatementOf, Commits, Transition;
  }

  lemma AllSettledNext(s: State, steps: seq<Step>, step: Step)
    requires Safe(s) && s == Steps(START, steps) && ReadsOk(s, steps) && AllSettledOk(s, steps)
    ensures AllSettledOk(Next(s, step), steps + [step])
  {
    var s' := Next(s, step);
    if !step.By? { OtherOnStatus(s, step); }
    hide Next, DoAct, Safe, ReadsOk, SettledOk, Steps;
    forall r | r in s'.payments && r in s'.rows ensures SettledOk(s', steps + [step], r) {
      if r in s.payments {
        PaymentHasRow(s, r);
        OldSettledOk(s, steps, step, r);
      } else {
        ActIsNext(s, step.w, step.act);
        NewSettledOk(s, steps, step.w, step.act, r);
        assert By(step.w, step.act) == step;
      }
    }
  }

  lemma PaymentHasRow(s: State, req: RequestId)
    requires Safe(s) && req in s.payments
    ensures req in s.rows && PaymentOk(s, req)
  {
    hide CoreOk, SingleSubmitter, HooksOk;
  }

  lemma {:induction false} AnnouncedRun(steps: seq<Step>)
    ensures ReadsOk(Steps(START, steps), steps) && AllSettledOk(Steps(START, steps), steps)
  {
    if steps != [] {
      var front, last := steps[..|steps| - 1], steps[|steps| - 1];
      AnnouncedRun(front);
      RunSafe(front);
      assert steps == front + [last];
      SafeCore(Steps(START, front));
      hide Next, Safe, CoreOk, ReadsOk, AllSettledOk;
      ReadsNext(Steps(START, front), front, last);
      AllSettledNext(Steps(START, front), front, last);
      assert ReadsOk(Steps(START, steps), steps) && AllSettledOk(Steps(START, steps), steps);
    }
  }

  // ---- exactly which completions are announced ----

  /** No charge of the mandate lies in this stretch of the history. */
  predicate NoneBetween(log: seq<PaymentReceipt>, mandateId: Hash, a: nat, b: nat)
  {
    forall x :: a <= x < b && x < |log| ==> log[x].mandateId != mandateId
  }

  /** A stretch without charges of the mandate is one in which its count stands still. */
  lemma {:induction false} NoneMeansSameCount(log: seq<PaymentReceipt>, mandateId: Hash, a: nat, b: nat)
    requires a <= b <= |log|
    ensures NoneBetween(log, mandateId, a, b) <==> Charges(log[..a], mandateId) == Charges(log[..b], mandateId)
    decreases b
  {
    if a < b {
      NoneMeansSameCount(log, mandateId, a, b - 1);
      PrefixCounts(log, a, b - 1, mandateId);
      assert log[..b] == log[..b - 1] + [log[b - 1]];
      Extend(log[..b - 1], log[b - 1], mandateId, 0, 0);
      hide Charges;
    }
  }

  /** Charge `i` of the history is the one that took its mandate to its cap. */
  ghost predicate Completing(chain: Registry, i: nat)
  {
    && i < |chain.charged| && chain.charged[i].mandateId in chain.mandates
    && chain.mandates[chain.charged[i].mandateId].maxSuccessfulCharges != 0
    && Charges(chain.charged[..i + 1], chain.charged[i].mandateId) == chain.mandates[chain.charged[i].mandateId].maxSuccessfulCharges
  }

  ghost predicate Announced(s: State, mandateId: Hash)
  {
    exists req :: MandateCompletedHook(mandateId, req) in s.webhooks
  }

  /**
   * The request of the completing charge settled, on a read of the mandate after
   * which no other charge of it executed before its own.
   */
  ghost predicate SettledUndisturbed(s: State, steps: seq<Step>, i: nat)
    requires i < |s.chain.charged|
  {
    exists req :: req in s.payments && s.payments[req].paymentId == s.chain.charged[i].paymentId
      && SettledReadAt(steps, req).Some?
      && NoneBetween(s.chain.charged, s.chain.charged[i].mandateId, SettledReadAt(steps, req).value, i)
  }

  /** A read one short of the cap is a read with nothing between it and the completing charge. */
  lemma OneShortMeansUndisturbed(chain: Registry, i: nat, at: nat)
    requires Completing(chain, i) && at <= i
    ensures ReadOneShort(chain, chain.charged[i].mandateId, at) <==> NoneBetween(chain.charged, chain.charged[i].mandateId, at, i)
  {
    var m := chain.charged[i].mandateId;
    NoneMeansSameCount(chain.charged, m, at, i);
    assert chain.charged[..i + 1] == chain.charged[..i] + [chain.charged[i]];
    Extend(chain.charged[..i], chain.charged[i], m, 0, 0);
    hide Charges, NoneBetween;
  }

  /** A payment row of a receipt of the history belongs to a request of that receipt's mandate. */
  lemma PaymentOfReceipt(s: State, req: RequestId, i: nat)
    requires Safe(s) && req in s.payments && i < |s.chain.charged| && s.payments[req].paymentId == s.chain.charged[i].paymentId
    ensures req in s.rows && s.rows[req].mandateId == s.chain.charged[i].mandateId
  {
    SafeCore(s);
    PaymentHasRow(s, req);
    assert ReceiptsStored(s.chain);
    hide Safe, CoreOk, RegistryOk, WorkersOk, HooksOk;
  }

  /** The completing charge of an announced mandate is the announcing request's own. */
  lemma AnnouncerPaid(s: State, i: nat, req: RequestId)
    requires Safe(s) && Completing(s.chain, i) && MandateCompletedHook(s.chain.charged[i].mandateId, req) in s.webhooks
    ensures req in s.payments && s.payments[req].paymentId == s.chain.charged[i].paymentId
  {
    var m := s.chain.charged[i].mandateId;
    SafeCore(s);
    var h :| 0 <= h < |s.webhooks| && s.webhooks[h] == MandateCompletedHook(m, req);
    assert CompletedBy(s, m, req);
    PaymentHasRow(s, req);
    hide Safe, CoreOk, RegistryOk, WorkersOk, HooksOk, Charges;
    var n := s.chain.mandates[m].maxSuccessfulCharges;
    assert IsChargeNumber(s.chain, s.chain.charged[i], n);
    NumberIsUnique(s.chain, s.chain.payments[s.payments[req].paymentId], s.chain.charged[i], n);
  }

  /**
   * In every interleaving a completed mandate is announced if and only if the
   * request of its completing charge settled and no other charge of the mandate
   * executed between the read its worker settled on and that charge.
   */
  lemma AnnouncedExactly(steps: seq<Step>, i: nat)
    requires Completing(Steps(START, steps).chain, i)
    ensures var s := Steps(START, steps);
      Announced(s, s.chain.charged[i].mandateId) <==> SettledUndisturbed(s, steps, i)
  {
    var s := Steps(START, steps);
    var m := s.chain.charged[i].mandateId;
    RunSafe(steps);
    AnnouncedRun(steps);
    hide Steps, Safe, ReadsOk, Completing, SettledReadAt, NoneBetween, ReadOneShort;
    if Announced(s, m) {
      var req :| MandateCompletedHook(m, req) in s.webhooks;
      AnnouncerPaid(s, i, req);
      PaymentOfReceipt(s, req, i);
      assert SettledOk(s, steps, req);
      OneShortMeansUndisturbed(s.chain, i, SettledReadAt(steps, req).value);
    }
    if SettledUndisturbed(s, steps, i) {
      var req :| req in s.payments && s.payments[req].paymentId == s.chain.charged[i].paymentId && SettledReadAt(steps, req).Some?
        && NoneBetween(s.chain.charged, m, SettledReadAt(steps, req).value, i);
      PaymentOfReceipt(s, req, i);
      assert SettledOk(s, steps, req);
      OneShortMeansUndisturbed(s.chain, i, SettledReadAt(steps, req).value);
    }
  }

  /** Every mandate stored as Completed has its completing charge. */
  lemma CompletedHasCharge(steps: seq<Step>, mandateId: Hash)
    requires mandateId in Steps(START, steps).chain.mandates && Steps(START, steps).chain.mandates[mandateId].status == Completed
    ensures exists i: nat :: Completing(Steps(START, steps).chain, i) && Steps(START, steps).chain.charged[i].mandateId == mandateId
  {
    var chain := Steps(START, steps).chain;
    RunSafe(steps);
    hide *;
    SafeCore(Steps(START, steps));
    CompletedCounts(chain, mandateId);
    LastCharge(chain.charged, mandateId, |chain.charged|);
    var i: nat :| i < |chain.charged| && chain.charged[i].mandateId == mandateId
      && Charges(chain.charged[..i + 1], mandateId) == Charges(chain.charged[..|chain.charged|], mandateId);
    IsCompleting(chain, i);
  }

  lemma IsCompleting(chain: Registry, i: nat)
    requires i < |chain.charged| && chain.charged[i].mandateId in chain.mandates
    requires chain.mandates[chain.charged[i].mandateId].maxSuccessfulCharges != 0
    requires Charges(chain.charged[..i + 1], chain.charged[i].mandateId) == chain.mandates[chain.charged[i].mandateId].maxSuccessfulCharges
    ensures Completing(chain, i)
  {
  }

  lemma CompletedCounts(chain: Registry, mandateId: Hash)
    requires RegistryOk(chain) && mandateId in chain.mandates && chain.mandates[mandateId].status == Completed
    ensures chain.mandates[mandateId].maxSuccessfulCharges > 0
    ensures Charges(chain.charged[..|chain.charged|], mandateId) == chain.mandates[mandateId].maxSuccessfulCharges
  {
    hide MandateOk, ReceiptsStored, ReplayGuardsOk, RefundsOk, Charges;
    MandateCounted(chain, mandateId);
    assert chain.charged[..|chain.charged|] == chain.charged;
    CompletedIsFull(chain.mandates[mandateId], chain.charged);
  }

  lemma CompletedIsFull(m: Mandate, log: seq<PaymentReceipt>)
    requires MandateOk(m, log) && m.status == Completed
    ensures m.maxSuccessfulCharges > 0 && m.successfulCharges == m.maxSuccessfulCharges
  {
    hide CountersOk, PeriodsOk, ReceiptsOk, LatestOk, Within, ClockOk, TermsOk;
  }

  /** The last charge of a mandate that has been charged. */
  lemma {:induction false} LastCharge(log: seq<PaymentReceipt>, mandateId: Hash, n: nat)
    requires n <= |log| && Charges(log[..n], mandateId) > 0
    ensures exists i: nat :: i < n && log[i].mandateId == mandateId && Charges(log[..i + 1], mandateId) == Charges(log[..n], mandateId)
  {
    if n > 0 {
      assert log[..n] == log[..n - 1] + [log[n - 1]];
      Extend(log[..n - 1], log[n - 1], mandateId, 0, 0);
      if log[n - 1].mandateId != mandateId { LastCharge(log, mandateId, n - 1); }
    }
  }
}
