/** What the relayer's tables say about the chain, over every run. */
module RelayerOutcomes {
  import opened Wrappers
  import opened Limits
  import opened MandateTypes
  import opened RegistrySpec
  import opened RegistryInvariant
  import opened RegistryRuns
  import opened RegistryTheorems
  import opened ChargeHistory
  import opened ChargeRequests
  import opened Relayer
  import opened RelayerSafety

  // ---- payments ----

  /** The row is the on-chain receipt of exactly what was requested. */
  ghost predicate PaymentOk(s: State, req: RequestId)
    requires req in s.payments && req in s.rows
  {
    var p := s.payments[req];
    && p.paymentId in s.chain.payments
    && Paid(s.chain, s.rows[req], s.chain.payments[p.paymentId])
    && p == PaymentFrom(s.rows[req], s.chain.payments[p.paymentId])
    && Expected(s, s.rows[req])
  }

  /** Payment rows are exactly the successes. */
  ghost predicate PaymentsOk(s: State)
  {
    && (forall r :: r in s.payments ==> r in s.rows && PaymentOk(s, r))
    && (forall r :: r in s.rows ==> (s.rows[r].status == Succeeded <==> r in s.payments))
  }

  lemma PaidStays(chain: Registry, chain': Registry, row: ChargeRequest, row': ChargeRequest, receipt: PaymentReceipt)
    requires Paid(chain, row, receipt) && Evolves(chain, chain') && OrderOf(row') == OrderOf(row)
    ensures Paid(chain', row', receipt)
  {
    MandateStays(chain, chain', row.mandateId);
  }

  /** Terminal rows never change, and only a settlement makes a Succeeded one. */
  lemma ActOnStatus(s: State, w: WorkerId, act: Act, r: RequestId)
    requires r in s.rows && WorkerOk(s, w)
    ensures r in DoAct(s, w, act).rows
    ensures Terminal(s.rows[r].status) ==> DoAct(s, w, act).rows[r] == s.rows[r]
    ensures DoAct(s, w, act).rows[r].status == Succeeded && s.rows[r].status != Succeeded
      ==> At(s, w).Confirmed? && At(s, w).req == r && DoAct(s, w, act).payments != s.payments
  {
    hide Charge, PaidAfter, ReadFrom;
  }

  lemma ActOnPayments(s: State, w: WorkerId, act: Act)
    ensures var s' := DoAct(s, w, act);
      s'.payments == s.payments
      || (act.Settle? && At(s, w).Confirmed? && At(s, w).req in s'.rows && s'.rows[At(s, w).req].status == Succeeded
          && s'.payments == s.payments[At(s, w).req := PaymentFrom(At(s, w).row, At(s, w).receipt)])
  {
    hide Charge, GetMandate;
  }

  /** Payments stay right when old ones stay and the added ones are right. */
  lemma PaymentsFrame(s: State, s': State, added: set<RequestId>)
    requires PaymentsOk(s) && RowsEvolve(s.rows, s'.rows) && Evolves(s.chain, s'.chain) && DirectoryGrows(s.directory, s'.directory)
    requires s'.payments.Keys == s.payments.Keys + added
    requires forall r :: r in s.payments && r !in added ==> s'.payments[r] == s.payments[r]
    requires forall r :: r in added ==> r in s'.rows && PaymentOk(s', r)
    requires forall r :: r in s'.rows ==>
      (s'.rows[r].status == Succeeded <==> r in added || (r in s.rows && s.rows[r].status == Succeeded))
    ensures PaymentsOk(s')
  {
    hide Evolves, Paid, Expected, DirectoryGrows;
    forall r | r in s'.payments
      ensures r in s'.rows && PaymentOk(s', r)
    {
      if r !in added {
        PaidStays(s.chain, s'.chain, s.rows[r], s'.rows[r], s.chain.payments[s.payments[r].paymentId]);
        PaymentKept(s.chain, s'.chain, s.payments[r].paymentId);
        ExpectedStays(s, s', s.rows[r]);
        ExpectedRow(s', s.rows[r], s'.rows[r]);
      }
    }
  }

  /** The request an act settled, if it settled one. */
  function Settled(s: State, w: WorkerId, act: Act): set<RequestId>
  {
    if DoAct(s, w, act).payments == s.payments then {} else if At(s, w).Confirmed? then {At(s, w).req} else {}
  }

  lemma SettledStatus(s: State, w: WorkerId, act: Act)
    requires WorkerOk(s, w)
    ensures var s' := DoAct(s, w, act);
      && s'.payments.Keys == s.payments.Keys + Settled(s, w, act)
      && (forall r :: r in s.payments && r !in Settled(s, w, act) ==> s'.payments[r] == s.payments[r])
      && (forall r :: r in s'.rows ==>
            (s'.rows[r].status == Succeeded <==> r in Settled(s, w, act) || (r in s.rows && s.rows[r].status == Succeeded)))
  {
    var s' := DoAct(s, w, act);
    ActOnPayments(s, w, act);
    hide DoAct, WorkerOk;
    forall r | r in s'.rows
      ensures s'.rows[r].status == Succeeded <==> r in Settled(s, w, act) || (r in s.rows && s.rows[r].status == Succeeded)
    {
      ActOnNewRow(s, w, act, r);
      ActOnStatus(s, w, act, r);
    }
  }

  lemma PaymentsAfterAct(s: State, w: WorkerId, act: Act)
    requires PaymentsOk(s) && CoreOk(s)
    ensures PaymentsOk(DoAct(s, w, act))
  {
    var s' := DoAct(s, w, act);
    assert WorkerOk(s, w);
    ActEvolves(s, w, act);
    hide DoAct, CoreOk, Evolves, WorkerOk, PaymentsOk, Settled, DirectoryGrows;
    SettledStatus(s, w, act);
    SettledPayments(s, w, act);
    PaymentsFrame(s, s', Settled(s, w, act));
    assert PaymentsOk(s');
  }

  lemma ActEvolves(s: State, w: WorkerId, act: Act)
    requires CoreOk(s)
    ensures RowsEvolve(s.rows, DoAct(s, w, act).rows) && Evolves(s.chain, DoAct(s, w, act).chain)
    ensures DirectoryGrows(s.directory, DoAct(s, w, act).directory)
  {
    hide RegistryOk, DistinctCharges, WorkersOk, TxsOk, DoAct, Evolves, RowsEvolve, DirectoryGrows;
    DirectoryNext(s, By(w, act));
    ActIsNext(s, w, act);
    RowsNext(s, By(w, act));
    ChainNext(s, By(w, act));
    assert RowsEvolve(s.rows, DoAct(s, w, act).rows) && Evolves(s.chain, DoAct(s, w, act).chain);
    assert DirectoryGrows(s.directory, DoAct(s, w, act).directory);
  }

  lemma SettledPayments(s: State, w: WorkerId, act: Act)
    requires WorkerOk(s, w)
    requires RowsEvolve(s.rows, DoAct(s, w, act).rows) && Evolves(s.chain, DoAct(s, w, act).chain)
    requires DirectoryGrows(s.directory, DoAct(s, w, act).directory)
    ensures forall r :: r in Settled(s, w, act) ==>
      r in DoAct(s, w, act).payments && r in DoAct(s, w, act).rows && PaymentOk(DoAct(s, w, act), r)
  {
    var s' := DoAct(s, w, act);
    ActOnPayments(s, w, act);
    hide DoAct, Evolves, Paid, WorkerOk, Expected, DirectoryGrows;
    if Settled(s, w, act) != {} {
      KnowsRow(s, w);
      SettledPayment(s, w, s'.rows[At(s, w).req], s'.chain);
      ConfirmedExpected(s, w);
      ExpectedStays(s, s', At(s, w).row);
      ExpectedRow(s', At(s, w).row, s'.rows[At(s, w).req]);
    }
  }

  lemma ConfirmedExpected(s: State, w: WorkerId)
    requires WorkerOk(s, w) && At(s, w).Confirmed?
    ensures Expected(s, At(s, w).row)
  {
  }

  lemma KnowsRow(s: State, w: WorkerId)
    requires WorkerOk(s, w) && !At(s, w).Idle?
    ensures Knows(s, At(s, w).req, At(s, w).row)
  {
  }

  lemma ActOnNewRow(s: State, w: WorkerId, act: Act, r: RequestId)
    requires r in DoAct(s, w, act).rows
    ensures r in s.rows
  {
    StepKeepsOrders(s, By(w, act));
    ActIsNext(s, w, act);
  }

  lemma PaymentKept(chain: Registry, chain': Registry, id: Hash)
    requires Evolves(chain, chain') && id in chain.payments
    ensures id in chain'.payments && chain'.payments[id] == chain.payments[id]
  {
  }

  /** What a confirmed worker inserts is the receipt of its own request. */
  lemma SettledPayment(s: State, w: WorkerId, row': ChargeRequest, chain': Registry)
    requires WorkerOk(s, w) && At(s, w).Confirmed? && Evolves(s.chain, chain')
    requires OrderOf(row') == OrderOf(s.rows[At(s, w).req])
    ensures var k := At(s, w);
      && k.receipt.paymentId in chain'.payments && chain'.payments[k.receipt.paymentId] == k.receipt
      && Paid(chain', row', k.receipt)
      && PaymentFrom(k.row, k.receipt) == PaymentFrom(row', k.receipt)
  {
    var k := At(s, w);
    PaidStays(s.chain, chain', k.row, row', k.receipt);
  }

  lemma PaymentsAfterOther(s: State, step: Step)
    requires PaymentsOk(s) && CoreOk(s) && !step.By?
    ensures PaymentsOk(Next(s, step))
  {
    assert RegistryOk(s.chain) && DistinctCharges(s.rows);
    hide *;
    RowsNext(s, step);
    ChainNext(s, step);
    OtherOnStatus(s, step);
    DirectoryNext(s, step);
    PaymentsUnmoved(s, Next(s, step));
  }

  /** No payment added and no row newly succeeded. */
  lemma PaymentsUnmoved(s: State, s': State)
    requires PaymentsOk(s) && RowsEvolve(s.rows, s'.rows) && Evolves(s.chain, s'.chain) && s'.payments == s.payments
    requires DirectoryGrows(s.directory, s'.directory)
    requires forall r :: r in s'.rows ==>
      if r in s.rows then s'.rows[r].status == Succeeded <==> s.rows[r].status == Succeeded else s'.rows[r].status == Scheduled
    ensures PaymentsOk(s')
  {
    hide *;
    PaymentsFrame(s, s', {});
  }

  lemma OtherOnStatus(s: State, step: Step)
    requires !step.By?
    ensures Next(s, step).payments == s.payments && Next(s, step).webhooks == s.webhooks
    ensures forall r :: r in Next(s, step).rows ==>
      if r in s.rows then Next(s, step).rows[r].status == Succeeded <==> s.rows[r].status == Succeeded
      else Next(s, step).rows[r].status == Scheduled
  {
    hide Charge, Apply;
  }

  // ---- completion notices ----

  lemma {:induction false} ChargesOfPrefix(log: seq<PaymentReceipt>, i: nat, mandate: Hash)
    requires i <= |log|
    ensures Charges(log[..i], mandate) <= Charges(log, mandate)
    decreases |log|
  {
    if i == |log| {
      assert log[..i] == log;
    } else {
      ChargesOfPrefix(log[..|log| - 1], i, mandate);
      assert log[..|log| - 1][..i] == log[..i];
    }
  }

  /** Charge numbers are distinct: they grow with each charge of the mandate. */
  lemma NumbersGrow(log: seq<PaymentReceipt>, i: nat, j: nat)
    requires i < j < |log| && log[i].mandateId == log[j].mandateId
    ensures Charges(log[..i + 1], log[i].mandateId) < Charges(log[..j + 1], log[i].mandateId)
  {
    ChargesOfPrefix(log[..j], i + 1, log[i].mandateId);
    assert log[..j][..i + 1] == log[..i + 1];
    assert log[..j + 1] == log[..j] + [log[j]];
    Extend(log[..j], log[j], log[i].mandateId, 0, 0);
  }

  lemma NumberIsUnique(chain: Registry, a: PaymentReceipt, b: PaymentReceipt, n: int)
    requires IsChargeNumber(chain, a, n) && IsChargeNumber(chain, b, n) && a.mandateId == b.mandateId
    ensures a == b
  {
    var log := chain.charged;
    var i :| 0 <= i < |log| && log[i] == a && Charges(log[..i + 1], a.mandateId) == n;
    var j :| 0 <= j < |log| && log[j] == b && Charges(log[..j + 1], b.mandateId) == n;
    if i < j { NumbersGrow(log, i, j); }
    if j < i { NumbersGrow(log, j, i); }
  }

  /** No charge has a number beyond a nonzero cap. */
  lemma NumberWithinCap(chain: Registry, receipt: PaymentReceipt, n: int)
    requires RegistryOk(chain) && IsChargeNumber(chain, receipt, n) && receipt.mandateId in chain.mandates
    ensures chain.mandates[receipt.mandateId].maxSuccessfulCharges != 0 ==> n <= chain.mandates[receipt.mandateId].maxSuccessfulCharges
  {
    hide ReceiptsStored, ReplayGuardsOk, RefundsOk;
    var i :| 0 <= i < |chain.charged| && chain.charged[i] == receipt && Charges(chain.charged[..i + 1], receipt.mandateId) == n;
    ChargesOfPrefix(chain.charged, i + 1, receipt.mandateId);
    assert MandateOk(chain.mandates[receipt.mandateId], chain.charged);
  }

  /** The request's charge is the one that took its mandate's count to the cap. */
  ghost predicate CompletedBy(s: State, mandateId: Hash, req: RequestId)
  {
    && req in s.rows && s.rows[req].mandateId == mandateId
    && req in s.payments && s.payments[req].paymentId in s.chain.payments
    && mandateId in s.chain.mandates
    && var receipt := s.chain.payments[s.payments[req].paymentId];
       && receipt.mandateId == mandateId && receipt.chargeId == s.rows[req].chargeId
       && s.chain.mandates[mandateId].maxSuccessfulCharges != 0
       && IsChargeNumber(s.chain, receipt, s.chain.mandates[mandateId].maxSuccessfulCharges)
  }

  ghost predicate HooksOk(s: State)
  {
    && (forall i :: 0 <= i < |s.webhooks| && s.webhooks[i].MandateCompletedHook? ==>
          CompletedBy(s, s.webhooks[i].mandateId, s.webhooks[i].req))
    && (forall i, j :: 0 <= i < j < |s.webhooks| && s.webhooks[i].MandateCompletedHook? && s.webhooks[j].MandateCompletedHook?
          ==> s.webhooks[i].req != s.webhooks[j].req)
  }

  lemma CompletedStays(s: State, s': State, mandateId: Hash, req: RequestId)
    requires CompletedBy(s, mandateId, req)
    requires RowsEvolve(s.rows, s'.rows) && Evolves(s.chain, s'.chain)
    requires req in s'.payments && s'.payments[req] == s.payments[req]
    ensures CompletedBy(s', mandateId, req)
  {
    MandateStays(s.chain, s'.chain, mandateId);
    IsChargeNumberStays(s.chain, s'.chain, s.chain.payments[s.payments[req].paymentId], s.chain.mandates[mandateId].maxSuccessfulCharges);
  }

  /** A confirmed charge on a mandate that was read one short of its cap is the completing one. */
  lemma ConfirmedCompletes(chain: Registry, row: ChargeRequest, mandate: Mandate, receipt: PaymentReceipt)
    requires RegistryOk(chain) && PaidAfter(chain, row, mandate, receipt)
    requires mandate.maxSuccessfulCharges > 0 && mandate.successfulCharges + 1 == mandate.maxSuccessfulCharges
    ensures IsChargeNumber(chain, receipt, chain.mandates[row.mandateId].maxSuccessfulCharges)
  {
    hide RegistryOk;
    var count :| IsChargeNumber(chain, receipt, count) && mandate.successfulCharges < count;
    NumberWithinCap(chain, receipt, count);
  }

  /** The webhooks an act adds. */
  function AddedHooks(s: State, w: WorkerId, act: Act): seq<Webhook>
  {
    if !IsWrite(act) then []
    else
      var st := StatementOf(At(s, w), s.nextTx, act);
      if st.None? || !Commits(s, st.value) then [] else st.value.hooks
  }

  /** They are a failure, or those of the worker's own settlement. */
  lemma ActOnHooks(s: State, w: WorkerId, act: Act)
    ensures DoAct(s, w, act).webhooks == s.webhooks + AddedHooks(s, w, act)
    ensures forall h :: h in AddedHooks(s, w, act) && h.MandateCompletedHook? ==>
      && At(s, w).Confirmed? && At(s, w).req !in s.payments
      && DoAct(s, w, act).payments == s.payments[At(s, w).req := PaymentFrom(At(s, w).row, At(s, w).receipt)]
      && AddedHooks(s, w, act) == SettleHooks(At(s, w).req, At(s, w).mandate, At(s, w).row)
  {
    hide Charge, GetMandate, Transition, SettleHooks, Move;
  }

  /** Notices stay right when old ones stay and at most one right one, for a request without a payment before, is added. */
  lemma HooksFrame(s: State, s': State, added: seq<Webhook>)
    requires HooksOk(s) && RowsEvolve(s.rows, s'.rows) && Evolves(s.chain, s'.chain)
    requires forall r :: r in s.payments ==> r in s'.payments && s'.payments[r] == s.payments[r]
    requires s'.webhooks == s.webhooks + added
    requires forall i :: 0 <= i < |added| && added[i].MandateCompletedHook? ==>
      i == |added| - 1 && added[i].req !in s.payments && CompletedBy(s', added[i].mandateId, added[i].req)
    ensures HooksOk(s')
  {
    hide Evolves, RowsEvolve, CompletedBy;
    forall i | 0 <= i < |s'.webhooks| && s'.webhooks[i].MandateCompletedHook?
      ensures CompletedBy(s', s'.webhooks[i].mandateId, s'.webhooks[i].req)
      ensures i < |s.webhooks| ==> s'.webhooks[i].req in s.payments
      ensures i >= |s.webhooks| ==> s'.webhooks[i].req !in s.payments && i == |s'.webhooks| - 1
    {
      if i < |s.webhooks| {
        assert CompletedBy(s, s.webhooks[i].mandateId, s.webhooks[i].req);
        CompletedIsPaid(s, s.webhooks[i].mandateId, s.webhooks[i].req);
        CompletedStays(s, s', s.webhooks[i].mandateId, s.webhooks[i].req);
      } else {
        assert s'.webhooks[i] == added[i - |s.webhooks|];
      }
    }
  }

  lemma AddedHookOk(s: State, w: WorkerId, act: Act, i: nat)
    requires RegistryOk(s.chain) && WorkerOk(s, w)
    requires RowsEvolve(s.rows, DoAct(s, w, act).rows) && Evolves(s.chain, DoAct(s, w, act).chain)
    requires i < |AddedHooks(s, w, act)| && AddedHooks(s, w, act)[i].MandateCompletedHook?
    ensures i == |AddedHooks(s, w, act)| - 1
    ensures var h := AddedHooks(s, w, act)[i]; h.req !in s.payments && CompletedBy(DoAct(s, w, act), h.mandateId, h.req)
  {
    hide DoAct, RegistryOk, Evolves, RowsEvolve, CompletedBy, AddedHooks, WorkerOk;
    ActOnHooks(s, w, act);
    assert AddedHooks(s, w, act)[i] in AddedHooks(s, w, act);
    NewHookCompletes(s, DoAct(s, w, act), w);
  }

  lemma HooksAfterAct(s: State, w: WorkerId, act: Act)
    requires HooksOk(s) && RegistryOk(s.chain) && WorkerOk(s, w)
    requires RowsEvolve(s.rows, DoAct(s, w, act).rows) && Evolves(s.chain, DoAct(s, w, act).chain)
    ensures HooksOk(DoAct(s, w, act))
  {
    hide DoAct, RegistryOk, Evolves, RowsEvolve, HooksOk, CompletedBy, AddedHooks, WorkerOk;
    var added := AddedHooks(s, w, act);
    SettledOnce(s, w, act);
    ActOnHooks(s, w, act);
    forall i | 0 <= i < |added| && added[i].MandateCompletedHook?
      ensures i == |added| - 1 && added[i].req !in s.payments && CompletedBy(DoAct(s, w, act), added[i].mandateId, added[i].req)
    {
      AddedHookOk(s, w, act, i);
    }
    HooksFrame(s, DoAct(s, w, act), added);
    assert HooksOk(DoAct(s, w, act));
  }

  lemma CompletedIsPaid(s: State, mandateId: Hash, req: RequestId)
    requires CompletedBy(s, mandateId, req)
    ensures req in s.payments
  {
  }

  /** A payment row, once there, is not replaced. */
  lemma SettledOnce(s: State, w: WorkerId, act: Act)
    ensures forall r :: r in s.payments ==> r in DoAct(s, w, act).payments && DoAct(s, w, act).payments[r] == s.payments[r]
  {
    hide Charge, GetMandate, Transition;
  }

  lemma NewHookCompletes(s: State, s': State, w: WorkerId)
    requires RegistryOk(s.chain) && WorkerOk(s, w) && At(s, w).Confirmed?
    requires RowsEvolve(s.rows, s'.rows) && Evolves(s.chain, s'.chain)
    requires At(s, w).req in s'.payments && s'.payments[At(s, w).req] == PaymentFrom(At(s, w).row, At(s, w).receipt)
    requires At(s, w).mandate.maxSuccessfulCharges > 0 && At(s, w).mandate.successfulCharges + 1 == At(s, w).mandate.maxSuccessfulCharges
    ensures CompletedBy(s', At(s, w).row.mandateId, At(s, w).req)
  {
    hide RegistryOk;
    var k := At(s, w);
    ConfirmedCompletes(s.chain, k.row, k.mandate, k.receipt);
    MandateStays(s.chain, s'.chain, k.row.mandateId);
    IsChargeNumberStays(s.chain, s'.chain, k.receipt, s.chain.mandates[k.row.mandateId].maxSuccessfulCharges);
  }

  lemma HooksAfterOther(s: State, step: Step)
    requires HooksOk(s) && CoreOk(s) && !step.By?
    ensures HooksOk(Next(s, step))
  {
    RowsNext(s, step);
    ChainNext(s, step);
    OtherOnStatus(s, step);
    hide Next, CoreOk, RegistryOk, Evolves, RowsEvolve, HooksOk;
    HooksFrame(s, Next(s, step), []);
    assert HooksOk(Next(s, step));
  }

  // ---- every run ----

  ghost predicate Safe(s: State)
  {
    CoreOk(s) && SingleSubmitter(s) && PaymentsOk(s) && HooksOk(s)
  }

  lemma StartSafe()
    ensures Safe(START)
  {
    EmptyOk();
    forall w: WorkerId ensures WorkerOk(START, w) { }
  }

  lemma SafeNext(s: State, step: Step)
    requires Safe(s)
    ensures Safe(Next(s, step))
  {
    CoreNext(s, step);
    SingleSubmitterNext(s, step);
    hide Next, DoAct, RegistryOk, Evolves, RowsEvolve, WorkerOk;
    if step.By? {
      ActIsNext(s, step.w, step.act);
      assert WorkerOk(s, step.w);
      ActEvolves(s, step.w, step.act);
      PaymentsAfterAct(s, step.w, step.act);
      HooksAfterAct(s, step.w, step.act);
    } else {
      PaymentsAfterOther(s, step);
      HooksAfterOther(s, step);
    }
  }

  lemma {:induction false} RunSafe(steps: seq<Step>)
    ensures Safe(Steps(START, steps))
  {
    hide Safe, Next;
    if steps == [] {
      StartSafe();
    } else {
      RunSafe(steps[..|steps| - 1]);
      SafeNext(Steps(START, steps[..|steps| - 1]), steps[|steps| - 1]);
    }
  }
}
