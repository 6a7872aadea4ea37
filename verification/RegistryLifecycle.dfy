/**
 * Creation and the payer's controls: what they store, every answer they give,
 * and what they mean for everything that comes after.
 */
module RegistryLifecycle {
  import opened Wrappers
  import opened Limits
  import opened MandateTypes
  import opened RegistrySpec
  import opened RegistryInvariant
  import opened RegistryRuns
  import opened RegistryTheorems
  import opened ChargeHistory

  // ---- creation ----

  /** Terms the contract accepts at this time. */
  predicate ValidInput(input: MandateInput, now: U64)
  {
    && (match input.amountRule case Fixed(a) => 0 < a <= input.maxPerPeriod case Variable(max) => 0 < max <= input.maxPerPeriod)
    && 0 < input.periodSeconds && input.startAt < input.expiresAt && now < input.expiresAt
    && input.payer != input.merchant
  }

  /** The same payer, merchant, asset and nonce have a mandate already. */
  predicate AlreadyCreated(reg: Registry, input: MandateInput)
  {
    MandateHash(input.payer, input.merchant, input.asset, input.clientNonce) in reg.mandates
  }

  /** Every answer of a creation, and the record it stores, field by field. */
  lemma CreateAnswers(reg: Registry, now: U64, auth: set<Address>, input: MandateInput)
    ensures var (reg', r) := Create(reg, now, auth, input);
      var id := MandateHash(input.payer, input.merchant, input.asset, input.clientNonce);
      && (r == Trap <==> input.payer !in auth)
      && (r == Err(DuplicateMandate) <==> input.payer in auth && AlreadyCreated(reg, input))
      && (r == Err(InvalidAmount) <==>
            && input.payer in auth && !AlreadyCreated(reg, input)
            && match input.amountRule case Fixed(a) => a <= 0 case Variable(max) => max <= 0)
      && (r.Ok? <==> input.payer in auth && !AlreadyCreated(reg, input) && ValidInput(input, now))
      && (r.Err? ==> r.error == DuplicateMandate || r.error == InvalidAmount || r.error == InvalidMandateInput)
      && (!r.Ok? ==> reg' == reg)
      && (r.Ok? ==> r.value == id && id !in reg.mandates && reg' == reg.(mandates := reg.mandates[id := reg'.mandates[id]]))
    ensures var (reg', r) := Create(reg, now, auth, input);
      r.Ok? ==>
        var m := reg'.mandates[MandateHash(input.payer, input.merchant, input.asset, input.clientNonce)];
        && m.id == r.value && m.payer == input.payer && m.merchant == input.merchant && m.asset == input.asset
        && m.amountRule == input.amountRule && m.maxPerPeriod == input.maxPerPeriod && m.periodSeconds == input.periodSeconds
        && m.minIntervalSeconds == input.minIntervalSeconds && m.startAt == input.startAt && m.expiresAt == input.expiresAt
        && m.maxSuccessfulCharges == input.maxSuccessfulCharges && m.metadataHash == input.metadataHash && m.createdAt == now
        && m.status == Active && m.successfulCharges == 0 && m.totalCollected == 0 && m.lastChargedAt == None
        && m.currentPeriodStart == input.startAt && m.currentPeriodCollected == 0
  {
  }

  // ---- controls ----

  /** The payer signed for a mandate that exists. */
  predicate PayerSigned(reg: Registry, auth: set<Address>, id: Hash)
  {
    id in reg.mandates && reg.mandates[id].payer in auth
  }

  /** What a control may change: this one record's status, to this. */
  predicate OnlyStatus(reg: Registry, reg': Registry, id: Hash, status: MandateStatus)
    requires id in reg.mandates
  {
    reg' == reg.(mandates := reg.mandates[id := reg.mandates[id].(status := status)])
  }

  /** Answers every control shares. */
  lemma ControlAnswers(reg: Registry, now: U64, auth: set<Address>, id: Hash, control: Control)
    ensures var (reg', r) := ApplyControl(reg, now, auth, id, control);
      && (r == Err(MandateNotFound) <==> id !in reg.mandates)
      && (r == Trap <==> id in reg.mandates && reg.mandates[id].payer !in auth)
      && (r == Err(MandateRevoked) <==> PayerSigned(reg, auth, id) && reg.mandates[id].status == Revoked)
      && (r == Err(MandateCompleted) <==> PayerSigned(reg, auth, id) && reg.mandates[id].status == Completed)
      && (!r.Ok? ==> reg' == reg)
  {
  }

  /** A pause goes through exactly on an active, unexpired mandate, and stores Paused. */
  lemma PauseExactly(reg: Registry, now: U64, auth: set<Address>, id: Hash)
    requires id in reg.mandates ==> reg.mandates[id].status != Expired
    ensures var (reg', r) := ApplyControl(reg, now, auth, id, Pause);
      && (r.Ok? <==> PayerSigned(reg, auth, id) && reg.mandates[id].status == Active && now < reg.mandates[id].expiresAt)
      && (r == Err(MandateNotActive) <==> PayerSigned(reg, auth, id) && reg.mandates[id].status == Paused && now < reg.mandates[id].expiresAt)
      && (r == Err(MandateExpired) <==>
            && PayerSigned(reg, auth, id)
            && (reg.mandates[id].status == Active || reg.mandates[id].status == Paused) && reg.mandates[id].expiresAt <= now)
      && (r.Ok? ==> OnlyStatus(reg, reg', id, Paused))
  {
  }

  /** A resume goes through exactly on a paused, unexpired mandate, and stores Active. */
  lemma ResumeExactly(reg: Registry, now: U64, auth: set<Address>, id: Hash)
    requires id in reg.mandates ==> reg.mandates[id].status != Expired
    ensures var (reg', r) := ApplyControl(reg, now, auth, id, Resume);
      && (r.Ok? <==> PayerSigned(reg, auth, id) && reg.mandates[id].status == Paused && now < reg.mandates[id].expiresAt)
      && (r == Err(InvalidStateTransition) <==> PayerSigned(reg, auth, id) && reg.mandates[id].status == Active && now < reg.mandates[id].expiresAt)
      && (r == Err(MandateExpired) <==>
            && PayerSigned(reg, auth, id)
            && (reg.mandates[id].status == Active || reg.mandates[id].status == Paused) && reg.mandates[id].expiresAt <= now)
      && (r.Ok? ==> OnlyStatus(reg, reg', id, Active))
  {
  }

  /** A revocation is the payer's at any time, expired or paused, until it is revoked or complete. */
  lemma RevokeExactly(reg: Registry, now: U64, auth: set<Address>, id: Hash)
    ensures var (reg', r) := ApplyControl(reg, now, auth, id, Revoke);
      && (r.Ok? <==> PayerSigned(reg, auth, id) && reg.mandates[id].status != Revoked && reg.mandates[id].status != Completed)
      && (r.Ok? ==> OnlyStatus(reg, reg', id, Revoked))
  {
  }

  /** `get_mandate` shows the stored record, as expired from its expiry on unless it is revoked or complete. */
  lemma GetMandateAnswers(reg: Registry, now: int, id: Hash)
    ensures var r := GetMandate(reg, now, id);
      && (id !in reg.mandates ==> r == Err(MandateNotFound))
      && (id in reg.mandates ==>
            var m := reg.mandates[id];
            if now < m.expiresAt || m.status == Revoked || m.status == Completed || m.status == Expired then r == Ok(m)
            else r == Ok(m.(status := Expired)))
  {
  }

  // ---- what comes after ----

  /** No charge of an inactive mandate goes through. */
  lemma InactiveRefuses(reg: Registry, now: U64, auth: set<Address>, token: TokenReply,
                        id: Hash, chargeId: Hash, amount: I128, invoiceHash: Hash)
    requires id in reg.mandates && reg.mandates[id].status != Active
    ensures !Charge(reg, now, auth, token, id, chargeId, amount, invoiceHash).1.Ok?
  {
    hide TimingPlan;
  }

  /**
   * After a revocation, in every continuation: the mandate reads as revoked at
   * every instant, nothing charges it and no control moves it again.
   */
  lemma RevokedForGood(reg: Registry, now: U64, auth: set<Address>, id: Hash, more: seq<Invocation>)
    requires RegistryOk(reg) && ApplyControl(reg, now, auth, id, Revoke).1.Ok?
    ensures var later := Run(ApplyControl(reg, now, auth, id, Revoke).0, more);
      && id in later.mandates && later.mandates[id] == reg.mandates[id].(status := Revoked)
      && (forall at :: GetMandate(later, at, id) == Ok(later.mandates[id]))
      && (forall at: U64, signers: set<Address>, token: TokenReply, chargeId: Hash, amount: I128, invoiceHash: Hash ::
            !Charge(later, at, signers, token, id, chargeId, amount, invoiceHash).1.Ok?)
      && (forall at: U64, signers: set<Address>, control: Control :: !ApplyControl(later, at, signers, id, control).1.Ok?)
  {
    RevokeExactly(reg, now, auth, id);
    ControlKeeps(reg, now, auth, id, Revoke);
    var revoked := ApplyControl(reg, now, auth, id, Revoke).0;
    var later := Run(revoked, more);
    RunEvolves(revoked, more);
    ClosedStays(revoked, later, id);
    hide Run, RegistryOk, Evolves;
    RevokedRecord(later, id);
  }

  lemma ClosedStays(reg: Registry, reg': Registry, id: Hash)
    requires Evolves(reg, reg') && id in reg.mandates && (reg.mandates[id].status == Revoked || reg.mandates[id].status == Completed)
    ensures id in reg'.mandates && reg'.mandates[id] == reg.mandates[id]
  {
    assert MandateEvolves(reg.mandates[id], reg'.mandates[id]);
  }

  lemma RevokedRecord(reg: Registry, id: Hash)
    requires id in reg.mandates && reg.mandates[id].status == Revoked
    ensures forall at :: GetMandate(reg, at, id) == Ok(reg.mandates[id])
    ensures forall at: U64, signers: set<Address>, token: TokenReply, chargeId: Hash, amount: I128, invoiceHash: Hash ::
      !Charge(reg, at, signers, token, id, chargeId, amount, invoiceHash).1.Ok?
    ensures forall at: U64, signers: set<Address>, control: Control :: !ApplyControl(reg, at, signers, id, control).1.Ok?
  {
    forall at: U64, signers: set<Address>, token: TokenReply, chargeId: Hash, amount: I128, invoiceHash: Hash
      ensures !Charge(reg, at, signers, token, id, chargeId, amount, invoiceHash).1.Ok?
    {
      InactiveRefuses(reg, at, signers, token, id, chargeId, amount, invoiceHash);
    }
    forall at: U64, signers: set<Address>, control: Control ensures !ApplyControl(reg, at, signers, id, control).1.Ok? {
      ControlAnswers(reg, at, signers, id, control);
    }
  }

  predicate ResumesNone(invs: seq<Invocation>, id: Hash)
  {
    forall i :: 0 <= i < |invs| ==> invs[i].call != ControlCall(id, Resume)
  }

  /** The charges of one mandate that the history holds. */
  predicate SameCharges(reg: Registry, reg': Registry, id: Hash)
  {
    Charges(reg'.charged, id) == Charges(reg.charged, id)
  }

  lemma ChargeOfOther(reg: Registry, inv: Invocation, id: Hash)
    requires RegistryOk(reg) && id in reg.mandates && (reg.mandates[id].status == Paused || reg.mandates[id].status == Revoked)
    requires inv.call.ChargeCall?
    ensures var reg' := Apply(reg, inv); id in reg'.mandates && reg'.mandates[id] == reg.mandates[id] && SameCharges(reg, reg', id)
  {
    var c := inv.call;
    var r := Charge(reg, inv.now, inv.auth, inv.token, c.mandateId, c.chargeId, c.amount, c.invoiceHash).1;
    if r.Ok? {
      if c.mandateId == id { InactiveRefuses(reg, inv.now, inv.auth, inv.token, id, c.chargeId, c.amount, c.invoiceHash); }
      ChargeRecords(reg, inv.now, inv.auth, inv.token, c.mandateId, c.chargeId, c.amount, c.invoiceHash);
      MandateHasId(reg, c.mandateId);
      hide RegistryOk, Charge, AfterCharge, TimingPlan;
      var m := reg.mandates[c.mandateId];
      AfterKeepsId(m, inv.now, c.amount, TimingPlan(m, inv.now, c.amount).value);
      Extend(reg.charged, r.value, id, 0, 0);
    } else {
      ChargeRefused(reg, inv.now, inv.auth, inv.token, c.mandateId, c.chargeId, c.amount, c.invoiceHash);
      hide RegistryOk, Charge;
    }
  }

  lemma MandateHasId(reg: Registry, id: Hash)
    requires RegistryOk(reg) && id in reg.mandates
    ensures reg.mandates[id].id == id && reg.mandates[id].status != Expired
  {
    assert MandateOk(reg.mandates[id], reg.charged);
  }

  lemma AfterKeepsId(m: Mandate, now: U64, amount: I128, plan: Plan)
    requires AfterCharge(m, now, amount, plan).Some?
    ensures AfterCharge(m, now, amount, plan).value.id == m.id
  {
  }

  /** One call other than a resume leaves a paused mandate paused or revokes it, and does not charge it. */
  lemma PausedNext(reg: Registry, inv: Invocation, id: Hash)
    requires RegistryOk(reg) && id in reg.mandates && (reg.mandates[id].status == Paused || reg.mandates[id].status == Revoked)
    requires inv.call != ControlCall(id, Resume)
    ensures var reg' := Apply(reg, inv);
      && id in reg'.mandates && SameCharges(reg, reg', id)
      && (reg'.mandates[id] == reg.mandates[id] || reg'.mandates[id] == reg.mandates[id].(status := Revoked))
  {
    match inv.call
    case ChargeCall(_, _, _, _) => ChargeOfOther(reg, inv, id);
    case RefundCall(m, p, amount, r) => RefundRecords(reg, inv.now, inv.auth, inv.token, m, p, amount, r); hide RegistryOk, Refund, RefundPlan;
    case CreateCall(input) => CreateAnswers(reg, inv.now, inv.auth, input); hide RegistryOk, Create;
    case ControlCall(other, control) =>
      MandateHasId(reg, id);
      if other in reg.mandates { MandateHasId(reg, other); }
      hide RegistryOk;
      ControlOnOther(reg, inv.now, inv.auth, other, control, id);
  }

  lemma ControlOnOther(reg: Registry, now: U64, auth: set<Address>, other: Hash, control: Control, id: Hash)
    requires id in reg.mandates && (reg.mandates[id].status == Paused || reg.mandates[id].status == Revoked)
    requires other in reg.mandates ==> reg.mandates[other].status != Expired
    requires (other, control) != (id, Resume)
    ensures var reg' := ApplyControl(reg, now, auth, other, control).0;
      && id in reg'.mandates && reg'.charged == reg.charged
      && (reg'.mandates[id] == reg.mandates[id] || reg'.mandates[id] == reg.mandates[id].(status := Revoked))
  {
    ControlAnswers(reg, now, auth, other, control);
    PauseExactly(reg, now, auth, other);
    ResumeExactly(reg, now, auth, other);
    RevokeExactly(reg, now, auth, other);
    hide ApplyControl;
  }

  lemma {:induction false} PausedRun(reg: Registry, id: Hash, more: seq<Invocation>)
    requires RegistryOk(reg) && id in reg.mandates && (reg.mandates[id].status == Paused || reg.mandates[id].status == Revoked)
    requires ResumesNone(more, id)
    ensures var later := Run(reg, more);
      && id in later.mandates && SameCharges(reg, later, id)
      && (later.mandates[id] == reg.mandates[id] || later.mandates[id] == reg.mandates[id].(status := Revoked))
  {
    if more != [] {
      hide RegistryOk, Apply;
      var front, last := more[..|more| - 1], more[|more| - 1];
      assert forall i :: 0 <= i < |front| ==> front[i] == more[i];
      assert last == more[|more| - 1] && last.call != ControlCall(id, Resume);
      PausedRun(reg, id, front);
      RunKeeps(reg, front);
      PausedNext(Run(reg, front), last, id);
    }
  }

  /**
   * After a pause, in every continuation without a resume of the mandate: its
   * record is the one before the pause but for the status, paused or revoked, it
   * has not been charged, and no charge of it goes through.
   */
  lemma PausedUntilResumed(reg: Registry, now: U64, auth: set<Address>, id: Hash, more: seq<Invocation>)
    requires RegistryOk(reg) && ApplyControl(reg, now, auth, id, Pause).1.Ok? && ResumesNone(more, id)
    ensures var later := Run(ApplyControl(reg, now, auth, id, Pause).0, more);
      && id in later.mandates && SameCharges(reg, later, id)
      && (later.mandates[id] == reg.mandates[id].(status := Paused) || later.mandates[id] == reg.mandates[id].(status := Revoked))
      && forall at: U64, signers: set<Address>, token: TokenReply, chargeId: Hash, amount: I128, invoiceHash: Hash ::
           !Charge(later, at, signers, token, id, chargeId, amount, invoiceHash).1.Ok?
  {
    ControlAnswers(reg, now, auth, id, Pause);
    MandateHasId(reg, id);
    PauseExactly(reg, now, auth, id);
    ControlKeeps(reg, now, auth, id, Pause);
    var paused := ApplyControl(reg, now, auth, id, Pause).0;
    PausedRun(paused, id, more);
    hide Run, RegistryOk, ApplyControl, Charge;
    forall at: U64, signers: set<Address>, token: TokenReply, chargeId: Hash, amount: I128, invoiceHash: Hash
      ensures !Charge(Run(paused, more), at, signers, token, id, chargeId, amount, invoiceHash).1.Ok?
    {
      InactiveRefuses(Run(paused, more), at, signers, token, id, chargeId, amount, invoiceHash);
    }
  }

  /**
   * A resume gives back the record from before the pause, whatever the others
   * did in between, and admits again exactly the charges that meet the other
   * rules.
   */
  lemma ResumeRestores(reg: Registry, now: U64, auth: set<Address>, id: Hash, more: seq<Invocation>, now': U64, auth': set<Address>)
    requires RegistryOk(reg) && ApplyControl(reg, now, auth, id, Pause).1.Ok? && ResumesNone(more, id)
    requires ApplyControl(Run(ApplyControl(reg, now, auth, id, Pause).0, more), now', auth', id, Resume).1.Ok?
    ensures var resumed := ApplyControl(Run(ApplyControl(reg, now, auth, id, Pause).0, more), now', auth', id, Resume).0;
      && id in resumed.mandates && resumed.mandates[id] == reg.mandates[id] && 0 < reg.mandates[id].periodSeconds
      && forall at: U64, signers: set<Address>, chargeId: Hash, amount: I128 ::
           ChargePlan(resumed, at, signers, id, chargeId, amount).Ok?
           <==> MeetsEveryRule(reg.mandates[id], resumed.charged, at, signers, chargeId, amount)
  {
    var paused := ApplyControl(reg, now, auth, id, Pause).0;
    var later := Run(paused, more);
    var resumed := ApplyControl(later, now', auth', id, Resume).0;
    PausedUntilResumed(reg, now, auth, id, more);
    ControlAnswers(reg, now, auth, id, Pause);
    MandateHasId(reg, id);
    PauseExactly(reg, now, auth, id);
    ControlKeeps(reg, now, auth, id, Pause);
    RunKeeps(paused, more);
    MandateHasId(later, id);
    ResumeExactly(later, now', auth', id);
    ControlKeeps(later, now', auth', id, Resume);
    hide Run, ApplyControl, Charge, ChargePlan, RegistryOk, MeetsEveryRule;
    PositivePeriod(resumed, id);
    forall at: U64, signers: set<Address>, chargeId: Hash, amount: I128
      ensures ChargePlan(resumed, at, signers, id, chargeId, amount).Ok?
         <==> MeetsEveryRule(reg.mandates[id], resumed.charged, at, signers, chargeId, amount)
    {
      ChargePlanMeaning(resumed, at, signers, id, chargeId, amount);
    }
  }

  lemma PositivePeriod(reg: Registry, id: Hash)
    requires RegistryOk(reg) && id in reg.mandates
    ensures 0 < reg.mandates[id].periodSeconds
  {
    assert MandateOk(reg.mandates[id], reg.charged);
  }
}
