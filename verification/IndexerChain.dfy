/**
 * The index against the contract itself: the stream is what the registry's
 * calls published, and what the rows and notices say is what those calls did.
 */
module IndexerChain {
  import opened Wrappers
  import opened Limits
  import opened MandateTypes
  import opened IndexerSpec
  import opened IndexerSafety
  import opened IndexerTheorems
  import R = RegistrySpec
  import RegistryInvariant
  import RegistryRuns
  import RegistryLifecycle

  /** A lifecycle event and the ledger it lies in. */
  datatype Stamped = Stamped(ledger: nat, event: Lifecycle)

  function Stamp(ledger: nat, events: seq<Lifecycle>): seq<Stamped>
  {
    seq(|events|, i requires 0 <= i < |events| => Stamped(ledger, events[i]))
  }

  /** What a history of calls published, call `i` in ledger `ledgers[i]`. */
  function Stream(ledgers: seq<nat>, calls: seq<R.Invocation>): seq<Stamped>
    requires |ledgers| == |calls|
    decreases calls
  {
    if calls == [] then []
    else
      var n := |calls| - 1;
      Stream(ledgers[..n], calls[..n]) + Stamp(ledgers[n], R.Published(R.Run(R.EMPTY, calls[..n]), calls[n]))
  }

  /** What the indexer can decode of an RPC stream. */
  function DecodedStream(log: seq<RawEvent>): seq<Stamped>
  {
    if log == [] then []
    else
      var last := log[|log| - 1];
      DecodedStream(log[..|log| - 1]) + if last.lifecycle.Some? then [Stamped(last.ledger, last.lifecycle.value)] else []
  }

  /** The latest event of a mandate. */
  function LatestOf(stream: seq<Stamped>, id: Hash): Option<Stamped>
  {
    if stream == [] then None
    else if stream[|stream| - 1].event.mandateId == id then Some(stream[|stream| - 1])
    else LatestOf(stream[..|stream| - 1], id)
  }

  // ---- the stream and the storage ----

  /** What an event tells is what the storage holds. */
  predicate Tells(event: Lifecycle, m: Mandate)
  {
    && event.payer == m.payer && event.merchant == m.merchant && event.asset == m.asset
    && match event.kind
       case CreatedEvent => m.status == Active
       case PausedEvent => m.status == Paused
       case ResumedEvent => m.status == Active
       case RevokedEvent => m.status == Revoked
       case CompletedEvent => m.status == Completed
  }

  /** What a later event-free call keeps of a record. */
  predicate SameStanding(m: Mandate, m': Mandate)
  {
    m'.payer == m.payer && m'.merchant == m.merchant && m'.asset == m.asset && m'.status == m.status
  }

  predicate About(events: seq<Lifecycle>, id: Hash)
  {
    |events| == 1 && events[0].mandateId == id
  }

  /** At most one event, about the mandate whose status was written. */
  ghost predicate Changes(events: seq<Lifecycle>, reg: R.Registry, reg': R.Registry, id: Hash)
  {
    && |events| <= 1
    && if About(events, id) then id in reg'.mandates && Tells(events[0], reg'.mandates[id])
       else
         && (id in reg'.mandates <==> id in reg.mandates)
         && (id in reg.mandates ==> SameStanding(reg.mandates[id], reg'.mandates[id]))
  }

  /** What a call publishes is the change it makes. */
  ghost predicate PublishesChange(reg: R.Registry, inv: R.Invocation, id: Hash)
  {
    Changes(R.Published(reg, inv), reg, R.Apply(reg, inv), id)
  }

  lemma CreateChange(reg: R.Registry, inv: R.Invocation, id: Hash)
    requires inv.call.CreateCall?
    ensures PublishesChange(reg, inv, id)
  {
    RegistryLifecycle.CreateAnswers(reg, inv.now, inv.auth, inv.call.input);
    hide R.Create;
  }

  /** The status a control writes and the kind of event it publishes. */
  predicate Writing(control: R.Control, kind: LifecycleKind, status: MandateStatus)
  {
    match control
    case Pause => kind == PausedEvent && status == Paused
    case Resume => kind == ResumedEvent && status == Active
    case Revoke => kind == RevokedEvent && status == Revoked
  }

  lemma ControlWrites(reg: R.Registry, now: U64, auth: set<Address>, id: Hash, control: R.Control)
    requires id in reg.mandates ==> reg.mandates[id].status != Expired
    ensures var (reg', r) := R.ApplyControl(reg, now, auth, id, control);
      if r.Ok? then
        && id in reg.mandates && id in reg'.mandates
        && RegistryLifecycle.OnlyStatus(reg, reg', id, reg'.mandates[id].status)
        && Writing(control, R.ControlKind(control), reg'.mandates[id].status)
      else reg' == reg
  {
    RegistryLifecycle.ControlAnswers(reg, now, auth, id, control);
    match control
    case Pause => RegistryLifecycle.PauseExactly(reg, now, auth, id); hide R.ApplyControl;
    case Resume => RegistryLifecycle.ResumeExactly(reg, now, auth, id); hide R.ApplyControl;
    case Revoke => RegistryLifecycle.RevokeExactly(reg, now, auth, id); hide R.ApplyControl;
  }

  lemma StatusChanges(reg: R.Registry, reg': R.Registry, controlled: Hash, control: R.Control, id: Hash)
    requires controlled in reg.mandates && reg.mandates[controlled].id == controlled && controlled in reg'.mandates
    requires RegistryLifecycle.OnlyStatus(reg, reg', controlled, reg'.mandates[controlled].status)
    requires Writing(control, R.ControlKind(control), reg'.mandates[controlled].status)
    ensures Changes(R.ControlEvents(reg', Ok(()), controlled, control), reg, reg', id)
  {
    hide R.ControlKind;
  }

  lemma NothingChanges(reg: R.Registry, id: Hash)
    ensures Changes([], reg, reg, id)
  {
  }

  lemma ControlChange(reg: R.Registry, inv: R.Invocation, id: Hash)
    requires RegistryRuns.RegistryOk(reg) && inv.call.ControlCall?
    ensures PublishesChange(reg, inv, id)
  {
    var c := inv.call;
    if c.id in reg.mandates { RegistryLifecycle.MandateHasId(reg, c.id); }
    hide R.ApplyControl, RegistryRuns.RegistryOk, Changes, Writing, RegistryLifecycle.OnlyStatus;
    ControlWrites(reg, inv.now, inv.auth, c.id, c.control);
    var (reg', r) := R.ApplyControl(reg, inv.now, inv.auth, c.id, c.control);
    if r.Ok? { StatusChanges(reg, reg', c.id, c.control, id); } else { NothingChanges(reg, id); }
  }

  /** An accepted charge leaves a record Active or completes it. */
  lemma ChargeWrites(reg: R.Registry, now: U64, auth: set<Address>, token: R.TokenReply,
                     mandateId: Hash, chargeId: Hash, amount: I128, invoiceHash: Hash)
    requires R.Charge(reg, now, auth, token, mandateId, chargeId, amount, invoiceHash).1.Ok?
    requires mandateId in reg.mandates ==> reg.mandates[mandateId].id == mandateId
    ensures var reg' := R.Charge(reg, now, auth, token, mandateId, chargeId, amount, invoiceHash).0;
      && mandateId in reg.mandates && mandateId in reg'.mandates
      && reg'.mandates == reg.mandates[mandateId := reg'.mandates[mandateId]]
      && reg.mandates[mandateId].status == Active
      && Accounts(reg.mandates[mandateId], reg'.mandates[mandateId])
  {
    hide R.TimingPlan;
  }

  predicate Accounts(m: Mandate, m': Mandate)
  {
    m'.id == m.id && m'.payer == m.payer && m'.merchant == m.merchant && m'.asset == m.asset && (m'.status == m.status || m'.status == Completed)
  }

  lemma ChargeChanges(reg: R.Registry, reg': R.Registry, r: Outcome<PaymentReceipt>, mandateId: Hash, id: Hash)
    requires r.Ok? && mandateId in reg.mandates && mandateId in reg'.mandates
    requires reg'.mandates == reg.mandates[mandateId := reg'.mandates[mandateId]]
    requires reg.mandates[mandateId].id == mandateId && reg.mandates[mandateId].status == Active
    requires Accounts(reg.mandates[mandateId], reg'.mandates[mandateId])
    ensures Changes(R.ChargeEvents(reg', r, mandateId), reg, reg', id)
  {
  }

  lemma ChargeChange(reg: R.Registry, inv: R.Invocation, id: Hash)
    requires RegistryRuns.RegistryOk(reg) && inv.call.ChargeCall?
    ensures PublishesChange(reg, inv, id)
  {
    var c := inv.call;
    var (reg', r) := R.Charge(reg, inv.now, inv.auth, inv.token, c.mandateId, c.chargeId, c.amount, c.invoiceHash);
    if c.mandateId in reg.mandates { RegistryLifecycle.MandateHasId(reg, c.mandateId); }
    hide RegistryRuns.RegistryOk, R.Charge, Changes, Accounts;
    if r.Ok? {
      ChargeWrites(reg, inv.now, inv.auth, inv.token, c.mandateId, c.chargeId, c.amount, c.invoiceHash);
      ChargeChanges(reg, reg', r, c.mandateId, id);
    } else {
      RegistryRuns.ChargeRefused(reg, inv.now, inv.auth, inv.token, c.mandateId, c.chargeId, c.amount, c.invoiceHash);
      NothingChanges(reg, id);
    }
  }

  lemma RefundChange(reg: R.Registry, inv: R.Invocation, id: Hash)
    requires inv.call.RefundCall?
    ensures PublishesChange(reg, inv, id)
  {
    hide R.RefundPlan;
  }

  lemma CallChange(reg: R.Registry, inv: R.Invocation, id: Hash)
    requires RegistryRuns.RegistryOk(reg)
    ensures PublishesChange(reg, inv, id)
  {
    hide PublishesChange, RegistryRuns.RegistryOk;
    match inv.call
    case CreateCall(_) => CreateChange(reg, inv, id);
    case ControlCall(_, _) => ControlChange(reg, inv, id);
    case ChargeCall(_, _, _, _) => ChargeChange(reg, inv, id);
    case RefundCall(_, _, _, _) => RefundChange(reg, inv, id);
  }

  lemma LatestAppend(stream: seq<Stamped>, ledger: nat, events: seq<Lifecycle>, id: Hash)
    requires |events| <= 1
    ensures LatestOf(stream + Stamp(ledger, events), id) ==
      if About(events, id) then Some(Stamped(ledger, events[0])) else LatestOf(stream, id)
  {
    if events == [] {
      assert stream + Stamp(ledger, events) == stream;
    } else {
      assert (stream + Stamp(ledger, events))[..|stream|] == stream;
    }
  }

  /** After any history of calls: a mandate is stored exactly when an event named it, and it stands as its latest event tells. */
  lemma {:induction false} StorageFollowsStream(ledgers: seq<nat>, calls: seq<R.Invocation>, id: Hash)
    requires |ledgers| == |calls|
    ensures var reg, latest := R.Run(R.EMPTY, calls), LatestOf(Stream(ledgers, calls), id);
      && (latest.Some? <==> id in reg.mandates)
      && (latest.Some? ==> Tells(latest.value.event, reg.mandates[id]))
  {
    if calls != [] {
      var n := |calls| - 1;
      var reg := R.Run(R.EMPTY, calls[..n]);
      StorageFollowsStream(ledgers[..n], calls[..n], id);
      RegistryRuns.EmptyOk();
      RegistryRuns.RunKeeps(R.EMPTY, calls[..n]);
      CallChange(reg, calls[n], id);
      hide RegistryRuns.RegistryOk, R.Published, R.Apply, Tells, SameStanding, LatestOf;
      LatestAppend(Stream(ledgers[..n], calls[..n]), ledgers[n], R.Published(reg, calls[n]), id);
      StandingGoesOn(LatestOf(Stream(ledgers[..n], calls[..n]), id), R.Published(reg, calls[n]), ledgers[n], reg, R.Apply(reg, calls[n]), id);
    }
  }

  lemma StandingGoesOn(latest: Option<Stamped>, events: seq<Lifecycle>, ledger: nat, reg: R.Registry, reg': R.Registry, id: Hash)
    requires (latest.Some? <==> id in reg.mandates) && (latest.Some? ==> Tells(latest.value.event, reg.mandates[id]))
    requires Changes(events, reg, reg', id)
    ensures var next := if About(events, id) then Some(Stamped(ledger, events[0])) else latest;
      (next.Some? <==> id in reg'.mandates) && (next.Some? ==> Tells(next.value.event, reg'.mandates[id]))
  {
  }

  // ---- the stream and the log ----

  /** Event `p` of a log is the last of its mandate. */
  ghost predicate LastInLog(log: seq<RawEvent>, p: nat, id: Hash)
  {
    && p < |log| && log[p].lifecycle.Some? && log[p].lifecycle.value.mandateId == id
    && forall q :: p < q < |log| && log[q].lifecycle.Some? ==> log[q].lifecycle.value.mandateId != id
  }

  lemma {:induction false} LatestInLog(log: seq<RawEvent>, p: nat, id: Hash)
    requires LastInLog(log, p, id)
    ensures LatestOf(DecodedStream(log), id) == Some(Stamped(log[p].ledger, log[p].lifecycle.value))
  {
    var n := |log| - 1;
    var front := DecodedStream(log[..n]);
    if log[n].lifecycle.Some? {
      assert DecodedStream(log) == front + Stamp(log[n].ledger, [log[n].lifecycle.value]);
      LatestAppend(front, log[n].ledger, [log[n].lifecycle.value], id);
    } else {
      assert DecodedStream(log) == front;
    }
    if p < n {
      assert LastInLog(log[..n], p, id);
      LatestInLog(log[..n], p, id);
    }
  }

  lemma OlderIsOther(log: seq<RawEvent>, latest: nat, merchants: map<Address, MerchantId>, id: Hash, p: nat, q: nat)
    requires LogOk(log, latest) && DistinctLedgers(log, merchants, id) && Writes(log, merchants, p, id)
    requires p < q < |log| && log[q].lifecycle.Some?
    requires Writes(log, merchants, q, id) ==> log[q].ledger <= log[p].ledger
    ensures log[q].lifecycle.value.mandateId != id
  {
    assert Writes(log, merchants, q, id) <==> log[q].lifecycle.value.mandateId == id;
  }

  lemma WritesIsAbout(log: seq<RawEvent>, merchants: map<Address, MerchantId>, id: Hash, p: nat)
    requires Writes(log, merchants, p, id)
    ensures p < |log| && log[p].lifecycle.Some? && log[p].lifecycle.value.mandateId == id
  {
  }

  /** With a mandate's events in different ledgers, the one in the newest ledger is the last. */
  lemma NewestIsLast(log: seq<RawEvent>, latest: nat, merchants: map<Address, MerchantId>, id: Hash, p: nat)
    requires LogOk(log, latest) && DistinctLedgers(log, merchants, id) && Writes(log, merchants, p, id)
    requires forall q: nat :: Writes(log, merchants, q, id) ==> log[q].ledger <= log[p].ledger
    ensures LastInLog(log, p, id)
  {
    hide DistinctLedgers, Writes;
    forall q | p < q < |log| && log[q].lifecycle.Some? ensures log[q].lifecycle.value.mandateId != id {
      OlderIsOther(log, latest, merchants, id, p, q);
    }
    assert LastInLog(log, p, id) by { WritesIsAbout(log, merchants, id, p); }
  }

  lemma LogIsOk(s: State, steps: seq<Step>)
    requires Fresh(s)
    ensures LogOk(Run(s, steps).log, Run(s, steps).latest)
  {
    IndexerRun(s, steps);
    hide Run, LogOk, TicksOk, DeliveriesOk, RowsOk, NothingPassed;
  }

  /** The row of a mandate against the record the registry stores. */
  predicate ShowsRecord(r: State, id: Hash, mandates: map<Hash, Mandate>)
  {
    && id in mandates && id in r.index
    && r.index[id].status == mandates[id].status
    && r.index[id].payerAddress == mandates[id].payer && r.index[id].merchantAddress == mandates[id].merchant
    && mandates[id].merchant in r.merchants && r.index[id].merchantId == r.merchants[mandates[id].merchant]
  }

  /** The cursor has passed the event at `latest`, the newest of its mandate, whose events lie in different ledgers. */
  ghost predicate PassedNewest(r: State, id: Hash, latest: nat)
  {
    && DistinctLedgers(r.log, r.merchants, id) && Writes(r.log, r.merchants, latest, id)
    && (forall q: nat :: Writes(r.log, r.merchants, q, id) ==> r.log[q].ledger <= r.log[latest].ledger)
    && r.cursor.Some? && r.start.Some? && r.start.value <= latest < r.cursor.value.position
  }

  lemma RowTells(r: State, id: Hash, latest: nat, mandates: map<Hash, Mandate>)
    requires LastInLog(r.log, latest, id) && id in r.index && id in mandates
    requires var event := r.log[latest].lifecycle.value;
      r.index[id].status == StatusFor(event.kind) && ShowsParties(r, id, event) && Tells(event, mandates[id])
    ensures ShowsRecord(r, id, mandates)
  {
  }

  /**
   * What the index shows is what the contract stores: let the decoded stream be
   * what a history of registry calls published, and the cursor have passed a
   * mandate's latest event. Then its row carries the status, the payer and the
   * merchant that the registry stores for it after all those calls.
   */
  lemma IndexShowsChain(s: State, steps: seq<Step>, ledgers: seq<nat>, calls: seq<R.Invocation>, id: Hash, latest: nat)
    requires Fresh(s) && ContinuousRun(s, steps) && |ledgers| == |calls|
    requires DecodedStream(Run(s, steps).log) == Stream(ledgers, calls)
    requires PassedNewest(Run(s, steps), id, latest)
    ensures ShowsRecord(Run(s, steps), id, R.Run(R.EMPTY, calls).mandates)
  {
    var r := Run(s, steps);
    LogIsOk(s, steps);
    IndexFollowsChain(s, steps, id, latest);
    NewestIsLast(r.log, r.latest, r.merchants, id, latest);
    hide *;
    LatestInLog(r.log, latest, id);
    StorageFollowsStream(ledgers, calls, id);
    RowTells(r, id, latest, R.Run(R.EMPTY, calls).mandates);
  }

  // ---- notices and calls ----

  /** A delivery says what a call did, to the merchant of the mandate. */
  ghost predicate Announces(d: Delivery, reg: R.Registry, inv: R.Invocation, merchants: map<Address, MerchantId>)
  {
    match inv.call
    case CreateCall(input) =>
      && d.eventType == ActiveNotice
      && R.Create(reg, inv.now, inv.auth, input).1 == Ok(d.about.mandateId)
      && input.merchant in merchants && d.merchantId == merchants[input.merchant]
    case ControlCall(id, control) =>
      && R.ApplyControl(reg, inv.now, inv.auth, id, control).1.Ok?
      && d.about.mandateId == id && id in reg.mandates
      && reg.mandates[id].merchant in merchants && d.merchantId == merchants[reg.mandates[id].merchant]
      && (match control case Pause => d.eventType == PausedNotice case Resume => d.eventType == ResumedNotice case Revoke => d.eventType == RevokedNotice)
    case _ => false
  }

  /** Call `i` of a history published this. */
  predicate PublishedBy(calls: seq<R.Invocation>, i: nat, e: Lifecycle)
  {
    i < |calls| && e in R.Published(R.Run(R.EMPTY, calls[..i]), calls[i])
  }

  lemma {:induction false} StreamFromCall(ledgers: seq<nat>, calls: seq<R.Invocation>, e: Stamped)
    requires |ledgers| == |calls| && e in Stream(ledgers, calls)
    ensures exists i: nat :: PublishedBy(calls, i, e.event) && ledgers[i] == e.ledger
  {
    var n := |calls| - 1;
    hide R.Published, R.Run;
    if e in Stream(ledgers[..n], calls[..n]) {
      StreamFromCall(ledgers[..n], calls[..n], e);
      var i: nat :| PublishedBy(calls[..n], i, e.event) && ledgers[..n][i] == e.ledger;
      assert calls[..n][..i] == calls[..i];
      assert PublishedBy(calls, i, e.event);
    } else {
      assert PublishedBy(calls, n, e.event);
    }
  }

  lemma {:induction false} CallInStream(ledgers: seq<nat>, calls: seq<R.Invocation>, i: nat, e: Lifecycle)
    requires |ledgers| == |calls| && PublishedBy(calls, i, e)
    ensures Stamped(ledgers[i], e) in Stream(ledgers, calls)
  {
    var n := |calls| - 1;
    hide R.Published, R.Run;
    if i < n {
      assert calls[..n][..i] == calls[..i];
      CallInStream(ledgers[..n], calls[..n], i, e);
    } else {
      var events := R.Published(R.Run(R.EMPTY, calls[..n]), calls[n]);
      var k :| 0 <= k < |events| && events[k] == e;
      assert Stamp(ledgers[n], events)[k] == Stamped(ledgers[n], e);
    }
  }

  lemma {:induction false} InLog(log: seq<RawEvent>, e: Stamped)
    ensures e in DecodedStream(log) <==> exists p :: 0 <= p < |log| && log[p].lifecycle == Some(e.event) && log[p].ledger == e.ledger
  {
    if log != [] {
      var n := |log| - 1;
      InLog(log[..n], e);
      assert forall p :: 0 <= p < n ==> log[..n][p] == log[p];
    }
  }

  lemma ReachedOk(calls: seq<R.Invocation>, i: nat)
    requires i <= |calls|
    ensures RegistryRuns.RegistryOk(R.Run(R.EMPTY, calls[..i]))
  {
    RegistryRuns.EmptyOk();
    RegistryRuns.RunKeeps(R.EMPTY, calls[..i]);
  }

  /** What a notice about a published event must say of the call. */
  lemma NoticeOfCall(reg: R.Registry, inv: R.Invocation, e: Lifecycle, d: Delivery, merchants: map<Address, MerchantId>)
    requires RegistryRuns.RegistryOk(reg) && e in R.Published(reg, inv) && e.merchant in merchants
    requires d.about == e && d.merchantId == merchants[e.merchant] && NoticeFor(e.kind) == Some(d.eventType)
    ensures Announces(d, reg, inv, merchants)
  {
    match inv.call
    case CreateCall(input) => hide RegistryRuns.RegistryOk; NoticeOfCreation(reg, inv, e, d, merchants);
    case ControlCall(id, control) =>
      if id in reg.mandates { RegistryLifecycle.MandateHasId(reg, id); }
      hide RegistryRuns.RegistryOk;
      NoticeOfControl(reg, inv, e, d, merchants);
    case ChargeCall(_, _, _, _) => hide RegistryRuns.RegistryOk; ChargesAreNotNoticed(reg, inv, e);
    case RefundCall(_, _, _, _) => hide RegistryRuns.RegistryOk;
  }

  lemma ChargesAreNotNoticed(reg: R.Registry, inv: R.Invocation, e: Lifecycle)
    requires inv.call.ChargeCall? && e in R.Published(reg, inv)
    ensures NoticeFor(e.kind) == None
  {
    hide R.Charge;
  }

  lemma NoticeOfCreation(reg: R.Registry, inv: R.Invocation, e: Lifecycle, d: Delivery, merchants: map<Address, MerchantId>)
    requires inv.call.CreateCall? && e in R.Published(reg, inv) && e.merchant in merchants
    requires d.about == e && d.merchantId == merchants[e.merchant] && NoticeFor(e.kind) == Some(d.eventType)
    ensures Announces(d, reg, inv, merchants)
  {
    RegistryLifecycle.CreateAnswers(reg, inv.now, inv.auth, inv.call.input);
    hide R.Create;
  }

  lemma NoticeOfControl(reg: R.Registry, inv: R.Invocation, e: Lifecycle, d: Delivery, merchants: map<Address, MerchantId>)
    requires inv.call.ControlCall? && e in R.Published(reg, inv) && e.merchant in merchants
    requires inv.call.id in reg.mandates ==> reg.mandates[inv.call.id].id == inv.call.id && reg.mandates[inv.call.id].status != Expired
    requires d.about == e && d.merchantId == merchants[e.merchant] && NoticeFor(e.kind) == Some(d.eventType)
    ensures Announces(d, reg, inv, merchants)
  {
    ControlWrites(reg, inv.now, inv.auth, inv.call.id, inv.call.control);
    hide R.ApplyControl;
  }

  /** Every notice tells of a call that went through: a creation, a pause, a resume or a revocation, to its own merchant. */
  lemma NoticesFollowCalls(s: State, steps: seq<Step>, ledgers: seq<nat>, calls: seq<R.Invocation>, d: Delivery)
    requires Fresh(s) && |ledgers| == |calls| && DecodedStream(Run(s, steps).log) == Stream(ledgers, calls)
    requires d in Run(s, steps).deliveries
    ensures exists i: nat :: i < |calls| && Announces(d, R.Run(R.EMPTY, calls[..i]), calls[i], Run(s, steps).merchants)
  {
    NoOtherDelivery(s, steps, d);
    AppliedWithin(s, steps);
    var r := Run(s, steps);
    hide Run, Fresh, R.Run, Announces, Stream, DecodedStream;
    var p :| p in r.applied && Notifies(r, p) && d == DeliveryFor(r, p) && d.about.kind != CompletedEvent;
    var e := Stamped(r.log[p].ledger, r.log[p].lifecycle.value);
    InLog(r.log, e);
    StreamFromCall(ledgers, calls, e);
    var i: nat :| PublishedBy(calls, i, e.event) && ledgers[i] == e.ledger;
    ReachedOk(calls, i);
    hide RegistryRuns.RegistryOk, R.Published;
    NoticeOfCall(R.Run(R.EMPTY, calls[..i]), calls[i], e.event, d, r.merchants);
  }

  lemma AppliedWithin(s: State, steps: seq<Step>)
    requires Fresh(s)
    ensures forall p :: p in Run(s, steps).applied ==> p < |Run(s, steps).log|
  {
    IndexerRun(s, steps);
    hide Run, LogOk, TicksOk, NothingPassed, RowsOk, DeliveriesOk;
  }

  /** A creation or a control that goes through; a completing charge has no notice here. */
  ghost predicate GoesThrough(reg: R.Registry, inv: R.Invocation, id: Hash)
  {
    match inv.call
    case CreateCall(input) => R.Create(reg, inv.now, inv.auth, input).1 == Ok(id)
    case ControlCall(controlled, control) => controlled == id && R.ApplyControl(reg, inv.now, inv.auth, id, control).1.Ok?
    case _ => false
  }

  /** It publishes this event, of a kind that is notified. */
  ghost predicate PublishesNotice(reg: R.Registry, inv: R.Invocation, id: Hash, e: Lifecycle)
  {
    && e in R.Published(reg, inv) && e.mandateId == id && NoticeFor(e.kind).Some?
    && id in R.Apply(reg, inv).mandates && e.merchant == R.Apply(reg, inv).mandates[id].merchant
  }

  lemma CreationPublishes(reg: R.Registry, inv: R.Invocation, id: Hash) returns (e: Lifecycle)
    requires inv.call.CreateCall? && GoesThrough(reg, inv, id)
    ensures PublishesNotice(reg, inv, id, e)
  {
    RegistryLifecycle.CreateAnswers(reg, inv.now, inv.auth, inv.call.input);
    hide R.Create;
    e := R.Published(reg, inv)[0];
  }

  lemma ControlPublishes(reg: R.Registry, inv: R.Invocation, id: Hash) returns (e: Lifecycle)
    requires inv.call.ControlCall? && GoesThrough(reg, inv, id)
    requires id in reg.mandates ==> reg.mandates[id].id == id && reg.mandates[id].status != Expired
    ensures PublishesNotice(reg, inv, id, e)
  {
    hide R.ApplyControl;
    ControlWrites(reg, inv.now, inv.auth, id, inv.call.control);
    e := R.Published(reg, inv)[0];
  }

  /** Its event, of a kind that is notified. */
  lemma GoesThroughPublishes(reg: R.Registry, inv: R.Invocation, id: Hash) returns (e: Lifecycle)
    requires RegistryRuns.RegistryOk(reg) && GoesThrough(reg, inv, id)
    ensures PublishesNotice(reg, inv, id, e)
  {
    hide PublishesNotice;
    if inv.call.CreateCall? {
      hide *;
      e := CreationPublishes(reg, inv, id);
    } else {
      if id in reg.mandates { RegistryLifecycle.MandateHasId(reg, id); }
      assert inv.call.ControlCall?;
      hide *;
      e := ControlPublishes(reg, inv, id);
    }
  }

  /** And each such call is told of, once the cursor has passed the mandate's events and its merchant is in the table. */
  lemma CallsAreAnnounced(s: State, steps: seq<Step>, ledgers: seq<nat>, calls: seq<R.Invocation>, i: nat, id: Hash)
    requires Fresh(s) && ContinuousRun(s, steps) && |ledgers| == |calls| && i < |calls|
    requires GoesThrough(R.Run(R.EMPTY, calls[..i]), calls[i], id)
    requires var m := R.Apply(R.Run(R.EMPTY, calls[..i]), calls[i]).mandates; id in m && m[id].merchant in Run(s, steps).merchants
    requires var r := Run(s, steps);
      && DecodedStream(r.log) == Stream(ledgers, calls)
      && r.cursor.Some? && r.start.Some?
      && forall p: nat :: Writes(r.log, r.merchants, p, id) ==> r.start.value <= p < r.cursor.value.position
    ensures exists d :: d in Run(s, steps).deliveries && d.about.mandateId == id && Announces(d, R.Run(R.EMPTY, calls[..i]), calls[i], Run(s, steps).merchants)
  {
    var reg, r := R.Run(R.EMPTY, calls[..i]), Run(s, steps);
    ReachedOk(calls, i);
    var e := GoesThroughPublishes(reg, calls[i], id);
    hide Run, Fresh, R.Run, Announces, Stream, DecodedStream, RegistryRuns.RegistryOk, R.Published, R.Apply, GoesThrough, ContinuousRun;
    assert PublishedBy(calls, i, e);
    CallInStream(ledgers, calls, i, e);
    InLog(r.log, Stamped(ledgers[i], e));
    var p :| 0 <= p < |r.log| && r.log[p].lifecycle == Some(e) && r.log[p].ledger == ledgers[i];
    assert Writes(r.log, r.merchants, p, id);
    NothingSkipped(s, steps, p);
    NotifiedOnce(s, steps, p);
    NoticeOfCall(reg, calls[i], e, DeliveryFor(r, p), r.merchants);
    assert DeliveryFor(r, p) in r.deliveries;
  }
}
