/**
 * What every interleaving of ticks keeps: the cursor never passes an event that
 * was neither applied nor jumped over by the RPC, each applied event that
 * notifies has exactly one delivery, and a row is what the last of its newest
 * applied events made it.
 */
module IndexerSafety {
  import opened Wrappers
  import opened MandateTypes
  import opened IndexerSpec

  // ---- pages ----

  lemma {:induction false} DecodedExactly(log: seq<RawEvent>, from: nat, to: nat)
    requires from <= to <= |log|
    ensures forall p :: p in Decoded(log, from, to) <==> from <= p < to && log[p].lifecycle.Some?
    ensures forall i, j :: 0 <= i < j < |Decoded(log, from, to)| ==> Decoded(log, from, to)[i] < Decoded(log, from, to)[j]
  {
    if from < to {
      DecodedExactly(log, from, to - 1);
      var before := Decoded(log, from, to - 1);
      assert forall i :: 0 <= i < |before| ==> before[i] in before;
    }
  }

  lemma {:induction false} MaxLedgerExactly(log: seq<RawEvent>, from: nat, to: nat)
    requires from <= to <= |log|
    ensures MaxLedger(log, from, to).None? <==> from == to
    ensures from < to ==>
      && (exists p :: from <= p < to && log[p].ledger == MaxLedger(log, from, to).value)
      && (forall p :: from <= p < to ==> log[p].ledger <= MaxLedger(log, from, to).value)
  {
    if from < to {
      MaxLedgerExactly(log, from, to - 1);
      assert log[to - 1].ledger <= MaxLedger(log, from, to).value;
    }
  }

  /** What a stored cursor says of the stream: what it has not passed is not older than its ledger. */
  ghost predicate CursorOk(s: State, c: Cursor)
  {
    && c.position <= |s.log| && c.lastLedger <= s.latest + 1
    && forall p :: c.position <= p < |s.log| ==> s.log[p].ledger >= c.lastLedger
  }

  lemma NextCursorOk(s: State, stored: Option<Cursor>, startLedger: nat, from: nat, to: nat)
    requires LogOk(s.log, s.latest) && from <= to <= |s.log|
    requires stored.Some? ==> CursorOk(s, stored.value) && stored.value.position <= from
    requires stored.None? ==> startLedger <= s.latest + 1 && FirstAt(s.log, startLedger) <= from
    ensures var c := NextCursor(s, stored, startLedger, from, to);
      && CursorOk(s, c) && c.position == to
      && (stored.Some? ==> stored.value.lastLedger <= c.lastLedger)
  {
    MaxLedgerExactly(s.log, from, to);
    if stored.None? {
      forall p | from <= p < |s.log| ensures s.log[p].ledger >= startLedger {
        FirstAtSplits(s.log, s.latest, startLedger, p);
      }
    }
  }

  lemma FirstAtSplits(log: seq<RawEvent>, latest: nat, ledger: nat, p: nat)
    requires LogOk(log, latest) && p < |log|
    ensures p >= FirstAt(log, ledger) <==> log[p].ledger >= ledger
  {
    var first := FirstAt(log, ledger);
    if first < p { assert log[first].ledger <= log[p].ledger; }
  }

  /**
   * When a page that passes the gap test begins exactly where the cursor
   * stands: unless retention now starts right after the cursor's ledger and the
   * cursor stands inside that ledger.
   */
  lemma PageSkipsExactly(s: State, c: Cursor)
    requires LogOk(s.log, s.latest) && CursorOk(s, c) && !GapDetected(s, Some(c))
    ensures PageStart(s, Some(c), 0) == c.position <==>
      !(s.oldest == c.lastLedger + 1 && c.position < |s.log| && s.log[c.position].ledger == c.lastLedger)
    ensures forall p :: c.position <= p < PageStart(s, Some(c), 0) ==> s.log[p].ledger == c.lastLedger && s.oldest == c.lastLedger + 1
  {
    if c.position < |s.log| { FirstAtSplits(s.log, s.latest, s.oldest, c.position); }
    forall p | c.position <= p < PageStart(s, Some(c), 0)
      ensures s.log[p].ledger == c.lastLedger && s.oldest == c.lastLedger + 1
    {
      FirstAtSplits(s.log, s.latest, s.oldest, p);
    }
  }

  // ---- the invariant ----

  predicate Known(s: State, p: nat)
  {
    p < |s.log| && s.log[p].lifecycle.Some? && s.log[p].lifecycle.value.merchant in s.merchants
  }

  predicate Notifies(s: State, p: nat)
  {
    Known(s, p) && NoticeFor(s.log[p].lifecycle.value.kind).Some?
  }

  function DeliveryFor(s: State, p: nat): Delivery
    requires Notifies(s, p)
  {
    var event := s.log[p].lifecycle.value;
    Delivery(s.merchants[event.merchant], s.log[p].rpcEventId, NoticeFor(event.kind).value, event)
  }

  /** Applied, jumped over, or not an event the indexer decodes. */
  ghost predicate Dealt(s: State, p: nat)
  {
    p < |s.log| && (s.log[p].lifecycle.Some? ==> p in s.applied || p in s.lost)
  }

  ghost predicate NothingPassed(s: State)
  {
    && (s.start.Some? <==> s.cursor.Some?)
    && (s.cursor.Some? ==> CursorOk(s, s.cursor.value) && s.start.value <= s.cursor.value.position)
    && (s.cursor.Some? ==> forall p :: s.start.value <= p < s.cursor.value.position ==> Dealt(s, p))
  }

  ghost predicate TickOk(s: State, k: Tick)
  {
    match k
    case Idle => true
    case FirstRun => true
    case Requesting(stored, startLedger) =>
      if stored.Some? then CursorOk(s, stored.value) && s.cursor.Some? else startLedger <= s.latest + 1
    case Applying(stored, from, next, todo) => WorkOk(s, stored, from, next, todo)
    case Resolved(stored, from, next, todo, merchantId) =>
      && WorkOk(s, stored, from, next, todo)
      && todo != [] && Known(s, todo[0]) && merchantId == s.merchants[s.log[todo[0]].lifecycle.value.merchant]
  }

  /** A page in hand: every decoded event of it is applied or still to do. */
  ghost predicate WorkOk(s: State, stored: Option<Cursor>, from: nat, next: Cursor, todo: seq<nat>)
  {
    && (stored.Some? ==> s.cursor.Some? && stored.value.position <= from && stored.value.lastLedger <= next.lastLedger)
    && from <= next.position && CursorOk(s, next)
    && (forall i :: 0 <= i < |todo| ==> todo[i] < |s.log| && s.log[todo[i]].lifecycle.Some?)
    && (forall p :: from <= p < next.position && s.log[p].lifecycle.Some? ==> p in s.applied || p in todo)
  }

  ghost predicate TicksOk(s: State)
  {
    forall t :: TickOk(s, At(s, t))
  }

  /** Exactly one delivery for each applied event that notifies, and no other. */
  ghost predicate DeliveriesOk(s: State)
  {
    && (forall i, j :: 0 <= i < j < |s.deliveries| ==> s.deliveries[i].eventId != s.deliveries[j].eventId)
    && (forall p :: p in s.applied && Notifies(s, p) ==> DeliveryFor(s, p) in s.deliveries)
    && (forall d :: d in s.deliveries ==> exists p :: p in s.applied && Notifies(s, p) && d == DeliveryFor(s, p))
  }

  // ---- rows ----

  /** An event that writes the row of `id`. */
  predicate Writes(log: seq<RawEvent>, merchants: map<Address, MerchantId>, p: nat, id: Hash)
  {
    p < |log| && log[p].lifecycle.Some? && log[p].lifecycle.value.mandateId == id && log[p].lifecycle.value.merchant in merchants
  }

  /** The event that last got through the row's ledger guard. */
  function Indexed(log: seq<RawEvent>, merchants: map<Address, MerchantId>, applied: seq<nat>, id: Hash): (r: Option<nat>)
    ensures r.Some? ==> Writes(log, merchants, r.value, id)
  {
    if applied == [] then None
    else
      var p := applied[|applied| - 1];
      var before := Indexed(log, merchants, applied[..|applied| - 1], id);
      if Writes(log, merchants, p, id) && (before.None? || log[before.value].ledger <= log[p].ledger) then Some(p) else before
  }

  /** How many applications got through the row's ledger guard. */
  function Accepted(log: seq<RawEvent>, merchants: map<Address, MerchantId>, applied: seq<nat>, id: Hash): nat
  {
    if applied == [] then 0
    else
      var front, p := applied[..|applied| - 1], applied[|applied| - 1];
      var before := Indexed(log, merchants, front, id);
      var through := Writes(log, merchants, p, id) && (before.None? || log[before.value].ledger <= log[p].ledger);
      Accepted(log, merchants, front, id) + if through then 1 else 0
  }

  ghost predicate RowOk(s: State, id: Hash)
  {
    var p := Indexed(s.log, s.merchants, s.applied, id);
    if p.None? then id !in s.index
    else
      var event := s.log[p.value].lifecycle.value;
      && id in s.index
      && s.index[id].status == StatusFor(event.kind)
      && s.index[id].lastIndexedLedger == s.log[p.value].ledger
      && s.index[id].merchantId == s.merchants[event.merchant]
      && s.index[id].payerAddress == event.payer && s.index[id].merchantAddress == event.merchant
      && s.index[id].contractStateVersion == Accepted(s.log, s.merchants, s.applied, id)
  }

  ghost predicate RowsOk(s: State)
  {
    forall id :: RowOk(s, id)
  }

  ghost predicate IndexerOk(s: State)
  {
    && LogOk(s.log, s.latest)
    && (forall i :: 0 <= i < |s.applied| ==> s.applied[i] < |s.log| && s.log[s.applied[i]].lifecycle.Some?)
    && NothingPassed(s) && TicksOk(s) && DeliveriesOk(s) && RowsOk(s)
  }

  lemma FreshOk(s: State)
    requires Fresh(s)
    ensures IndexerOk(s)
  {
    forall id: Hash ensures RowOk(s, id) { }
    forall t: TickId ensures TickOk(s, At(s, t)) { }
  }

  lemma IndexedStep(log: seq<RawEvent>, merchants: map<Address, MerchantId>, applied: seq<nat>, p: nat, id: Hash)
    ensures Indexed(log, merchants, applied + [p], id) ==
      var before := Indexed(log, merchants, applied, id);
      if Writes(log, merchants, p, id) && (before.None? || log[before.value].ledger <= log[p].ledger) then Some(p) else before
    ensures Accepted(log, merchants, applied + [p], id) == Accepted(log, merchants, applied, id)
      + if Writes(log, merchants, p, id) && (Indexed(log, merchants, applied, id).None? || log[Indexed(log, merchants, applied, id).value].ledger <= log[p].ledger) then 1 else 0
  {
    assert (applied + [p])[..|applied|] == applied;
  }

  lemma {:induction false} NoneAccepted(log: seq<RawEvent>, merchants: map<Address, MerchantId>, applied: seq<nat>, id: Hash)
    ensures Indexed(log, merchants, applied, id).None? <==> Accepted(log, merchants, applied, id) == 0
  {
    if applied != [] { NoneAccepted(log, merchants, applied[..|applied| - 1], id); }
  }

  /** A longer stream says the same of what was applied. */
  lemma {:induction false} IndexedExtends(log: seq<RawEvent>, more: seq<RawEvent>, merchants: map<Address, MerchantId>, applied: seq<nat>, id: Hash)
    requires forall i :: 0 <= i < |applied| ==> applied[i] < |log|
    ensures Indexed(log + more, merchants, applied, id) == Indexed(log, merchants, applied, id)
    ensures Accepted(log + more, merchants, applied, id) == Accepted(log, merchants, applied, id)
  {
    if applied != [] { IndexedExtends(log, more, merchants, applied[..|applied| - 1], id); }
  }

  // ---- steps ----

  /** What no step takes back: streams, merchants, applied and lost events only grow. */
  ghost predicate Grows(s: State, s': State)
  {
    && s.log <= s'.log && s.latest <= s'.latest && s.merchants == s'.merchants
    && (forall p :: |s.log| <= p < |s'.log| ==> s'.log[p].ledger > s.latest)
    && s.applied <= s'.applied && s.lost <= s'.lost
    && (s.cursor.Some? ==> s'.cursor.Some?)
  }

  /** What an act leaves alone, whoever's it is. */
  lemma ActFrame(s: State, t: TickId, act: Act)
    ensures var s' := DoAct(s, t, act);
      && s'.log == s.log && s'.latest == s.latest && s'.merchants == s.merchants
      && (forall v: TickId :: v != t ==> At(s', v) == At(s, v))
      && (!act.Advance? ==> s'.cursor == s.cursor && s'.start == s.start && s'.lost == s.lost)
      && (act.Advance? ==> s.lost <= s'.lost && (s.cursor.Some? ==> s'.cursor.Some?))
      && (!act.Resolve? && !act.Commit? ==> s'.applied == s.applied && s'.index == s.index && s'.deliveries == s.deliveries)
      && s.applied <= s'.applied
  {
    hide Decoded, MaxLedger, FirstAt, NextCursor, Upsert, Enqueue, ResolveMerchant, AssetFor, HasEvent, PageStart, Asked, GapDetected;
    match act
    case Fetch(_, _) =>
    case Resolve =>
    case Commit(_) =>
    case Advance =>
    case _ =>
  }

  lemma StepGrows(s: State, step: Step)
    ensures Grows(s, Next(s, step))
  {
    hide DoAct, LogOk;
    if step.By? {
      ActFrame(s, step.t, step.act);
    }
  }

  lemma CursorStays(s: State, s': State, c: Cursor)
    requires CursorOk(s, c) && Grows(s, s')
    ensures CursorOk(s', c)
  {
    forall p | c.position <= p < |s'.log| ensures s'.log[p].ledger >= c.lastLedger {
      if p < |s.log| { assert s'.log[p] == s.log[p]; }
    }
  }

  lemma AppliedStays(s: State, s': State, p: nat)
    requires Grows(s, s') && p in s.applied
    ensures p in s'.applied
  {
    var i :| 0 <= i < |s.applied| && s.applied[i] == p;
    assert s'.applied[i] == p;
  }

  lemma WorkStays(s: State, s': State, stored: Option<Cursor>, from: nat, next: Cursor, todo: seq<nat>)
    requires WorkOk(s, stored, from, next, todo) && Grows(s, s')
    ensures WorkOk(s', stored, from, next, todo)
  {
    CursorStays(s, s', next);
    forall p | from <= p < next.position && s'.log[p].lifecycle.Some? ensures p in s'.applied || p in todo {
      assert s'.log[p] == s.log[p];
      if p in s.applied { AppliedStays(s, s', p); }
    }
  }

  lemma TickStays(s: State, s': State, k: Tick)
    requires TickOk(s, k) && Grows(s, s')
    ensures TickOk(s', k)
  {
    hide WorkOk, CursorOk;
    match k
    case Requesting(stored, _) => if stored.Some? { CursorStays(s, s', stored.value); }
    case Applying(stored, from, next, todo) => WorkStays(s, s', stored, from, next, todo);
    case Resolved(stored, from, next, todo, _) =>
      WorkStays(s, s', stored, from, next, todo);
      assert s'.log[todo[0]] == s.log[todo[0]];
    case _ =>
  }

  lemma DealtStays(s: State, s': State, p: nat)
    requires Dealt(s, p) && Grows(s, s')
    ensures Dealt(s', p)
  {
    assert s'.log[p] == s.log[p];
    if p in s.applied { AppliedStays(s, s', p); }
  }

  /** A step that leaves the cursor alone passes nothing. */
  lemma PassedStays(s: State, s': State)
    requires NothingPassed(s) && Grows(s, s') && s'.cursor == s.cursor && s'.start == s.start
    ensures NothingPassed(s')
  {
    hide Grows, Dealt;
    if s.cursor.Some? {
      CursorStays(s, s', s.cursor.value);
      forall p | s.start.value <= p < s.cursor.value.position ensures Dealt(s', p) { DealtStays(s, s', p); }
    }
  }

  lemma PassedAfterAdvance(s: State, t: TickId, k: Tick)
    requires NothingPassed(s) && k.Applying? && k.todo == [] && TickOk(s, k)
    ensures NothingPassed(DoAdvance(s, t, k))
  {
    var s' := DoAdvance(s, t, k);
    if s.cursor == k.stored {
      assert s'.log == s.log && s'.applied == s.applied;
      forall p | s'.start.value <= p < k.next.position ensures Dealt(s', p) {
        if k.stored.Some? && p < k.stored.value.position {
          assert Dealt(s, p);
        } else if k.stored.Some? && p < k.from {
          assert p in s'.lost;
        } else {
          assert s.log[p].lifecycle.Some? ==> p in s.applied;
        }
      }
    } else {
      StepGrows(s, By(t, Stop));
      PassedStays(s, s');
    }
  }

  /** A page in hand after its first event is dealt with. */
  lemma WorkAdvances(s: State, s': State, stored: Option<Cursor>, from: nat, next: Cursor, todo: seq<nat>)
    requires WorkOk(s, stored, from, next, todo) && todo != [] && Grows(s, s') && todo[0] in s'.applied
    ensures WorkOk(s', stored, from, next, todo[1..])
  {
    WorkStays(s, s', stored, from, next, todo);
    assert todo == [todo[0]] + todo[1..];
  }

  lemma FetchedOk(s: State, t: TickId, stored: Option<Cursor>, startLedger: nat, to: nat, tolerant: bool)
    requires IndexerOk(s) && TickOk(s, Requesting(stored, startLedger)) && At(s, t) == Requesting(stored, startLedger)
    ensures TickOk(DoFetch(s, t, stored, startLedger, to, tolerant), At(DoFetch(s, t, stored, startLedger, to, tolerant), t))
  {
    hide TicksOk, DeliveriesOk, RowsOk, NothingPassed, LogOk, Decoded, MaxLedger, NextCursor;
    var from := PageStart(s, stored, startLedger);
    if from <= to <= |s.log| {
      NextCursorOk(s, stored, startLedger, from, to);
      DecodedExactly(s.log, from, to);
      var next, todo := NextCursor(s, stored, startLedger, from, to), Decoded(s.log, from, to);
      assert forall i :: 0 <= i < |todo| ==> todo[i] in todo;
      assert WorkOk(s, stored, from, next, todo);
      WorkStays(s, Goto(s, t, Applying(stored, from, next, todo)), stored, from, next, todo);
    }
  }

  /** The merchant an existing row names is the one the event's own address resolves to. */
  lemma ResolvesToOwner(s: State, p: nat)
    requires IndexerOk(s) && p < |s.log| && s.log[p].lifecycle.Some?
    ensures var event := s.log[p].lifecycle.value;
      ResolveMerchant(s, event) == if Known(s, p) then Some(s.merchants[event.merchant]) else None
  {
    hide TicksOk, DeliveriesOk, NothingPassed;
    var id := s.log[p].lifecycle.value.mandateId;
    assert RowOk(s, id);
  }

  lemma ResolverOk(s: State, t: TickId, k: Tick)
    requires IndexerOk(s) && TickOk(s, k) && At(s, t) == k && k.Applying? && HasEvent(s, k.todo)
    ensures TickOk(DoResolve(s, t, k), At(DoResolve(s, t, k), t))
  {
    var s' := DoResolve(s, t, k);
    ResolvesToOwner(s, k.todo[0]);
    assert Grows(s, s');
    hide IndexerOk, Grows, CursorOk, WorkOk;
    if Known(s, k.todo[0]) {
      WorkStays(s, s', k.stored, k.from, k.next, k.todo);
    } else {
      assert s'.applied[|s.applied|] == k.todo[0];
      WorkAdvances(s, s', k.stored, k.from, k.next, k.todo);
    }
  }

  lemma CommitterOk(s: State, t: TickId, k: Tick, readAsset: Option<Address>)
    requires TickOk(s, k) && k.Resolved? && HasEvent(s, k.todo)
    ensures TickOk(DoCommit(s, t, k, readAsset), At(DoCommit(s, t, k, readAsset), t))
  {
    hide Upsert, Enqueue, AssetFor;
    var s' := DoCommit(s, t, k, readAsset);
    assert Grows(s, s');
    hide Grows, CursorOk, WorkOk;
    if !At(s', t).Idle? {
      assert s'.applied[|s.applied|] == k.todo[0];
      WorkAdvances(s, s', k.stored, k.from, k.next, k.todo);
    }
  }

  lemma ReaderOk(s: State, t: TickId)
    requires NothingPassed(s) && TickOk(s, At(s, t))
    ensures TickOk(DoAct(s, t, ReadCursor), At(DoAct(s, t, ReadCursor), t))
  {
    StepGrows(s, By(t, ReadCursor));
    ActIsNext(s, t, ReadCursor);
    TickStays(s, DoAct(s, t, ReadCursor), At(s, t));
    hide Dealt, WorkOk;
  }

  lemma ActorOk(s: State, t: TickId, act: Act)
    requires IndexerOk(s)
    ensures TickOk(DoAct(s, t, act), At(DoAct(s, t, act), t))
  {
    var k, s' := At(s, t), DoAct(s, t, act);
    assert TickOk(s, k);
    StepGrows(s, By(t, act));
    ActIsNext(s, t, act);
    TickStays(s, s', k);
    hide IndexerOk, Grows, CursorOk, WorkOk, DoFetch, DoResolve, DoCommit, DoAdvance;
    if act.Fetch? && k.Requesting? {
      FetchedOk(s, t, k.stored, k.startLedger, act.to, act.tolerant);
    } else if act.Resolve? && k.Applying? && HasEvent(s, k.todo) {
      ResolverOk(s, t, k);
    } else if act.Commit? && k.Resolved? && HasEvent(s, k.todo) {
      CommitterOk(s, t, k, act.readAsset);
    } else if act.Advance? && k.Applying? && k.todo == [] {
      AdvancerStops(s, t, k);
    } else if act.ReadCursor? {
      CursorPassedNothing(s);
      ReaderOk(s, t);
    }
  }

  lemma AdvancerStops(s: State, t: TickId, k: Tick)
    requires k.Applying?
    ensures At(DoAdvance(s, t, k), t) == Idle
  {
  }

  lemma CursorPassedNothing(s: State)
    requires IndexerOk(s)
    ensures NothingPassed(s)
  {
    hide NothingPassed;
  }

  lemma OthersStay(s: State, step: Step, t: TickId)
    requires !(step.By? && step.t == t)
    ensures At(Next(s, step), t) == At(s, t)
  {
    hide DoAct, LogOk;
    if step.By? { ActFrame(s, step.t, step.act); }
  }

  lemma TicksNext(s: State, step: Step)
    requires IndexerOk(s)
    ensures TicksOk(Next(s, step))
  {
    StepGrows(s, step);
    hide Next, Grows, TickOk, DoAct;
    forall t: TickId ensures TickOk(Next(s, step), At(Next(s, step), t)) {
      if step.By? && step.t == t {
        ActorOk(s, t, step.act);
        ActIsNext(s, t, step.act);
      } else {
        OthersStay(s, step, t);
        TickStays(s, Next(s, step), At(s, t));
      }
    }
  }

  lemma ActIsNext(s: State, t: TickId, act: Act)
    ensures Next(s, By(t, act)) == DoAct(s, t, act)
  {
  }

  lemma CursorMovesOnlyOnAdvance(s: State, step: Step)
    requires !(step.By? && step.act.Advance?)
    ensures Next(s, step).cursor == s.cursor && Next(s, step).start == s.start
  {
    hide DoAct, LogOk;
    if step.By? { ActFrame(s, step.t, step.act); }
  }

  lemma PassedNext(s: State, step: Step)
    requires IndexerOk(s)
    ensures NothingPassed(Next(s, step))
  {
    hide LogOk, DeliveriesOk, RowsOk, TickOk, Grows;
    if step.By? && step.act.Advance? {
      var k := At(s, step.t);
      assert TickOk(s, k);
      if k.Applying? && k.todo == [] { PassedAfterAdvance(s, step.t, k); }
    } else {
      StepGrows(s, step);
      CursorMovesOnlyOnAdvance(s, step);
      hide Next;
      PassedStays(s, Next(s, step));
    }
  }

  // ---- deliveries ----

  /** A step that applies and enqueues nothing. */
  lemma DeliveriesStay(s: State, s': State)
    requires DeliveriesOk(s) && Grows(s, s') && s'.applied == s.applied && s'.deliveries == s.deliveries
    requires forall i :: 0 <= i < |s.applied| ==> s.applied[i] < |s.log|
    ensures DeliveriesOk(s')
  {
    forall p | p in s.applied ensures Notifies(s', p) == Notifies(s, p) && (Notifies(s, p) ==> DeliveryFor(s', p) == DeliveryFor(s, p)) {
      assert s'.log[p] == s.log[p];
    }
    forall d | d in s'.deliveries ensures exists p :: p in s'.applied && Notifies(s', p) && d == DeliveryFor(s', p) {
      var p :| p in s.applied && Notifies(s, p) && d == DeliveryFor(s, p);
      assert p in s'.applied && Notifies(s', p);
    }
  }

  /** Applying one event adds its delivery unless an earlier application did. */
  lemma DeliveriesAfter(s: State, s': State, p: nat)
    requires LogOk(s.log, s.latest) && DeliveriesOk(s) && p < |s.log|
    requires s'.log == s.log && s'.merchants == s.merchants && s'.applied == s.applied + [p]
    requires s'.deliveries == if Notifies(s, p) then Enqueue(s.deliveries, DeliveryFor(s, p)) else s.deliveries
    ensures DeliveriesOk(s')
  {
    forall q ensures Notifies(s', q) == Notifies(s, q) && (Notifies(s, q) ==> DeliveryFor(s', q) == DeliveryFor(s, q)) { }
    if Notifies(s, p) {
      var d := DeliveryFor(s, p);
      if HasDelivery(s.deliveries, d.eventId) {
        var i :| 0 <= i < |s.deliveries| && s.deliveries[i].eventId == d.eventId;
        assert s.deliveries[i] in s.deliveries;
        var q :| q in s.applied && Notifies(s, q) && s.deliveries[i] == DeliveryFor(s, q);
        assert s.log[q].rpcEventId == s.log[p].rpcEventId;
        assert q == p;
        assert d in s.deliveries;
      }
      assert d in s'.deliveries;
    }
    forall e | e in s'.deliveries ensures exists q :: q in s'.applied && Notifies(s', q) && e == DeliveryFor(s', q) {
      if e in s.deliveries {
        var q :| q in s.applied && Notifies(s, q) && e == DeliveryFor(s, q);
        assert q in s'.applied && Notifies(s', q);
      } else {
        assert p in s'.applied && Notifies(s', p) && e == DeliveryFor(s', p);
      }
    }
  }

  /** The event a step deals with, if it deals with one. */
  function Dealing(s: State, step: Step): Option<nat>
  {
    if !step.By? then None
    else
      var k := At(s, step.t);
      if step.act.Resolve? && k.Applying? && HasEvent(s, k.todo) && ResolveMerchant(s, s.log[k.todo[0]].lifecycle.value).None? then Some(k.todo[0])
      else if step.act.Commit? && k.Resolved? && HasEvent(s, k.todo)
        && AssetFor(RowOf(s.index, s.log[k.todo[0]].lifecycle.value.mandateId), s.log[k.todo[0]].lifecycle.value, step.act.readAsset).Some?
      then Some(k.todo[0])
      else None
  }

  lemma NotDealing(s: State, step: Step)
    requires Dealing(s, step).None?
    ensures var s' := Next(s, step); s'.applied == s.applied && s'.deliveries == s.deliveries && s'.index == s.index
  {
    hide LogOk, ApplyEvent, DoFetch, DoAdvance, ResolveMerchant, AssetFor, HasEvent;
    if step.By? {
      ActFrame(s, step.t, step.act);
      if !step.act.Resolve? && !step.act.Commit? { hide DoAct; }
    }
  }

  /** Dealing with an event: passed over when nobody owns it, otherwise its row and its notice. */
  lemma DealingStep(s: State, step: Step)
    requires IndexerOk(s) && Dealing(s, step).Some?
    ensures var s', p := Next(s, step), Dealing(s, step).value;
      && p < |s.log| && s.log[p].lifecycle.Some?
      && s'.log == s.log && s'.merchants == s.merchants && s'.latest == s.latest && s'.applied == s.applied + [p]
      && s'.deliveries == (if Notifies(s, p) then Enqueue(s.deliveries, DeliveryFor(s, p)) else s.deliveries)
      && (if Known(s, p) then
            var event := s.log[p].lifecycle.value;
            exists asset :: s'.index == s.index[event.mandateId :=
              Upsert(RowOf(s.index, event.mandateId), event, s.log[p].ledger, s.merchants[event.merchant], asset)]
          else s'.index == s.index)
  {
    var k, p := At(s, step.t), Dealing(s, step).value;
    assert TickOk(s, k);
    ResolvesToOwner(s, p);
    hide LogOk, NothingPassed, TicksOk, DeliveriesOk, RowsOk, WorkOk, Upsert, Enqueue, ResolveMerchant, DoFetch, DoAdvance;
    if step.act.Commit? {
      var event := s.log[p].lifecycle.value;
      var asset := AssetFor(RowOf(s.index, event.mandateId), event, step.act.readAsset);
      assert Next(s, step).index == s.index[event.mandateId :=
        Upsert(RowOf(s.index, event.mandateId), event, s.log[p].ledger, s.merchants[event.merchant], asset.value)];
    }
  }

  lemma DeliveriesNext(s: State, step: Step)
    requires IndexerOk(s)
    ensures DeliveriesOk(Next(s, step))
  {
    StepGrows(s, step);
    if Dealing(s, step).Some? { DealingStep(s, step); } else { NotDealing(s, step); }
    hide Next, Grows, DeliveriesOk, RowsOk, TicksOk, NothingPassed, Dealing, Enqueue;
    if Dealing(s, step).Some? {
      DeliveriesAfter(s, Next(s, step), Dealing(s, step).value);
    } else {
      DeliveriesStay(s, Next(s, step));
    }
    assert DeliveriesOk(Next(s, step));
  }

  // ---- rows over steps ----

  lemma RowsStay(s: State, s': State, id: Hash)
    requires RowOk(s, id) && Grows(s, s') && s'.applied == s.applied && s'.index == s.index
    requires forall i :: 0 <= i < |s.applied| ==> s.applied[i] < |s.log|
    ensures RowOk(s', id)
  {
    assert s'.log == s.log + s'.log[|s.log|..];
    IndexedExtends(s.log, s'.log[|s.log|..], s.merchants, s.applied, id);
  }

  lemma RowAfter(s: State, s': State, p: nat, id: Hash, asset: Address)
    requires RowOk(s, id) && p < |s.log| && s.log[p].lifecycle.Some?
    requires s'.log == s.log && s'.merchants == s.merchants && s'.applied == s.applied + [p]
    requires var event := s.log[p].lifecycle.value;
      s'.index == if Known(s, p) then
        s.index[event.mandateId := Upsert(RowOf(s.index, event.mandateId), event, s.log[p].ledger, s.merchants[event.merchant], asset)]
      else s.index
    ensures RowOk(s', id)
  {
    IndexedStep(s.log, s.merchants, s.applied, p, id);
    NoneAccepted(s.log, s.merchants, s.applied, id);
    hide Indexed, Accepted;
  }

  lemma RowsNext(s: State, step: Step)
    requires IndexerOk(s)
    ensures RowsOk(Next(s, step))
  {
    StepGrows(s, step);
    var s' := Next(s, step);
    var asset: Address := 0;
    if Dealing(s, step).Some? {
      DealingStep(s, step);
      var p := Dealing(s, step).value;
      if Known(s, p) {
        var event := s.log[p].lifecycle.value;
        asset :| s'.index == s.index[event.mandateId :=
          Upsert(RowOf(s.index, event.mandateId), event, s.log[p].ledger, s.merchants[event.merchant], asset)];
      }
    } else {
      NotDealing(s, step);
    }
    hide Next, Grows, RowOk, DeliveriesOk, TicksOk, NothingPassed, Dealing, Upsert, LogOk;
    forall id: Hash ensures RowOk(s', id) {
      assert RowOk(s, id);
      if Dealing(s, step).Some? { RowAfter(s, s', Dealing(s, step).value, id, asset); } else { RowsStay(s, s', id); }
    }
  }

  lemma LogNext(s: State, step: Step)
    requires IndexerOk(s)
    ensures LogOk(Next(s, step).log, Next(s, step).latest)
    ensures var s' := Next(s, step); forall i :: 0 <= i < |s'.applied| ==> s'.applied[i] < |s'.log| && s'.log[s'.applied[i]].lifecycle.Some?
  {
    StepGrows(s, step);
    if Dealing(s, step).Some? {
      DealingStep(s, step);
      hide Next;
    } else {
      NotDealing(s, step);
      LogKept(s, step);
      hide Next, LogOk;
      assert forall i :: 0 <= i < |s.log| ==> Next(s, step).log[i] == s.log[i];
    }
  }

  lemma LogKept(s: State, step: Step)
    requires LogOk(s.log, s.latest)
    ensures LogOk(Next(s, step).log, Next(s, step).latest)
  {
    hide Decoded, MaxLedger, FirstAt, LogOk, Upsert, Enqueue;
  }

  lemma IndexerNext(s: State, step: Step)
    requires IndexerOk(s)
    ensures IndexerOk(Next(s, step))
  {
    hide Next, LogOk, NothingPassed, TicksOk, DeliveriesOk, RowsOk;
    LogNext(s, step);
    PassedNext(s, step);
    TicksNext(s, step);
    DeliveriesNext(s, step);
    RowsNext(s, step);
  }

  lemma {:induction false} IndexerRun(s: State, steps: seq<Step>)
    requires Fresh(s)
    ensures IndexerOk(Run(s, steps))
  {
    hide IndexerOk, Next, Fresh;
    if steps == [] {
      FreshOk(s);
    } else {
      IndexerRun(s, steps[..|steps| - 1]);
      IndexerNext(Run(s, steps[..|steps| - 1]), steps[|steps| - 1]);
    }
  }
}
