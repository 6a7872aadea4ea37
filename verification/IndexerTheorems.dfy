/** The indexer's promises over every interleaving, and where one of them stops. */
module IndexerTheorems {
  import opened Wrappers
  import opened MandateTypes
  import opened IndexerSpec
  import opened IndexerSafety

  // ---- nothing is skipped ----

  /** Every decoded event the cursor has passed since indexing began was applied, or jumped over by the RPC. */
  lemma PassedEventsDealtWith(s: State, steps: seq<Step>, p: nat)
    requires Fresh(s)
    requires var r := Run(s, steps); r.cursor.Some? && r.start.Some? && r.start.value <= p < r.cursor.value.position
    ensures var r := Run(s, steps); p < |r.log| && (r.log[p].lifecycle.Some? ==> p in r.applied || p in r.lost)
  {
    IndexerRun(s, steps);
    hide Run, LogOk, TicksOk, DeliveriesOk, RowsOk;
    assert Dealt(Run(s, steps), p);
  }

  /** A page that passes the gap test and begins where its cursor stands. */
  ghost predicate Continues(s: State, step: Step)
  {
    step.By? && step.act.Fetch? && At(s, step.t).Requesting? && At(s, step.t).stored.Some? ==>
      var c := At(s, step.t).stored.value;
      step.act.tolerant && s.oldest == c.lastLedger + 1 && c.position < |s.log| ==> s.log[c.position].ledger != c.lastLedger
  }

  ghost predicate ContinuousRun(s: State, steps: seq<Step>)
  {
    steps == [] || (ContinuousRun(s, steps[..|steps| - 1]) && Continues(Run(s, steps[..|steps| - 1]), steps[|steps| - 1]))
  }

  predicate InHand(k: Tick)
  {
    (k.Applying? || k.Resolved?) && k.stored.Some?
  }

  ghost predicate NoJumps(s: State)
  {
    s.lost == {} && forall t | InHand(At(s, t)) :: At(s, t).from == At(s, t).stored.value.position
  }

  lemma FetchContinues(s: State, t: TickId, act: Act)
    requires IndexerOk(s) && NoJumps(s) && Continues(s, By(t, act)) && act.Fetch?
    ensures var k := At(DoAct(s, t, act), t); InHand(k) ==> k.from == k.stored.value.position
  {
    var k := At(s, t);
    assert TickOk(s, k);
    hide TicksOk, DeliveriesOk, RowsOk, NothingPassed, LogOk, Decoded, NextCursor, CursorOk;
    if k.Requesting? && k.stored.Some? && !GapDetected(s, k.stored) {
      PageSkipsExactly(s, k.stored.value);
    }
  }

  lemma ActKeepsHand(s: State, t: TickId, act: Act)
    requires NoJumps(s) && !act.Fetch?
    ensures var s', k := DoAct(s, t, act), At(DoAct(s, t, act), t);
      s'.lost == {} && (InHand(k) ==> k.from == k.stored.value.position)
  {
    hide Upsert, Enqueue, HasEvent, AssetFor, ResolveMerchant;
    assert InHand(At(s, t)) ==> At(s, t).from == At(s, t).stored.value.position;
  }

  lemma NoJumpsNext(s: State, step: Step)
    requires IndexerOk(s) && NoJumps(s) && Continues(s, step)
    ensures NoJumps(Next(s, step))
  {
    var s' := Next(s, step);
    if step.By? {
      ActIsNext(s, step.t, step.act);
      if step.act.Fetch? { FetchContinues(s, step.t, step.act); FetchLosesNothing(s, step.t, step.act); } else { ActKeepsHand(s, step.t, step.act); }
    }
    hide DoAct, IndexerOk, LogOk, Continues;
    forall t: TickId | InHand(At(s', t)) ensures At(s', t).from == At(s', t).stored.value.position {
      if !(step.By? && step.t == t) { OthersStay(s, step, t); }
    }
  }

  lemma FetchLosesNothing(s: State, t: TickId, act: Act)
    requires act.Fetch?
    ensures DoAct(s, t, act).lost == s.lost
  {
    hide Decoded, NextCursor;
  }

  lemma {:induction false} NoJumpsRun(s: State, steps: seq<Step>)
    requires Fresh(s) && ContinuousRun(s, steps)
    ensures NoJumps(Run(s, steps))
  {
    if steps != [] {
      var front := steps[..|steps| - 1];
      NoJumpsRun(s, front);
      IndexerRun(s, front);
      hide Next, IndexerOk, NoJumps, Continues, Fresh;
      NoJumpsNext(Run(s, front), steps[|steps| - 1]);
    }
  }

  /**
   * As long as no page is fetched with retention starting right after a ledger
   * the cursor stands inside, every decoded event between the winning start
   * and the cursor has been applied.
   */
  lemma NothingSkipped(s: State, steps: seq<Step>, p: nat)
    requires Fresh(s) && ContinuousRun(s, steps)
    requires var r := Run(s, steps); r.cursor.Some? && r.start.Some? && r.start.value <= p < r.cursor.value.position
    ensures var r := Run(s, steps); p < |r.log| && (r.log[p].lifecycle.Some? ==> p in r.applied)
  {
    PassedEventsDealtWith(s, steps, p);
    NoJumpsRun(s, steps);
    hide Run, Fresh;
  }

  // ---- each applied event notifies once ----

  /** An applied event with a notice, for a merchant in the table, has exactly one delivery row, and it is its own. */
  lemma NotifiedOnce(s: State, steps: seq<Step>, p: nat)
    requires Fresh(s) && p in Run(s, steps).applied && Notifies(Run(s, steps), p)
    ensures var r := Run(s, steps);
      exists i :: 0 <= i < |r.deliveries| && r.deliveries[i] == DeliveryFor(r, p)
        && forall j :: 0 <= j < |r.deliveries| && r.deliveries[j].eventId == r.log[p].rpcEventId ==> j == i
  {
    IndexerRun(s, steps);
    hide Run, LogOk, TicksOk, NothingPassed, RowsOk;
    var r := Run(s, steps);
    assert DeliveryFor(r, p) in r.deliveries;
    var i :| 0 <= i < |r.deliveries| && r.deliveries[i] == DeliveryFor(r, p);
    assert forall j :: 0 <= j < |r.deliveries| && r.deliveries[j].eventId == r.log[p].rpcEventId ==> j == i;
  }

  /** And no delivery is about anything else. */
  lemma NoOtherDelivery(s: State, steps: seq<Step>, d: Delivery)
    requires Fresh(s) && d in Run(s, steps).deliveries
    ensures var r := Run(s, steps);
      exists p :: p in r.applied && Notifies(r, p) && d == DeliveryFor(r, p) && d.about.kind != CompletedEvent
  {
    IndexerRun(s, steps);
    hide Run, LogOk, TicksOk, NothingPassed, RowsOk;
    var r := Run(s, steps);
    var p :| p in r.applied && Notifies(r, p) && d == DeliveryFor(r, p);
    assert NoticeFor(d.about.kind).Some?;
  }

  // ---- rows ----

  /** A row's ledger never goes back, and a row is never dropped. */
  lemma LedgerNeverDecreases(s: State, step: Step, id: Hash)
    requires IndexerOk(s) && id in s.index
    ensures id in Next(s, step).index && s.index[id].lastIndexedLedger <= Next(s, step).index[id].lastIndexedLedger
  {
    if Dealing(s, step).Some? { DealingStep(s, step); } else { NotDealing(s, step); }
    hide Next, IndexerOk, Dealing;
  }

  /** Application `i` is of the newest ledger among all applications for `id`, and the last of those. */
  ghost predicate LastOfNewestAt(log: seq<RawEvent>, merchants: map<Address, MerchantId>, applied: seq<nat>, id: Hash, i: nat)
  {
    && i < |applied| && Writes(log, merchants, applied[i], id)
    && (forall j :: 0 <= j < i && Writes(log, merchants, applied[j], id) ==> log[applied[j]].ledger <= log[applied[i]].ledger)
    && (forall j :: i < j < |applied| && Writes(log, merchants, applied[j], id) ==> log[applied[j]].ledger < log[applied[i]].ledger)
  }

  ghost predicate LastOfNewest(log: seq<RawEvent>, merchants: map<Address, MerchantId>, applied: seq<nat>, id: Hash, p: nat)
  {
    exists i: nat :: LastOfNewestAt(log, merchants, applied, id, i) && applied[i] == p
  }

  lemma LastOfNewestUnique(log: seq<RawEvent>, merchants: map<Address, MerchantId>, applied: seq<nat>, id: Hash, i: nat, k: nat)
    requires LastOfNewestAt(log, merchants, applied, id, i) && LastOfNewestAt(log, merchants, applied, id, k)
    ensures i == k
  {
  }

  /** One more application: it takes over exactly when it writes the row and is not older. */
  lemma LastOfNewestStep(log: seq<RawEvent>, merchants: map<Address, MerchantId>, applied: seq<nat>, p: nat, id: Hash, i: nat)
    requires LastOfNewestAt(log, merchants, applied, id, i)
    ensures if Writes(log, merchants, p, id) && log[applied[i]].ledger <= log[p].ledger
            then LastOfNewestAt(log, merchants, applied + [p], id, |applied|)
            else LastOfNewestAt(log, merchants, applied + [p], id, i)
  {
    var all := applied + [p];
    assert forall j :: 0 <= j < |applied| ==> all[j] == applied[j];
    assert forall j :: 0 <= j < |applied| && Writes(log, merchants, applied[j], id) ==> log[applied[j]].ledger <= log[applied[i]].ledger;
  }

  /** What the fold over applications computes, said without it. */
  lemma {:induction false} IndexedExactly(log: seq<RawEvent>, merchants: map<Address, MerchantId>, applied: seq<nat>, id: Hash)
    ensures var r := Indexed(log, merchants, applied, id);
      && (r.None? ==> forall i :: 0 <= i < |applied| ==> !Writes(log, merchants, applied[i], id))
      && (r.Some? ==> LastOfNewest(log, merchants, applied, id, r.value))
  {
    if applied != [] {
      var n := |applied| - 1;
      var front, p := applied[..n], applied[n];
      assert applied == front + [p];
      IndexedExactly(log, merchants, front, id);
      IndexedStep(log, merchants, front, p, id);
      var before := Indexed(log, merchants, front, id);
      hide Writes, Indexed;
      if before.Some? {
        hide LastOfNewestAt;
        var i: nat :| LastOfNewestAt(log, merchants, front, id, i) && front[i] == before.value;
        LastOfNewestStep(log, merchants, front, p, id, i);
      } else {
        assert forall j :: 0 <= j < n ==> applied[j] == front[j];
        if Writes(log, merchants, p, id) { assert LastOfNewestAt(log, merchants, applied, id, n); }
      }
    }
  }

  /** `p` is the event of the newest ledger among those of `id` in the set. */
  ghost predicate Newest(log: seq<RawEvent>, merchants: map<Address, MerchantId>, positions: seq<nat>, id: Hash, p: nat)
  {
    p in positions && Writes(log, merchants, p, id)
    && forall q :: q in positions && Writes(log, merchants, q, id) ==> log[q].ledger <= log[p].ledger
  }

  /** Events of one mandate in different ledgers. */
  ghost predicate DistinctLedgers(log: seq<RawEvent>, merchants: map<Address, MerchantId>, id: Hash)
  {
    forall p: nat, q: nat | Writes(log, merchants, p, id) && Writes(log, merchants, q, id) :: log[p].ledger == log[q].ledger ==> p == q
  }

  /** With distinct ledgers the row ends at the newest event, whatever the order and the repetitions. */
  lemma Converges(log: seq<RawEvent>, merchants: map<Address, MerchantId>, applied: seq<nat>, id: Hash, p: nat)
    requires DistinctLedgers(log, merchants, id) && Newest(log, merchants, applied, id, p)
    ensures Indexed(log, merchants, applied, id) == Some(p)
  {
    IndexedExactly(log, merchants, applied, id);
    var k :| 0 <= k < |applied| && applied[k] == p;
    assert Writes(log, merchants, applied[k], id);
    var q := Indexed(log, merchants, applied, id).value;
    assert q in applied;
  }

  /** Without them the order decides: it ends at the newest event applied last. */
  lemma EndsAtLastOfNewest(log: seq<RawEvent>, merchants: map<Address, MerchantId>, applied: seq<nat>, id: Hash, p: nat)
    ensures Indexed(log, merchants, applied, id) == Some(p) <==> LastOfNewest(log, merchants, applied, id, p)
  {
    IndexedExactly(log, merchants, applied, id);
    var r := Indexed(log, merchants, applied, id);
    if LastOfNewest(log, merchants, applied, id, p) {
      var i: nat :| LastOfNewestAt(log, merchants, applied, id, i) && applied[i] == p;
      var k: nat :| LastOfNewestAt(log, merchants, applied, id, k) && applied[k] == r.value;
      LastOfNewestUnique(log, merchants, applied, id, i, k);
    }
  }

  /** The row names the payer and the merchant of an event, and whose merchant that is. */
  predicate ShowsParties(s: State, id: Hash, event: Lifecycle)
    requires id in s.index
  {
    && s.index[id].payerAddress == event.payer && s.index[id].merchantAddress == event.merchant
    && event.merchant in s.merchants && s.index[id].merchantId == s.merchants[event.merchant]
  }

  /**
   * Once every event of a mandate has been applied, its row carries the status
   * and ledger of the latest one, over any interleaving, when its events lie in
   * distinct ledgers.
   */
  lemma IndexConverges(s: State, steps: seq<Step>, id: Hash, latest: nat)
    requires Fresh(s)
    requires var r := Run(s, steps);
      && DistinctLedgers(r.log, r.merchants, id)
      && Newest(r.log, r.merchants, r.applied, id, latest)
    ensures var r := Run(s, steps);
      && id in r.index
      && r.index[id].status == StatusFor(r.log[latest].lifecycle.value.kind)
      && r.index[id].lastIndexedLedger == r.log[latest].ledger
      && ShowsParties(r, id, r.log[latest].lifecycle.value)
  {
    IndexerRun(s, steps);
    hide Run, LogOk, TicksOk, NothingPassed, DeliveriesOk, DistinctLedgers, Newest;
    var r := Run(s, steps);
    Converges(r.log, r.merchants, r.applied, id, latest);
    assert RowOk(r, id);
    assert Indexed(r.log, r.merchants, r.applied, id) == Some(latest);
  }

  /**
   * All of it together: once the cursor has passed a mandate's latest event of
   * the stream, its row shows that event, however ticks interleaved, restarted
   * and repeated each other.
   */
  lemma IndexFollowsChain(s: State, steps: seq<Step>, id: Hash, latest: nat)
    requires Fresh(s) && ContinuousRun(s, steps)
    requires var r := Run(s, steps);
      && DistinctLedgers(r.log, r.merchants, id) && Writes(r.log, r.merchants, latest, id)
      && (forall q: nat :: Writes(r.log, r.merchants, q, id) ==> r.log[q].ledger <= r.log[latest].ledger)
      && r.cursor.Some? && r.start.Some? && r.start.value <= latest < r.cursor.value.position
    ensures var r := Run(s, steps);
      && id in r.index
      && r.index[id].status == StatusFor(r.log[latest].lifecycle.value.kind)
      && r.index[id].lastIndexedLedger == r.log[latest].ledger
      && ShowsParties(r, id, r.log[latest].lifecycle.value)
  {
    NothingSkipped(s, steps, latest);
    hide Run, Fresh, ContinuousRun, DistinctLedgers;
    assert Newest(Run(s, steps).log, Run(s, steps).merchants, Run(s, steps).applied, id, latest);
    IndexConverges(s, steps, id, latest);
  }

  // ---- versions ----

  /** A row's version counts the applications that were not older than what it showed: one per accepted event, repeats included. */
  lemma VersionCountsEvents(s: State, steps: seq<Step>, id: Hash)
    requires Fresh(s)
    ensures var r := Run(s, steps);
      && (id in r.index <==> Accepted(r.log, r.merchants, r.applied, id) > 0)
      && (id in r.index ==> r.index[id].contractStateVersion == Accepted(r.log, r.merchants, r.applied, id))
  {
    IndexerRun(s, steps);
    hide Run, LogOk, TicksOk, NothingPassed, DeliveriesOk, Indexed, Accepted;
    var r := Run(s, steps);
    assert RowOk(r, id);
    NoneAccepted(r.log, r.merchants, r.applied, id);
  }

  // ---- assets ----

  /** A chain read made for an event answers with its mandate's asset. */
  predicate HonestRead(s: State, step: Step, assets: map<Hash, Address>)
  {
    step.By? && step.act.Commit? && step.act.readAsset.Some? && At(s, step.t).Resolved? && HasEvent(s, At(s, step.t).todo) ==>
      var id := s.log[At(s, step.t).todo[0]].lifecycle.value.mandateId;
      id in assets && step.act.readAsset.value == assets[id]
  }

  predicate HonestReads(s: State, steps: seq<Step>, assets: map<Hash, Address>)
  {
    steps == [] || (HonestReads(s, steps[..|steps| - 1], assets) && HonestRead(Run(s, steps[..|steps| - 1]), steps[|steps| - 1], assets))
  }

  /** Every creation in the stream carries its mandate's asset. */
  predicate CarriesAssets(log: seq<RawEvent>, assets: map<Hash, Address>)
  {
    forall p :: 0 <= p < |log| && log[p].lifecycle.Some? && log[p].lifecycle.value.kind == CreatedEvent ==>
      var event := log[p].lifecycle.value;
      event.mandateId in assets && event.asset == assets[event.mandateId]
  }

  predicate ShowsAssets(index: map<Hash, IndexRow>, assets: map<Hash, Address>)
  {
    forall id :: id in index ==> id in assets && index[id].assetAddress == assets[id]
  }

  lemma CommitShowsAssets(s: State, t: TickId, readAsset: Option<Address>, assets: map<Hash, Address>)
    requires ShowsAssets(s.index, assets) && CarriesAssets(s.log, assets) && HonestRead(s, By(t, Commit(readAsset)), assets)
    ensures ShowsAssets(DoAct(s, t, Commit(readAsset)).index, assets)
  {
    hide Enqueue;
  }

  lemma AssetsNext(s: State, step: Step, assets: map<Hash, Address>)
    requires ShowsAssets(s.index, assets) && CarriesAssets(s.log, assets) && HonestRead(s, step, assets)
    ensures ShowsAssets(Next(s, step).index, assets)
  {
    if step.By? && step.act.Commit? {
      CommitShowsAssets(s, step.t, step.act.readAsset, assets);
      ActIsNext(s, step.t, step.act);
    } else {
      hide LogOk, DoFetch, DoAdvance, HonestRead, CarriesAssets;
    }
  }

  /** Whichever event created a row, it carries the asset of its mandate, as long as the chain reads do. */
  lemma {:induction false} IndexShowsAssets(s: State, steps: seq<Step>, assets: map<Hash, Address>)
    requires Fresh(s) && HonestReads(s, steps, assets) && CarriesAssets(Run(s, steps).log, assets)
    ensures ShowsAssets(Run(s, steps).index, assets)
  {
    if steps != [] {
      var front, last := steps[..|steps| - 1], steps[|steps| - 1];
      StepGrows(Run(s, front), last);
      var log, log' := Run(s, front).log, Run(s, steps).log;
      hide Next, Fresh, HonestRead;
      assert log <= log';
      assert forall p :: 0 <= p < |log| ==> log[p] == log'[p];
      assert CarriesAssets(log, assets);
      IndexShowsAssets(s, front, assets);
      AssetsNext(Run(s, front), last, assets);
    }
  }

  // ---- the cursor ----

  /** A first run starts the configured number of ledgers behind the tip, or at the first ledger. */
  lemma FirstRunLooksBack(s: State, t: TickId)
    requires At(s, t).FirstRun?
    ensures var k := At(DoAct(s, t, ReadLatest), t);
      && k.Requesting? && k.stored == None && 1 <= k.startLedger
      && s.latest <= k.startLedger + s.config.initialLookbackLedgers
      && (k.startLedger == 1 || k.startLedger + s.config.initialLookbackLedgers == s.latest)
  {
  }

  /** The cursor only moves forward, in position and in ledger. */
  lemma CursorNeverRetreats(s: State, step: Step)
    requires IndexerOk(s) && s.cursor.Some?
    ensures var s' := Next(s, step);
      && s'.cursor.Some? && s.cursor.value.position <= s'.cursor.value.position
      && s.cursor.value.lastLedger <= s'.cursor.value.lastLedger
  {
    hide LogOk, DeliveriesOk, RowsOk, Decoded, MaxLedger, FirstAt, Upsert, Enqueue;
    if step.By? && step.act.Advance? {
      assert TickOk(s, At(s, step.t));
    } else {
      CursorMovesOnlyOnAdvance(s, step);
    }
  }

  // ---- the alarm ----

  /** When a page would begin exactly at the cursor: nothing the cursor has not passed is older than retention. */
  lemma NothingOlderUnread(s: State, c: Cursor)
    requires LogOk(s.log, s.latest) && CursorOk(s, c) && GapDetected(s, Some(c))
    ensures PageStart(s, Some(c), 0) == c.position <==> forall p :: c.position <= p < |s.log| ==> s.log[p].ledger >= s.oldest
  {
    if c.position < |s.log| { FirstAtSplits(s.log, s.latest, s.oldest, c.position); }
    forall p | c.position <= p < |s.log| && PageStart(s, Some(c), 0) == c.position ensures s.log[p].ledger >= s.oldest {
      FirstAtSplits(s.log, s.latest, s.oldest, p);
    }
  }

  /** A page in hand, with whatever was jumped over before it, is not newer than the ledger its cursor will name. */
  ghost predicate PageOld(s: State, k: Tick)
  {
    k.Applying? || k.Resolved? ==>
      forall p :: (if k.stored.Some? then k.stored.value.position else k.from) <= p < k.next.position && p < |s.log|
        ==> s.log[p].ledger <= k.next.lastLedger
  }

  /** What the cursor has passed since the start is not newer than the ledger it names. */
  ghost predicate PassedOld(s: State)
  {
    && (s.cursor.Some? && s.start.Some? ==>
          forall p :: s.start.value <= p < s.cursor.value.position && p < |s.log| ==> s.log[p].ledger <= s.cursor.value.lastLedger)
    && forall t :: PageOld(s, At(s, t))
  }

  lemma FetchedPageOld(s: State, t: TickId, k: Tick, to: nat, tolerant: bool)
    requires IndexerOk(s) && k.Requesting? && At(s, t) == k
    ensures var s' := DoFetch(s, t, k.stored, k.startLedger, to, tolerant); PageOld(s', At(s', t))
  {
    assert TickOk(s, k);
    hide TicksOk, DeliveriesOk, RowsOk, NothingPassed, Decoded, MaxLedger;
    var from := PageStart(s, k.stored, k.startLedger);
    if from <= to <= |s.log| {
      MaxLedgerExactly(s.log, from, to);
      NextCursorOk(s, k.stored, k.startLedger, from, to);
      if k.stored.Some? && !GapDetected(s, k.stored) { PageSkipsExactly(s, k.stored.value); }
    }
  }

  lemma AdvancedOld(s: State, t: TickId, k: Tick)
    requires IndexerOk(s) && PassedOld(s) && k.Applying? && k == At(s, t)
    ensures var s' := DoAdvance(s, t, k); s'.cursor.Some? && s'.start.Some? ==>
      forall p :: s'.start.value <= p < s'.cursor.value.position && p < |s'.log| ==> s'.log[p].ledger <= s'.cursor.value.lastLedger
  {
    assert TickOk(s, k) && PageOld(s, k);
    hide LogOk, DeliveriesOk, RowsOk, TicksOk;
  }

  lemma ActOld(s: State, t: TickId, act: Act)
    requires IndexerOk(s) && PassedOld(s)
    ensures PageOld(DoAct(s, t, act), At(DoAct(s, t, act), t))
  {
    var k := At(s, t);
    assert PageOld(s, k);
    hide IndexerOk, PassedOld, DoFetch, Upsert, Enqueue, ResolveMerchant, AssetFor;
    if act.Fetch? && k.Requesting? { FetchedPageOld(s, t, k, act.to, act.tolerant); }
  }

  lemma PassedOldNext(s: State, step: Step)
    requires IndexerOk(s) && PassedOld(s)
    ensures PassedOld(Next(s, step))
  {
    var s' := Next(s, step);
    StepGrows(s, step);
    if step.By? && step.act.Advance? && At(s, step.t).Applying? && At(s, step.t).todo == [] {
      AdvancedOld(s, step.t, At(s, step.t));
    } else {
      CursorOnlyThen(s, step);
      CursorWithin(s);
    }
    hide Next, IndexerOk, Grows, DoAct;
    forall t: TickId ensures PageOld(s', At(s', t)) {
      if step.By? && step.t == t {
        ActIsNext(s, t, step.act);
        ActOld(s, t, step.act);
      } else {
        OthersStay(s, step, t);
        TickWithin(s, t);
        PageStaysOld(s, s', At(s, t));
      }
    }
  }

  lemma CursorOnlyThen(s: State, step: Step)
    requires !(step.By? && step.act.Advance? && At(s, step.t).Applying? && At(s, step.t).todo == [])
    ensures var s' := Next(s, step); s'.cursor == s.cursor && s'.start == s.start && s.log <= s'.log
  {
    hide LogOk, Decoded, MaxLedger, FirstAt, Upsert, Enqueue, DoFetch, DoResolve, DoCommit;
    StepGrows(s, step);
    if !(step.By? && step.act.Advance?) { CursorMovesOnlyOnAdvance(s, step); }
  }

  lemma CursorWithin(s: State)
    requires IndexerOk(s)
    ensures s.cursor.Some? ==> s.cursor.value.position <= |s.log|
  {
    hide LogOk, TicksOk, DeliveriesOk, RowsOk;
  }

  lemma TickWithin(s: State, t: TickId)
    requires IndexerOk(s)
    ensures At(s, t).Applying? || At(s, t).Resolved? ==> At(s, t).next.position <= |s.log|
  {
    assert TickOk(s, At(s, t));
  }

  lemma PageStaysOld(s: State, s': State, k: Tick)
    requires PageOld(s, k) && Grows(s, s') && (k.Applying? || k.Resolved? ==> k.next.position <= |s.log|)
    ensures PageOld(s', k)
  {
  }

  lemma {:induction false} PassedOldRun(s: State, steps: seq<Step>)
    requires Fresh(s)
    ensures PassedOld(Run(s, steps))
  {
    if steps != [] {
      PassedOldRun(s, steps[..|steps| - 1]);
      IndexerRun(s, steps[..|steps| - 1]);
      hide IndexerOk, PassedOld, Next, Fresh;
      PassedOldNext(Run(s, steps[..|steps| - 1]), steps[|steps| - 1]);
    }
  }

  /**
   * In every interleaving: a raised alarm is false, its page would have begun
   * exactly at the cursor, if and only if since indexing began the contract has
   * published nothing in the ledgers between the one the cursor names and the
   * retention floor, and nothing more in the one it names.
   */
  lemma FalseAlarmExactly(s: State, steps: seq<Step>)
    requires Fresh(s)
    requires var r := Run(s, steps); r.cursor.Some? && r.start.Some? && GapDetected(r, r.cursor)
    ensures var r := Run(s, steps); var c := r.cursor.value;
      PageStart(r, r.cursor, 0) == c.position <==>
        && (forall p :: r.start.value <= p < |r.log| ==> !(c.lastLedger < r.log[p].ledger < r.oldest))
        && (forall p :: c.position <= p < |r.log| ==> r.log[p].ledger != c.lastLedger)
  {
    var r := Run(s, steps);
    IndexerRun(s, steps);
    PassedOldRun(s, steps);
    hide Run, Fresh, TicksOk, DeliveriesOk, RowsOk;
    NothingOlderUnread(r, r.cursor.value);
    hide LogOk, PageStart;
  }

  /** The alarm holds for the stored cursor, and no tick has a page in hand that could still move it. */
  ghost predicate Stuck(s: State)
  {
    && s.cursor.Some? && GapDetected(s, s.cursor)
    && forall t | At(s, t).Applying? || At(s, t).Resolved? :: At(s, t).stored != s.cursor
  }

  lemma ActStaysStuck(s: State, t: TickId, act: Act)
    requires Stuck(s)
    ensures var s', k := DoAct(s, t, act), At(DoAct(s, t, act), t);
      && s'.cursor == s.cursor && s'.oldest == s.oldest
      && (k.Applying? || k.Resolved? ==> k.stored != s.cursor)
  {
    hide Decoded, MaxLedger, FirstAt, NextCursor, Upsert, Enqueue, ResolveMerchant, AssetFor, HasEvent, PageStart, Asked;
    match act
    case Fetch(_, _) =>
    case Resolve =>
    case Commit(_) =>
    case Advance =>
    case _ =>
  }

  lemma StuckNext(s: State, step: Step)
    requires Stuck(s)
    ensures Stuck(Next(s, step)) && Next(s, step).cursor == s.cursor
  {
    var s' := Next(s, step);
    if step.By? {
      ActIsNext(s, step.t, step.act);
      ActStaysStuck(s, step.t, step.act);
    }
    hide DoAct, LogOk;
    forall t: TickId | At(s', t).Applying? || At(s', t).Resolved? ensures At(s', t).stored != s.cursor {
      if !(step.By? && step.t == t) { OthersStay(s, step, t); }
    }
  }

  /** From then on the cursor stands still for good, false alarm or not: nothing in the system clears it. */
  lemma {:induction false} StuckForever(s: State, steps: seq<Step>)
    requires Stuck(s)
    ensures Stuck(Run(s, steps)) && Run(s, steps).cursor == s.cursor
  {
    if steps != [] {
      hide Stuck, Next;
      StuckForever(s, steps[..|steps| - 1]);
      StuckNext(Run(s, steps[..|steps| - 1]), steps[|steps| - 1]);
    }
  }
}
