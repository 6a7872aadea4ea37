/**
 * The indexer's code: one tick after another against the shared tables, with
 * every other tick and the chain free to move between its statements. A ghost
 * trace ties each state to a run of IndexerSpec.dfy.
 */
module Indexer {
  import opened Wrappers
  import opened MandateTypes
  import opened IndexerSpec
  import opened IndexerSafety

  datatype TickOutcome = Processed(count: nat) | RetentionGap | Failed

  /** What tick `t` itself did in a run, in order. */
  function ActsOf(steps: seq<Step>, t: TickId): seq<Act>
  {
    if steps == [] then []
    else
      var last := steps[|steps| - 1];
      ActsOf(steps[..|steps| - 1], t) + if last.By? && last.t == t then [last.act] else []
  }

  lemma RunAppend(s: State, steps: seq<Step>, step: Step)
    ensures Run(s, steps + [step]) == Next(Run(s, steps), step)
    ensures forall t :: ActsOf(steps + [step], t) == ActsOf(steps, t) + if step.By? && step.t == t then [step.act] else []
  {
    assert (steps + [step])[..|steps|] == steps;
  }

  /**
   * What a tick gets from the network: whether the tip is told, whether the page
   * request is answered, where that page ends and whether the RPC skips what it
   * no longer has, how a refusal reads, and the assets of the mandates it can read.
   */
  datatype Answers = Answers(tip: bool, reached: bool, to: nat, tolerant: bool, looksLikeGap: bool, assets: map<Hash, Address>)

  /** The request is answered with a page: within the stream and the limit, and from what the RPC still has. */
  ghost predicate PageComes(s: State, k: Tick, e: Answers)
    requires k.Requesting?
  {
    var from := PageStart(s, k.stored, k.startLedger);
    e.reached && (e.tolerant || Asked(s, k.stored, k.startLedger) >= from) && from <= e.to <= |s.log| && e.to - from <= s.config.pageLimit
  }

  /** The ledgers right after the stored cursor are out of retention. */
  ghost predicate OutOfRetention(s: State, k: Tick)
    requires k.Requesting?
  {
    k.stored.Some? && k.stored.value.lastLedger + 1 < s.oldest
  }

  /** An event whose row may need an asset that nobody can tell. */
  ghost predicate Unreadable(log: seq<RawEvent>, p: nat, assets: map<Hash, Address>)
  {
    p < |log| && log[p].lifecycle.Some? && log[p].lifecycle.value.kind != CreatedEvent && log[p].lifecycle.value.mandateId !in assets
  }

  /** The state before step `n` of a run. */
  ghost function Before(origin: State, steps: seq<Step>, n: nat): State
    requires n <= |steps|
  {
    Run(origin, steps[..n])
  }

  lemma BeforeStays(origin: State, steps: seq<Step>, steps': seq<Step>, n: nat)
    requires n <= |steps| && steps <= steps'
    ensures Before(origin, steps', n) == Before(origin, steps, n)
  {
    assert steps'[..n] == steps[..n];
  }

  lemma BeforeNow(origin: State, steps: seq<Step>)
    ensures Before(origin, steps, |steps|) == Run(origin, steps)
  {
    assert steps[..|steps|] == steps;
  }

  /** What a tick that asked for a page from this state must report. */
  ghost predicate Reports(outcome: TickOutcome, s: State, k: Tick, e: Answers)
    requires k.Requesting?
  {
    if PageComes(s, k, e) && !OutOfRetention(s, k) then
      var page := Decoded(s.log, PageStart(s, k.stored, k.startLedger), e.to);
      || outcome == Processed(|page|)
      || (outcome == Failed && exists p :: p in page && Unreadable(s.log, p, e.assets))
    else outcome == if k.stored.Some? && (PageComes(s, k, e) || e.looksLikeGap) then RetentionGap else Failed
  }

  class Indexer {
    var log: seq<RawEvent>
    var latest: nat
    var oldest: nat
    var merchants: map<Address, MerchantId>
    var cursor: Option<Cursor>
    var index: map<Hash, IndexRow>
    var deliveries: seq<Delivery>
    var ticks: map<TickId, Tick>
    var applied: seq<nat>
    var lost: set<nat>
    var start: Option<nat>
    var config: Config
    ghost var trace: seq<Step>
    ghost const origin: State

    function Snapshot(): State
      reads this
    {
      State(log, latest, oldest, merchants, cursor, index, deliveries, ticks, applied, lost, start, config)
    }

    ghost predicate Valid()
      reads this
    {
      IndexerSpec.Fresh(origin) && Snapshot() == Run(origin, trace)
    }

    constructor (log: seq<RawEvent>, latest: nat, merchants: map<Address, MerchantId>, config: Config := DEFAULTS)
      requires LogOk(log, latest)
      ensures Valid() && trace == []
      ensures Snapshot() == State(log, latest, 0, merchants, None, map[], [], map[], [], {}, None, config)
    {
      this.log, this.latest, this.oldest, this.merchants := log, latest, 0, merchants;
      cursor, index, deliveries, ticks := None, map[], [], map[];
      applied, lost, start := [], {}, None;
      this.config := config;
      trace := [];
      origin := State(log, latest, 0, merchants, None, map[], [], map[], [], {}, None, config);
    }

    method AdoptStream(s: State)
      modifies this`log, this`latest, this`oldest, this`merchants, this`config
      ensures log == s.log && latest == s.latest && oldest == s.oldest && merchants == s.merchants && config == s.config
    {
      log, latest, oldest := s.log, s.latest, s.oldest;
      merchants, config := s.merchants, s.config;
    }

    method AdoptTables(s: State)
      modifies this`cursor, this`index, this`deliveries, this`ticks
      ensures cursor == s.cursor && index == s.index && deliveries == s.deliveries && ticks == s.ticks
    {
      cursor, index, deliveries, ticks := s.cursor, s.index, s.deliveries, s.ticks;
    }

    method Adopt(s: State)
      modifies this
      ensures Snapshot() == s && trace == old(trace)
    {
      AdoptStream(s);
      AdoptTables(s);
      applied, lost, start := s.applied, s.lost, s.start;
    }

    /** Between two statements anyone else may take any number of steps. */
    method Yield(t: TickId)
      requires Valid()
      modifies this
      ensures Valid() && old(trace) <= trace && ActsOf(trace, t) == old(ActsOf(trace, t))
      ensures At(Snapshot(), t) == old(At(Snapshot(), t)) && Grows(old(Snapshot()), Snapshot())
    {
      var n: nat := *;
      var i := 0;
      while i < n
        invariant Valid() && old(trace) <= trace && ActsOf(trace, t) == old(ActsOf(trace, t))
        invariant At(Snapshot(), t) == old(At(Snapshot(), t)) && Grows(old(Snapshot()), Snapshot())
      {
        var step: Step := *;
        if !(step.By? && step.t == t) {
          OthersStay(Snapshot(), step, t);
          StepGrows(Snapshot(), step);
          RunAppend(origin, trace, step);
          hide Next, Run, ActsOf, IndexerSpec.Fresh;
          Adopt(Next(Snapshot(), step));
          trace := trace + [step];
        }
        i := i + 1;
      }
    }

    /** Records a step this code has just taken. */
    ghost method Record(before: State, step: Step)
      requires IndexerSpec.Fresh(origin) && before == Run(origin, trace) && Snapshot() == Next(before, step)
      modifies this`trace
      ensures Valid() && trace == old(trace) + [step]
      ensures forall t :: ActsOf(trace, t) == old(ActsOf(trace, t)) + if step.By? && step.t == t then [step.act] else []
    {
      RunAppend(origin, trace, step);
      trace := trace + [step];
    }

    // ---- cursor ----

    method GetIndexerCursor() returns (stored: Option<Cursor>)
      ensures stored == cursor
    {
      stored := cursor;
    }

    /** Creates the row if there was none, otherwise compares and swaps; a lost race is not an error. */
    method AdvanceIndexerCursor(previous: Option<Cursor>, next: Cursor) returns (won: bool)
      modifies this`cursor
      ensures won == (old(cursor) == previous)
      ensures cursor == if won then Some(next) else old(cursor)
    {
      if previous.None? {
        won := cursor.None?;
        if won { cursor := Some(next); }
        return;
      }
      won := cursor.Some? && cursor.value.lastLedger == previous.value.lastLedger && cursor.value.position == previous.value.position;
      if won { cursor := Some(next); }
    }

    // ---- pages ----

    /** Walks a page once: the decoded events in order, and the highest ledger of all of them. */
    method ReadPage(from: nat, to: nat) returns (events: seq<nat>, pageMaxLedger: Option<nat>)
      requires from <= to <= |log|
      ensures events == Decoded(log, from, to) && pageMaxLedger == MaxLedger(log, from, to)
    {
      events, pageMaxLedger := [], None;
      var i := from;
      while i < to
        invariant from <= i <= to
        invariant events == Decoded(log, from, i) && pageMaxLedger == MaxLedger(log, from, i)
      {
        if pageMaxLedger.None? || log[i].ledger > pageMaxLedger.value { pageMaxLedger := Some(log[i].ledger); }
        if log[i].lifecycle.Some? { events := events + [i]; }
        i := i + 1;
      }
    }

    // ---- one event ----

    method UpsertMandateIndexFromEvent(p: nat, merchantId: MerchantId, asset: Address)
      requires p < |log| && log[p].lifecycle.Some?
      modifies this`index
      ensures var event := log[p].lifecycle.value;
        index == old(index)[event.mandateId := Upsert(RowOf(old(index), event.mandateId), event, log[p].ledger, merchantId, asset)]
      ensures var event := log[p].lifecycle.value;
        event.mandateId !in old(index) || old(index)[event.mandateId].lastIndexedLedger <= log[p].ledger ==>
          event.mandateId in index && index[event.mandateId].lastIndexedLedger == log[p].ledger
          && match event.kind
             case CreatedEvent => index[event.mandateId].status == Active
             case PausedEvent => index[event.mandateId].status == Paused
             case ResumedEvent => index[event.mandateId].status == Active
             case RevokedEvent => index[event.mandateId].status == Revoked
             case CompletedEvent => index[event.mandateId].status == Completed
    {
      var event := log[p].lifecycle.value;
      if event.mandateId !in index {
        index := index[event.mandateId := IndexRow(merchantId, event.payer, event.merchant, asset, StatusFor(event.kind), 1, log[p].ledger)];
      } else {
        var row := index[event.mandateId];
        if row.lastIndexedLedger <= log[p].ledger {
          index := index[event.mandateId := row.(
            merchantId := merchantId, payerAddress := event.payer, merchantAddress := event.merchant, assetAddress := asset,
            status := StatusFor(event.kind), contractStateVersion := row.contractStateVersion + 1, lastIndexedLedger := log[p].ledger)];
        }
      }
    }

    method EnqueueDeterministicWebhook(d: Delivery)
      modifies this`deliveries
      ensures deliveries == Enqueue(old(deliveries), d)
    {
      if !HasDelivery(deliveries, d.eventId) { deliveries := deliveries + [d]; }
    }

    /** Resolve, then the one transaction; false when the asset could not be read and the tick fails. */
    method ApplyMandateLifecycleEvent(t: TickId, assets: map<Hash, Address>) returns (ok: bool, ghost acts: seq<Act>)
      requires Valid() && At(Snapshot(), t).Applying? && HasEvent(Snapshot(), At(Snapshot(), t).todo)
      modifies this
      ensures Valid() && old(trace) <= trace && ActsOf(trace, t) == old(ActsOf(trace, t)) + acts
      ensures Advance !in acts && Grows(old(Snapshot()), Snapshot())
      ensures var k := old(At(Snapshot(), t));
        At(Snapshot(), t) == if ok then Applying(k.stored, k.from, k.next, k.todo[1..]) else Idle
      ensures ok ==> old(At(Snapshot(), t)).todo[0] in applied
      ensures !ok ==> Unreadable(log, old(At(Snapshot(), t)).todo[0], assets)
    {
      var k := ticks[t];
      var p := k.todo[0];
      var id := log[p].lifecycle.value.mandateId;
      ok := Resolving(t);
      acts := [Resolve];
      if !ok { return true, acts; }
      Yield(t);
      var readAsset := if id in assets then Some(assets[id]) else None;
      ok := Committing(t, readAsset);
      acts := acts + [Commit(readAsset)];
    }

    /** Names the merchant, or passes the event over. */
    method Resolving(t: TickId) returns (known: bool)
      requires Valid() && At(Snapshot(), t).Applying? && HasEvent(Snapshot(), At(Snapshot(), t).todo)
      modifies this
      ensures Valid() && trace == old(trace) + [By(t, Resolve)] && ActsOf(trace, t) == old(ActsOf(trace, t)) + [Resolve]
      ensures Grows(old(Snapshot()), Snapshot()) && HasEvent(Snapshot(), old(At(Snapshot(), t)).todo)
      ensures var k := old(At(Snapshot(), t));
        if known then At(Snapshot(), t).Resolved? && At(Snapshot(), t) == Resolved(k.stored, k.from, k.next, k.todo, At(Snapshot(), t).merchantId)
        else At(Snapshot(), t) == Applying(k.stored, k.from, k.next, k.todo[1..]) && k.todo[0] in applied
    {
      ghost var before := Snapshot();
      var k := ticks[t];
      var event := log[k.todo[0]].lifecycle.value;
      if event.mandateId in index {
        ticks := ticks[t := Resolved(k.stored, k.from, k.next, k.todo, index[event.mandateId].merchantId)];
        known := true;
      } else if event.merchant in merchants {
        ticks := ticks[t := Resolved(k.stored, k.from, k.next, k.todo, merchants[event.merchant])];
        known := true;
      } else {
        ticks := ticks[t := Applying(k.stored, k.from, k.next, k.todo[1..])];
        applied := applied + [k.todo[0]];
        assert applied[|applied| - 1] == k.todo[0];
        known := false;
      }
      StepGrows(before, By(t, Resolve));
      Record(before, By(t, Resolve));
    }

    /** The row and its notice, in one transaction. */
    method RunTransaction(p: nat, merchantId: MerchantId, asset: Address)
      requires p < |log| && log[p].lifecycle.Some?
      modifies this
      ensures Snapshot() == ApplyEvent(old(Snapshot()), p, merchantId, asset) && trace == old(trace)
    {
      var event := log[p].lifecycle.value;
      UpsertMandateIndexFromEvent(p, merchantId, asset);
      var notice := NoticeFor(event.kind);
      if notice.Some? { EnqueueDeterministicWebhook(Delivery(merchantId, log[p].rpcEventId, notice.value, event)); }
      applied := applied + [p];
    }

    /** The row and its notice together, or neither. */
    method Committing(t: TickId, readAsset: Option<Address>) returns (ok: bool)
      requires Valid() && At(Snapshot(), t).Resolved? && HasEvent(Snapshot(), At(Snapshot(), t).todo)
      modifies this
      ensures Valid() && trace == old(trace) + [By(t, Commit(readAsset))]
      ensures ActsOf(trace, t) == old(ActsOf(trace, t)) + [Commit(readAsset)]
      ensures Grows(old(Snapshot()), Snapshot())
      ensures var k := old(At(Snapshot(), t));
        if ok then At(Snapshot(), t) == Applying(k.stored, k.from, k.next, k.todo[1..]) && k.todo[0] in applied
        else At(Snapshot(), t) == Idle
      ensures !ok ==> readAsset.None? && var p := old(At(Snapshot(), t)).todo[0];
        p < |log| && log == old(log) && log[p].lifecycle.Some? && log[p].lifecycle.value.kind != CreatedEvent
    {
      ghost var before := Snapshot();
      var k := ticks[t];
      var p := k.todo[0];
      var event := log[p].lifecycle.value;
      var asset := if event.mandateId in index then Some(index[event.mandateId].assetAddress)
                   else if event.kind == CreatedEvent then Some(event.asset) else readAsset;
      if asset.None? {
        ticks := ticks[t := Idle];
        ok := false;
      } else {
        RunTransaction(p, k.merchantId, asset.value);
        ticks := ticks[t := Applying(k.stored, k.from, k.next, k.todo[1..])];
        assert ApplyEvent(before, p, k.merchantId, asset.value).applied[|before.applied|] == p;
        ok := true;
      }
      hide ApplyEvent, Run, ActsOf, IndexerSpec.Fresh;
      CommitIsStep(before, t, k, readAsset);
      hide DoAct;
      StepGrows(before, By(t, Commit(readAsset)));
      hide Grows;
      Record(before, By(t, Commit(readAsset)));
    }

    // ---- one tick ----

    /** Reads the cursor; a first run asks for the chain's tip and starts a bounded way behind it. */
    method StartTick(t: TickId, e: Answers) returns (ok: bool, ghost acts: seq<Act>)
      requires Valid() && At(Snapshot(), t) == Idle
      modifies this
      ensures Valid() && old(trace) <= trace && ActsOf(trace, t) == old(ActsOf(trace, t)) + acts && Advance !in acts
      ensures ok <==> old(cursor).Some? || e.tip
      ensures !ok ==> At(Snapshot(), t) == Idle
      ensures ok ==> At(Snapshot(), t).Requesting? && At(Snapshot(), t).stored == old(cursor)
    {
      hide Run, ActsOf, IndexerSpec.Fresh;
      ghost var before := Snapshot();
      var stored := GetIndexerCursor();
      ticks := ticks[t := if stored.Some? then Requesting(stored, 0) else FirstRun];
      Record(before, By(t, ReadCursor));
      acts := [ReadCursor];
      if stored.Some? { return true, acts; }
      Yield(t);
      if !e.tip {
        StopTick(t);
        return false, acts + [Stop];
      }
      before := Snapshot();
      ticks := ticks[t := Requesting(None, Max(1, latest - config.initialLookbackLedgers))];
      Record(before, By(t, ReadLatest));
      acts := acts + [ReadLatest];
      ok := true;
    }

    method StopTick(t: TickId)
      requires Valid()
      modifies this
      ensures Valid() && trace == old(trace) + [By(t, Stop)] && ActsOf(trace, t) == old(ActsOf(trace, t)) + [Stop]
      ensures Snapshot() == Goto(old(Snapshot()), t, Idle)
    {
      ghost var before := Snapshot();
      ticks := ticks[t := Idle];
      Record(before, By(t, Stop));
    }

    /** One page, or a failure: the RPC's own, which may read like a gap, or the gap test's. */
    method FetchPage(t: TickId, e: Answers) returns (failure: Option<TickOutcome>, ghost act: Act)
      requires Valid() && At(Snapshot(), t).Requesting?
      modifies this
      ensures Valid() && trace == old(trace) + [By(t, act)] && ActsOf(trace, t) == old(ActsOf(trace, t)) + [act] && act != Advance
      ensures log == old(log)
      ensures var k := old(At(Snapshot(), t)); failure.None? <==> old(PageComes(Snapshot(), At(Snapshot(), t), e)) && !OutOfRetention(old(Snapshot()), k)
      ensures var k := old(At(Snapshot(), t));
        if failure.Some? then
          At(Snapshot(), t) == Idle && !failure.value.Processed? && Reports(failure.value, old(Snapshot()), k, e)
        else
          var from := PageStart(old(Snapshot()), k.stored, k.startLedger);
          && from <= e.to <= |log|
          && ticks == old(ticks)[t := At(Snapshot(), t)]
          && At(Snapshot(), t) == Applying(k.stored, from, NextCursor(old(Snapshot()), k.stored, k.startLedger, from, e.to), Decoded(log, from, e.to))
          && PageInHand(At(Snapshot(), t))
    {
      hide Decoded, MaxLedger, Run, ActsOf, IndexerSpec.Fresh, LogOk, FirstAt;
      var k := ticks[t];
      var to, tolerant := e.to, e.tolerant;
      var from := PageStart(Snapshot(), k.stored, k.startLedger);
      var refused := !e.reached || (!tolerant && Asked(Snapshot(), k.stored, k.startLedger) < from);
      if refused || !(from <= to <= |log| && to - from <= config.pageLimit) {
        StopTick(t);
        return Some(if k.stored.Some? && e.looksLikeGap then RetentionGap else Failed), Stop;
      }
      act := Fetch(to, tolerant);
      ghost var before := Snapshot();
      if k.stored.Some? && oldest > k.stored.value.lastLedger + 1 {
        ticks := ticks[t := Idle];
        failure := Some(RetentionGap);
      } else {
        var events, pageMaxLedger := ReadPage(from, to);
        var newLastLedger := if pageMaxLedger.Some? then pageMaxLedger.value
                             else if k.stored.Some? then k.stored.value.lastLedger else k.startLedger;
        ticks := ticks[t := Applying(k.stored, from, Cursor(newLastLedger, to), events)];
        failure := None;
      }
      FetchIsStep(before, t, k, to, tolerant);
      hide DoAct;
      Record(before, By(t, Fetch(to, tolerant)));
    }

    /** The events in hand are those of one page. */
    ghost predicate PageInHand(k: Tick)
      requires k.Applying?
      reads this
    {
      && k.from <= k.next.position <= |log|
      && k.todo == Decoded(log, k.from, k.next.position)
    }

    /** Applies what is in hand, in order, each event in its own transaction. */
    method ApplyPage(t: TickId, assets: map<Hash, Address>) returns (ok: bool, ghost acts: seq<Act>)
      requires Valid() && At(Snapshot(), t).Applying? && PageInHand(At(Snapshot(), t))
      modifies this
      ensures Valid() && old(trace) <= trace && ActsOf(trace, t) == old(ActsOf(trace, t)) + acts && Advance !in acts
      ensures Grows(old(Snapshot()), Snapshot())
      ensures var k := old(At(Snapshot(), t)); At(Snapshot(), t) == if ok then Applying(k.stored, k.from, k.next, []) else Idle
      ensures ok ==> forall p :: p in old(At(Snapshot(), t)).todo ==> p in applied
      ensures !ok ==> exists p :: p in old(At(Snapshot(), t)).todo && Unreadable(log, p, assets)
    {
      var k := At(Snapshot(), t);
      acts := [];
      ok := true;
      ghost var first := Snapshot();
      ghost var done: seq<nat> := [];
      TodoOk(Snapshot(), k);
      GrowsTransitive(first, first, first);
      var todo := k.todo;
      hide *;
      while todo != []
        invariant Valid() && old(trace) <= trace && ActsOf(trace, t) == old(ActsOf(trace, t)) + acts && Advance !in acts
        invariant Grows(first, Snapshot()) && AllEvents(Snapshot(), todo) && AllApplied(Snapshot(), done)
        invariant At(Snapshot(), t) == Applying(k.stored, k.from, k.next, todo)
        invariant k.todo == done + todo
        decreases |todo|
      {
        ghost var before := Snapshot();
        ghost var more;
        FirstHasEvent(before, todo);
        ok, more := ApplyNext(t, assets);
        Joined(old(ActsOf(trace, t)), acts, more);
        acts := acts + more;
        GrowsTransitive(first, before, Snapshot());
        if !ok {
          assert todo[0] in k.todo && Unreadable(log, todo[0], assets);
          return;
        }
        AfterFirst(before, Snapshot(), todo, done);
        done := done + [todo[0]];
        todo := todo[1..];
      }
      AllAppliedAt(Snapshot(), k.todo, done);
    }

    method ApplyNext(t: TickId, assets: map<Hash, Address>) returns (ok: bool, ghost acts: seq<Act>)
      requires Valid() && At(Snapshot(), t).Applying? && HasEvent(Snapshot(), At(Snapshot(), t).todo)
      modifies this
      ensures Valid() && old(trace) <= trace && ActsOf(trace, t) == old(ActsOf(trace, t)) + acts && Advance !in acts
      ensures Grows(old(Snapshot()), Snapshot())
      ensures var k := old(At(Snapshot(), t)); At(Snapshot(), t) == if ok then Applying(k.stored, k.from, k.next, k.todo[1..]) else Idle
      ensures ok ==> old(At(Snapshot(), t)).todo[0] in applied
      ensures !ok ==> Unreadable(log, old(At(Snapshot(), t)).todo[0], assets)
    {
      hide Run, ActsOf, IndexerSpec.Fresh, Grows;
      ghost var before := Snapshot();
      ghost var todo := At(before, t).todo;
      Yield(t);
      ghost var between := Snapshot();
      HasEventStays(before, between, todo);
      ok, acts := ApplyMandateLifecycleEvent(t, assets);
      GrowsTransitive(before, between, Snapshot());
    }

    /** Moves the shared cursor, unless someone else did. */
    method FinishTick(t: TickId)
      requires Valid() && At(Snapshot(), t).Applying? && At(Snapshot(), t).todo == []
      modifies this
      ensures Valid() && trace == old(trace) + [By(t, Advance)] && ActsOf(trace, t) == old(ActsOf(trace, t)) + [Advance]
      ensures At(Snapshot(), t) == Idle && cursor.Some? && applied == old(applied)
    {
      ghost var before := Snapshot();
      IndexerRun(origin, trace);
      CursorStored(before, t);
      hide IndexerOk;
      var k := ticks[t];
      var won := AdvanceIndexerCursor(k.stored, k.next);
      if won {
        if start.None? { start := Some(k.from); }
        if k.stored.Some? { lost := lost + Range(k.stored.value.position, k.from); }
      }
      ticks := ticks[t := Idle];
      Record(before, By(t, Advance));
    }

    /**
     * One tick, from any reachable state and against any interference. It gives
     * up before its page only when a first run is not told the tip; then it
     * reports a page processed exactly when one comes and the cursor is within
     * retention, unless the asset of one of its events cannot be read; that page
     * is then applied and a cursor stored. A failure never touches the cursor.
     */
    method RunIndexerTick(t: TickId, e: Answers) returns (outcome: TickOutcome, ghost acts: seq<Act>, ghost page: seq<nat>, ghost fetch: nat)
      requires Valid() && At(Snapshot(), t) == Idle
      modifies this
      ensures Valid() && old(trace) <= trace && ActsOf(trace, t) == old(ActsOf(trace, t)) + acts
      ensures At(Snapshot(), t) == Idle
      ensures outcome.Processed? ==> cursor.Some? && |page| == outcome.count && forall p :: p in page ==> p in applied
      ensures outcome.Processed? <==> Advance in acts
      ensures old(cursor).None? && !e.tip ==> outcome == Failed
      ensures old(cursor).Some? || e.tip ==>
        && fetch < |trace| && trace[fetch].By? && trace[fetch].t == t
        && var s := Before(origin, trace, fetch);
           && At(s, t).Requesting? && At(s, t).stored == old(cursor)
           && Reports(outcome, s, At(s, t), e)
           && (outcome.Processed? ==> page == Decoded(s.log, PageStart(s, At(s, t).stored, At(s, t).startLedger), e.to))
    {
      hide Run, ActsOf, IndexerSpec.Fresh, Grows, Decoded, NextCursor, PageStart, PageComes, Before;
      page, fetch := [], 0;
      ghost var more, act;
      var ok;
      ok, acts := StartTick(t, e);
      if !ok { return Failed, acts, page, fetch; }
      Yield(t);
      fetch := |trace|;
      BeforeNow(origin, trace);
      ghost var before, sofar := Snapshot(), trace;
      var failure;
      failure, act := FetchPage(t, e);
      acts := acts + [act];
      if failure.Some? {
        outcome := failure.value;
        BeforeStays(origin, sofar, trace, fetch);
        return;
      }
      var events := ticks[t].todo;
      page := events;
      ghost var fetched := Snapshot();
      ok, more := ApplyPage(t, e.assets);
      acts := acts + more;
      if ok {
        FinishTick(t);
        acts := acts + [Advance];
        outcome := Processed(|events|);
      } else {
        outcome := Failed;
        GrowsLog(fetched, Snapshot());
        UnreadableThen(before.log, log, PageStart(before, At(before, t).stored, At(before, t).startLedger), e.to, e.assets);
      }
      BeforeStays(origin, sofar, trace, fetch);
    }
  }

  lemma GrowsLog(s: State, s': State)
    requires Grows(s, s')
    ensures s.log <= s'.log
  {
  }

  /** Events of a page are in the stream it was fetched from. */
  lemma UnreadableThen(log: seq<RawEvent>, log': seq<RawEvent>, from: nat, to: nat, assets: map<Hash, Address>)
    requires log <= log' && from <= to <= |log|
    requires exists p :: p in Decoded(log, from, to) && Unreadable(log', p, assets)
    ensures exists p :: p in Decoded(log, from, to) && Unreadable(log, p, assets)
  {
    DecodedExactly(log, from, to);
    hide Decoded;
    var p :| p in Decoded(log, from, to) && Unreadable(log', p, assets);
    assert log'[p] == log[p];
    assert Unreadable(log, p, assets);
  }

  lemma FetchIsStep(s: State, t: TickId, k: Tick, to: nat, tolerant: bool)
    requires At(s, t) == k && k.Requesting?
    ensures Next(s, By(t, Fetch(to, tolerant))) == DoFetch(s, t, k.stored, k.startLedger, to, tolerant)
  {
    hide DoFetch;
  }

  lemma CommitIsStep(s: State, t: TickId, k: Tick, readAsset: Option<Address>)
    requires At(s, t) == k && k.Resolved? && HasEvent(s, k.todo)
    ensures Next(s, By(t, Commit(readAsset))) == DoCommit(s, t, k, readAsset)
  {
    hide DoCommit;
  }

  lemma GrowsTransitive(a: State, b: State, c: State)
    requires (Grows(a, b) && Grows(b, c)) || a == b == c
    ensures Grows(a, c)
  {
  }

  lemma HasEventStays(s: State, s': State, todo: seq<nat>)
    requires Grows(s, s') && HasEvent(s, todo)
    ensures HasEvent(s', todo)
  {
  }

  lemma Joined(before: seq<Act>, acts: seq<Act>, more: seq<Act>)
    ensures before + acts + more == before + (acts + more)
    ensures Advance in acts + more <==> Advance in acts || Advance in more
  {
  }

  /** Positions of decoded events. */
  predicate AllEvents(s: State, todo: seq<nat>)
  {
    forall i :: 0 <= i < |todo| ==> todo[i] < |s.log| && s.log[todo[i]].lifecycle.Some?
  }

  predicate AllApplied(s: State, done: seq<nat>)
  {
    forall i :: 0 <= i < |done| ==> done[i] in s.applied
  }

  /** Every position of a page in hand holds a decoded event. */
  lemma TodoOk(s: State, k: Tick)
    requires k.Applying? && k.from <= k.next.position <= |s.log| && k.todo == Decoded(s.log, k.from, k.next.position)
    ensures AllEvents(s, k.todo) && AllApplied(s, [])
  {
    DecodedExactly(s.log, k.from, k.next.position);
    forall i | 0 <= i < |k.todo| ensures k.todo[i] < |s.log| && s.log[k.todo[i]].lifecycle.Some? { assert k.todo[i] in k.todo; }
  }

  lemma FirstHasEvent(s: State, todo: seq<nat>)
    requires todo != [] && AllEvents(s, todo)
    ensures HasEvent(s, todo)
  {
  }

  lemma AfterFirst(s: State, s': State, todo: seq<nat>, done: seq<nat>)
    requires Grows(s, s') && todo != [] && AllEvents(s, todo) && AllApplied(s, done) && todo[0] in s'.applied
    ensures AllEvents(s', todo[1..]) && AllApplied(s', done + [todo[0]])
    ensures done + todo == (done + [todo[0]]) + todo[1..]
  {
    AppliedGrows(s, s', done);
  }

  lemma AllAppliedAt(s: State, todo: seq<nat>, done: seq<nat>)
    requires AllApplied(s, done) && todo == done + []
    ensures forall p :: p in todo ==> p in s.applied
  {
    assert done + [] == done;
  }

  /** A tick that read a cursor finds one when it finishes. */
  lemma CursorStored(s: State, t: TickId)
    requires IndexerOk(s) && At(s, t).Applying?
    ensures At(s, t).stored.Some? ==> s.cursor.Some?
  {
    assert TickOk(s, At(s, t));
  }

  lemma AppliedGrows(s: State, s': State, done: seq<nat>)
    requires Grows(s, s') && forall j :: 0 <= j < |done| ==> done[j] in s.applied
    ensures forall j :: 0 <= j < |done| ==> done[j] in s'.applied
  {
    forall j | 0 <= j < |done| ensures done[j] in s'.applied { AppliedStays(s, s', done[j]); }
  }
}
