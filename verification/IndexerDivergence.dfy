/**
 * Two events of one ledger, and a slow tick that applies the first of them
 * again: the mandate's row ends at the older status, with everything applied
 * and the cursor past it.
 */
module IndexerDivergence {
  import opened Wrappers
  import opened MandateTypes
  import opened IndexerSpec
  import IndexerGap

  const PAUSED := Lifecycle(PausedEvent, Raw(1), 1, 2, 3)
  const RESUMED := PAUSED.(kind := ResumedEvent)

  const LOG: seq<RawEvent> := [RawEvent(7, 1, Some(PAUSED)), RawEvent(7, 2, Some(RESUMED))]

  const BEFORE := State(LOG, 7, 0, map[2 := 0], None, map[], [], map[], [], {}, None, DEFAULTS)

  ghost predicate Reached(s: State)
  {
    exists steps :: Run(BEFORE, steps) == s
  }

  lemma ReachNext(s: State, step: Step)
    requires Reached(s)
    ensures Reached(Next(s, step))
  {
    var steps :| Run(BEFORE, steps) == s;
    IndexerGap.RunTwo(BEFORE, steps, [step]);
    IndexerGap.RunOne(s, step);
  }

  function Page(todo: seq<nat>): Tick { Applying(None, 0, Cursor(7, 2), todo) }

  function Row(status: MandateStatus, version: nat): IndexRow { IndexRow(0, 1, 2, 3, status, version, 7) }

  const NOTICES: seq<Delivery> := [Delivery(0, 1, PausedNotice, PAUSED), Delivery(0, 2, ResumedNotice, RESUMED)]

  /** Both ticks hold the same page. */
  const BOTH := BEFORE.(ticks := map[0 := Page([0, 1]), 1 := Page([0, 1])])

  lemma BothFetch()
    ensures Reached(BOTH)
  {
    assert Run(BEFORE, []) == BEFORE;
    assert FirstAt(LOG, 0) == 0 && FirstAt(LOG, 1) == 0 by { assert LOG[0].ledger == 7; }
    PageOfBoth();
    Fetches(BEFORE, 0);
    Fetches(BEFORE.(ticks := map[0 := Page([0, 1])]), 1);
    assert BOTH == BEFORE.(ticks := map[0 := Page([0, 1])][1 := Page([0, 1])]);
  }

  lemma PageOfBoth()
    ensures Decoded(LOG, 0, 2) == [0, 1] && MaxLedger(LOG, 0, 2) == Some(7)
  {
    assert LOG[0].ledger == 7 && LOG[1].ledger == 7 && LOG[0].lifecycle.Some? && LOG[1].lifecycle.Some?;
    assert Decoded(LOG, 0, 0) == [] && MaxLedger(LOG, 0, 0) == None;
    assert Decoded(LOG, 0, 1) == [] + [0] && MaxLedger(LOG, 0, 1) == Some(7);
    assert Decoded(LOG, 0, 2) == Decoded(LOG, 0, 1) + [1];
  }

  /** One tick reads no cursor, the tip, and the page. */
  lemma Fetches(s: State, t: TickId)
    requires Reached(s) && s == BEFORE.(ticks := s.ticks) && t !in s.ticks
    requires FirstAt(LOG, 0) == 0 && FirstAt(LOG, 1) == 0
    requires Decoded(LOG, 0, 2) == [0, 1] && MaxLedger(LOG, 0, 2) == Some(7)
    ensures Reached(s.(ticks := s.ticks[t := Page([0, 1])]))
  {
    ReachNext(s, By(t, ReadCursor));
    var s1 := Goto(s, t, FirstRun);
    assert Next(s, By(t, ReadCursor)) == s1;
    ReachNext(s1, By(t, ReadLatest));
    var s2 := Goto(s, t, Requesting(None, 1));
    assert Next(s1, By(t, ReadLatest)) == s2;
    ReachNext(s2, By(t, Fetch(2, true)));
    assert Next(s2, By(t, Fetch(2, true))) == Goto(s, t, Page([0, 1]));
  }

  lemma Resolves(s: State, t: TickId, p: nat, rest: seq<nat>)
    requires Reached(s) && s.log == LOG && s.merchants == map[2 := 0] && p < 2 && At(s, t) == Page([p] + rest)
    requires Raw(1) in s.index ==> s.index[Raw(1)].merchantId == 0
    ensures Reached(Goto(s, t, Resolved(None, 0, Cursor(7, 2), [p] + rest, 0)))
  {
    ReachNext(s, By(t, Resolve));
    assert ResolveMerchant(s, LOG[p].lifecycle.value) == Some(0);
    hide Reached, ResolveMerchant;
    assert Next(s, By(t, Resolve)) == Goto(s, t, Resolved(None, 0, Cursor(7, 2), [p] + rest, 0));
  }

  lemma Commits(s: State, t: TickId, p: nat, rest: seq<nat>)
    requires Reached(s) && s.log == LOG && p < 2 && At(s, t) == Resolved(None, 0, Cursor(7, 2), [p] + rest, 0)
    requires Raw(1) in s.index ==> s.index[Raw(1)].assetAddress == 3
    ensures Reached(Goto(ApplyEvent(s, p, 0, 3), t, Page(rest)))
  {
    ReachNext(s, By(t, Commit(Some(3))));
    assert AssetFor(RowOf(s.index, Raw(1)), LOG[p].lifecycle.value, Some(3)) == Some(3);
    assert ([p] + rest)[1..] == rest;
    hide Reached, ApplyEvent, AssetFor;
    assert Next(s, By(t, Commit(Some(3)))) == Goto(ApplyEvent(s, p, 0, 3), t, Page(rest));
  }

  /** One tick applies the first event it has in hand. */
  lemma Applies(s: State, t: TickId, p: nat, rest: seq<nat>)
    requires Reached(s) && s.log == LOG && s.merchants == map[2 := 0] && p < 2
    requires At(s, t) == Page([p] + rest)
    requires Raw(1) in s.index ==> s.index[Raw(1)].merchantId == 0 && s.index[Raw(1)].assetAddress == 3
    ensures Reached(Goto(ApplyEvent(s, p, 0, 3), t, Page(rest)))
  {
    hide Reached, Upsert, Enqueue;
    Resolves(s, t, p, rest);
    var s1 := Goto(s, t, Resolved(None, 0, Cursor(7, 2), [p] + rest, 0));
    Commits(s1, t, p, rest);
    assert Goto(ApplyEvent(s1, p, 0, 3), t, Page(rest)) == Goto(ApplyEvent(s, p, 0, 3), t, Page(rest));
  }

  const FIRST := BOTH.(
    index := map[Raw(1) := Row(Paused, 1)], deliveries := NOTICES[..1], applied := [0],
    ticks := map[0 := Page([1]), 1 := Page([0, 1])])

  const SECOND := BOTH.(
    index := map[Raw(1) := Row(Active, 2)], deliveries := NOTICES, applied := [0, 1],
    ticks := map[0 := Page([]), 1 := Page([0, 1])])

  const AGAIN := SECOND.(
    index := map[Raw(1) := Row(Paused, 3)], applied := [0, 1, 0],
    ticks := map[0 := Page([]), 1 := Page([1])])

  lemma FirstApplication()
    ensures Goto(ApplyEvent(BOTH, 0, 0, 3), 0, Page([1])) == FIRST
  {
    assert [] + [NOTICES[0]] == NOTICES[..1];
  }

  lemma SecondApplication()
    ensures Goto(ApplyEvent(FIRST, 1, 0, 3), 0, Page([])) == SECOND
  {
    assert [0] + [1] == [0, 1];
    assert !HasDelivery(NOTICES[..1], 2);
    assert NOTICES[..1] + [NOTICES[1]] == NOTICES;
  }

  lemma RepeatedApplication()
    ensures Goto(ApplyEvent(SECOND, 0, 0, 3), 1, Page([1])) == AGAIN
  {
    assert NOTICES[0].eventId == 1 && HasDelivery(NOTICES, 1);
    assert [0, 1] + [0] == [0, 1, 0];
  }

  /** Tick 0 applies both events, tick 1 the first one again. */
  lemma ThirdApplication()
    ensures Reached(AGAIN)
  {
    BothFetch();
    assert [0] + [1] == [0, 1] && [1] + [] == [1];
    assert Raw(1) !in BOTH.index && FIRST.index[Raw(1)].merchantId == 0 && FIRST.index[Raw(1)].assetAddress == 3;
    assert SECOND.index[Raw(1)].merchantId == 0 && SECOND.index[Raw(1)].assetAddress == 3;
    assert At(BOTH, 0) == Page([0, 1]) && At(FIRST, 0) == Page([1]) && At(SECOND, 1) == Page([0, 1]);
    hide ApplyEvent, Reached, At, Goto;
    FirstApplication();
    SecondApplication();
    RepeatedApplication();
    Applies(BOTH, 0, 0, [1]);
    Applies(FIRST, 0, 1, []);
    Applies(SECOND, 1, 0, [1]);
  }

  const ENDED := AGAIN.(ticks := map[0 := Idle, 1 := Idle], cursor := Some(Cursor(7, 2)), start := Some(0))

  /** Tick 1 stops, tick 0 moves the cursor. */
  lemma BothEnd()
    ensures Reached(ENDED)
  {
    ThirdApplication();
    ReachNext(AGAIN, By(1, Stop));
    var s1 := AGAIN.(ticks := map[0 := Page([]), 1 := Idle]);
    assert Next(AGAIN, By(1, Stop)) == s1;
    ReachNext(s1, By(0, Advance));
    assert Next(s1, By(0, Advance)) == ENDED;
  }

  lemma StartsFresh()
    ensures IndexerSpec.Fresh(BEFORE)
  {
  }

  /**
   * A run in which a pause and a resume of one ledger are both applied and both
   * passed by the cursor, and the row says paused for good: the tick that
   * repeated the pause has stopped.
   */
  lemma EqualLedgersDiverge()
    ensures IndexerSpec.Fresh(BEFORE)
    ensures exists steps :: var s := Run(BEFORE, steps);
      && s.log == LOG && 0 in s.applied && 1 in s.applied
      && s.start == Some(0) && s.cursor == Some(Cursor(7, 2)) && At(s, 0) == Idle && At(s, 1) == Idle
      && Raw(1) in s.index && s.index[Raw(1)].status == Paused && StatusFor(LOG[1].lifecycle.value.kind) == Active
  {
    StartsFresh();
    BothEnd();
    hide Next, Run, IndexerSpec.Fresh;
    var steps :| Run(BEFORE, steps) == ENDED;
    assert ENDED.applied == [0, 1, 0];
    assert 0 in Run(BEFORE, steps).applied && 1 in Run(BEFORE, steps).applied;
  }
}
