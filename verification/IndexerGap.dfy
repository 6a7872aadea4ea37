/**
 * Both ways the gap test goes wrong. It compares ledger numbers, while the
 * cursor stands between events. When a page ended inside a ledger and retention
 * then starts right after it, the test passes and the rest of that ledger is
 * never read. When a contract has been silent for longer than retention, the
 * test fails with nothing unread.
 */
module IndexerGap {
  import opened Wrappers
  import opened MandateTypes
  import opened IndexerSpec
  import opened IndexerTheorems

  const CREATED := Lifecycle(CreatedEvent, Raw(1), 1, 2, 3)

  /** One ledger with two events: a charge the indexer drops, and a creation it should report. */
  const LOG: seq<RawEvent> := [RawEvent(5, 1, None), RawEvent(5, 2, Some(CREATED))]

  const BEFORE := State(LOG, 5, 0, map[2 := 0], None, map[], [], map[], [], {}, None, Config(100, 1))

  /** With pages of one event: a first page, then ledger 6 closes, ledger 5 leaves retention, and a second page. */
  const FIRST_TICK := [By(0, ReadCursor), By(0, ReadLatest), By(0, Fetch(1, true)), By(0, Advance)]
  const SECOND_TICK := [By(0, ReadCursor), By(0, Fetch(2, true)), By(0, Advance)]

  lemma {:induction false} RunTwo(s: State, a: seq<Step>, b: seq<Step>)
    ensures Run(s, a + b) == Run(Run(s, a), b)
  {
    hide Next;
    if b == [] {
      assert a + b == a;
    } else {
      var front, last := b[..|b| - 1], b[|b| - 1];
      RunTwo(s, a, front);
      assert (a + b)[..|a + b| - 1] == a + front && (a + b)[|a + b| - 1] == last;
    }
  }

  lemma RunOne(s: State, step: Step)
    ensures Run(s, [step]) == Next(s, step)
  {
    assert Run(s, [step]) == Next(Run(s, [step][..0]), step);
  }

  lemma RunNext(s: State, step: Step, rest: seq<Step>)
    ensures Run(s, [step] + rest) == Run(Next(s, step), rest)
  {
    RunTwo(s, [step], rest);
    RunOne(s, step);
  }

  const AFTER_FIRST := BEFORE.(cursor := Some(Cursor(5, 1)), start := Some(0), ticks := map[0 := Idle])

  lemma FirstTick()
    ensures Run(BEFORE, FIRST_TICK) == AFTER_FIRST
  {
    var s1 := BEFORE.(ticks := map[0 := FirstRun]);
    assert Next(BEFORE, By(0, ReadCursor)) == s1;
    var s2 := BEFORE.(ticks := map[0 := Requesting(None, 1)]);
    assert Next(s1, By(0, ReadLatest)) == s2;
    assert FirstAt(LOG, 0) == 0 && FirstAt(LOG, 1) == 0 by { FirstAt0(); }
    assert MaxLedger(LOG, 0, 1) == Some(5) && Decoded(LOG, 0, 1) == [];
    var s3 := BEFORE.(ticks := map[0 := Applying(None, 0, Cursor(5, 1), [])]);
    assert Next(s2, By(0, Fetch(1, true))) == s3;
    assert Next(s3, By(0, Advance)) == AFTER_FIRST;
    hide Next;
    assert FIRST_TICK == [By(0, ReadCursor)] + ([By(0, ReadLatest)] + ([By(0, Fetch(1, true))] + [By(0, Advance)]));
    RunOne(s3, By(0, Advance));
    RunNext(s2, By(0, Fetch(1, true)), [By(0, Advance)]);
    RunNext(s1, By(0, ReadLatest), [By(0, Fetch(1, true))] + [By(0, Advance)]);
    RunNext(BEFORE, By(0, ReadCursor), [By(0, ReadLatest)] + ([By(0, Fetch(1, true))] + [By(0, Advance)]));
  }

  lemma FirstAt0()
    ensures FirstAt(LOG, 0) == 0 && FirstAt(LOG, 1) == 0 && FirstAt(LOG, 6) == 2
  {
    assert LOG[0].ledger == 5 && LOG[1].ledger == 5;
  }

  const PRUNED := AFTER_FIRST.(latest := 6, oldest := 6)

  lemma Pruning()
    ensures Run(AFTER_FIRST, [CloseLedger([]), Prune(6)]) == PRUNED
  {
    var s1 := AFTER_FIRST.(latest := 6);
    assert LOG + [] == LOG;
    assert Next(AFTER_FIRST, CloseLedger([])) == s1;
    assert Next(s1, Prune(6)) == PRUNED;
    hide Next;
    assert [CloseLedger([]), Prune(6)] == [CloseLedger([])] + [Prune(6)];
    RunOne(s1, Prune(6));
    RunNext(AFTER_FIRST, CloseLedger([]), [Prune(6)]);
  }

  const AFTER_SECOND := PRUNED.(cursor := Some(Cursor(5, 2)), lost := {1}, ticks := map[0 := Idle])

  lemma SecondTick()
    ensures Run(PRUNED, SECOND_TICK) == AFTER_SECOND
  {
    var s1 := PRUNED.(ticks := map[0 := Requesting(Some(Cursor(5, 1)), 0)]);
    assert Next(PRUNED, By(0, ReadCursor)) == s1;
    FirstAt0();
    assert MaxLedger(LOG, 2, 2) == None && Decoded(LOG, 2, 2) == [];
    var s2 := PRUNED.(ticks := map[0 := Applying(Some(Cursor(5, 1)), 2, Cursor(5, 2), [])]);
    assert Next(s1, By(0, Fetch(2, true))) == s2;
    assert Range(1, 2) == {1};
    assert Next(s2, By(0, Advance)) == AFTER_SECOND;
    hide Next;
    assert SECOND_TICK == [By(0, ReadCursor)] + ([By(0, Fetch(2, true))] + [By(0, Advance)]);
    RunOne(s2, By(0, Advance));
    RunNext(s1, By(0, Fetch(2, true)), [By(0, Advance)]);
    RunNext(PRUNED, By(0, ReadCursor), [By(0, Fetch(2, true))] + [By(0, Advance)]);
  }

  /** A creation with a known merchant, passed by the cursor, never applied, no failure raised. */
  lemma GapTestMissesAnEvent()
    ensures Fresh(BEFORE)
    ensures exists steps :: var r := Run(BEFORE, steps);
      && r.start == Some(0) && r.cursor == Some(Cursor(5, 2))
      && |r.log| == 2 && r.log[1].lifecycle == Some(CREATED) && CREATED.merchant in r.merchants
      && 1 !in r.applied && r.deliveries == [] && r.index == map[]
  {
    FirstTick();
    Pruning();
    SecondTick();
    hide Next;
    RunTwo(BEFORE, FIRST_TICK, [CloseLedger([]), Prune(6)]);
    RunTwo(BEFORE, FIRST_TICK + [CloseLedger([]), Prune(6)], SECOND_TICK);
    assert Run(BEFORE, FIRST_TICK + [CloseLedger([]), Prune(6)] + SECOND_TICK) == AFTER_SECOND;
  }

  // ---- a false alarm ----

  const QUIET := State([], 5, 0, map[], None, map[], [], map[], [], {}, None, DEFAULTS)

  const QUIET_TICK := [By(0, ReadCursor), By(0, ReadLatest), By(0, Fetch(0, false)), By(0, Advance)]

  const QUIET_PRUNED := QUIET.(cursor := Some(Cursor(1, 0)), start := Some(0), ticks := map[0 := Idle], oldest := 3)

  lemma QuietRun()
    ensures Run(QUIET, QUIET_TICK + [Prune(3)]) == QUIET_PRUNED
  {
    var s1 := QUIET.(ticks := map[0 := FirstRun]);
    assert Next(QUIET, By(0, ReadCursor)) == s1;
    var s2 := QUIET.(ticks := map[0 := Requesting(None, 1)]);
    assert Next(s1, By(0, ReadLatest)) == s2;
    var s3 := QUIET.(ticks := map[0 := Applying(None, 0, Cursor(1, 0), [])]);
    assert Next(s2, By(0, Fetch(0, false))) == s3;
    var s4 := QUIET.(cursor := Some(Cursor(1, 0)), start := Some(0), ticks := map[0 := Idle]);
    assert Next(s3, By(0, Advance)) == s4;
    assert Next(s4, Prune(3)) == QUIET_PRUNED;
    hide Next;
    assert QUIET_TICK + [Prune(3)] ==
      [By(0, ReadCursor)] + ([By(0, ReadLatest)] + ([By(0, Fetch(0, false))] + ([By(0, Advance)] + [Prune(3)])));
    RunOne(s4, Prune(3));
    RunNext(s3, By(0, Advance), [Prune(3)]);
    RunNext(s2, By(0, Fetch(0, false)), [By(0, Advance)] + [Prune(3)]);
    RunNext(s1, By(0, ReadLatest), [By(0, Fetch(0, false))] + ([By(0, Advance)] + [Prune(3)]));
    RunNext(QUIET, By(0, ReadCursor), [By(0, ReadLatest)] + ([By(0, Fetch(0, false))] + ([By(0, Advance)] + [Prune(3)])));
  }

  /** A contract without a single event: the alarm goes off with nothing unread, and the indexer never moves again. */
  lemma SilenceRaisesTheAlarm(more: seq<Step>)
    ensures Fresh(QUIET)
    ensures var s := Run(QUIET, QUIET_TICK + [Prune(3)]);
      && s.log == [] && s.cursor.Some? && GapDetected(s, s.cursor) && PageStart(s, s.cursor, 0) == s.cursor.value.position
      && Run(s, more).cursor == s.cursor
  {
    QuietRun();
    StuckForever(QUIET_PRUNED, more);
  }
}
