/**
 * Idempotent requests as a protocol: transactions that insert a key row or
 * wait for whoever holds it, run a handler, store its response and commit or
 * roll back, interleaved in any order.
 */
module IdempotencySpec {
  import opened Wrappers

  type TxId = nat
  type RequestHash = nat
  type Body = nat

  datatype Key = Key(merchantId: nat, key: nat)

  /** A committed `IdempotencyKey` row; a null body is None. */
  datatype KeyRow = KeyRow(requestHash: RequestHash, responseStatus: Option<int>, responseBody: Option<Body>)

  datatype HandlerResult = HandlerResult(status: int, body: Option<Body>)

  datatype Answer =
    | Success(replayed: bool, status: int, body: Option<Body>)
    | KeyReused
    | StillProcessing
    | Aborted

  /** A transaction, with its uncommitted row and its handler's uncommitted effect. */
  datatype Tx =
    | Closed
    | Opened(key: Key, hash: RequestHash)
    | Inserted(key: Key, hash: RequestHash)
    | Handled(key: Key, hash: RequestHash, result: HandlerResult)
    | Stored(key: Key, hash: RequestHash, result: HandlerResult)
    | Conflicting(key: Key, hash: RequestHash)

  datatype Reply = Reply(key: Key, hash: RequestHash, answer: Answer)

  /** `effects` lists the keys of the handler runs whose writes were committed. */
  datatype State = State(committed: map<Key, KeyRow>, txs: map<TxId, Tx>, effects: seq<Key>, replies: seq<Reply>)

  datatype Act =
    | Begin(key: Key, hash: RequestHash)
    | Insert
    | Handle(result: HandlerResult)
    | StoreResponse
    | CommitTx
    | ReadExisting
    | Rollback

  datatype Step = Step(t: TxId, act: Act)

  function At(s: State, t: TxId): Tx
  {
    if t in s.txs then s.txs[t] else Closed
  }

  function Goto(s: State, t: TxId, x: Tx): State
  {
    s.(txs := s.txs[t := x])
  }

  /** An uncommitted row for the key. */
  predicate HoldsKey(x: Tx, key: Key)
  {
    (x.Inserted? || x.Handled? || x.Stored?) && x.key == key
  }

  /** Someone else's uncommitted row makes the insert wait. */
  predicate Blocked(s: State, t: TxId, key: Key)
  {
    exists v :: v in s.txs && v != t && HoldsKey(s.txs[v], key)
  }

  function ReplyWith(s: State, t: TxId, x: Tx, answer: Answer): State
    requires !x.Closed?
  {
    Goto(s, t, Closed).(replies := s.replies + [Reply(x.key, x.hash, answer)])
  }

  /** What a conflicting caller finds on the committed row. */
  function Replay(row: KeyRow, hash: RequestHash): Answer
  {
    if row.requestHash != hash then KeyReused
    else if row.responseStatus.None? || row.responseBody.None? then StillProcessing
    else Success(true, row.responseStatus.value, row.responseBody)
  }

  function DoAct(s: State, t: TxId, act: Act): State
  {
    var x := At(s, t);
    match act
    case Begin(key, hash) => if x.Closed? then Goto(s, t, Opened(key, hash)) else s
    case Insert =>
      if !x.Opened? || Blocked(s, t, x.key) then s
      else if x.key in s.committed then Goto(s, t, Conflicting(x.key, x.hash))
      else Goto(s, t, Inserted(x.key, x.hash))
    case Handle(result) => if x.Inserted? then Goto(s, t, Handled(x.key, x.hash, result)) else s
    case StoreResponse => if x.Handled? then Goto(s, t, Stored(x.key, x.hash, x.result)) else s
    case CommitTx =>
      if x.Stored? then
        ReplyWith(s, t, x, Success(false, x.result.status, x.result.body)).(
          committed := s.committed[x.key := KeyRow(x.hash, Some(x.result.status), x.result.body)],
          effects := s.effects + [x.key])
      else s
    case ReadExisting =>
      if x.Conflicting? && x.key in s.committed then ReplyWith(s, t, x, Replay(s.committed[x.key], x.hash)) else s
    case Rollback => if x.Closed? then s else ReplyWith(s, t, x, Aborted)
  }

  function Next(s: State, step: Step): State
  {
    DoAct(s, step.t, step.act)
  }

  function Run(steps: seq<Step>): State
  {
    if steps == [] then State(map[], map[], [], []) else Next(Run(steps[..|steps| - 1]), steps[|steps| - 1])
  }

  // ---- what every interleaving keeps ----

  /** At most one transaction holds a key, and only while it is not committed. */
  ghost predicate HoldersOk(s: State)
  {
    && (forall t, key :: HoldsKey(At(s, t), key) ==> key !in s.committed)
    && (forall t, v, key :: HoldsKey(At(s, t), key) && HoldsKey(At(s, v), key) ==> t == v)
    && (forall t :: At(s, t).Conflicting? ==> At(s, t).key in s.committed)
  }

  /** One committed effect per committed row. */
  ghost predicate EffectsOk(s: State)
  {
    && (forall i, j :: 0 <= i < j < |s.effects| ==> s.effects[i] != s.effects[j])
    && (forall key :: key in s.effects <==> key in s.committed)
    && (forall key :: key in s.committed ==> s.committed[key].responseStatus.Some?)
  }

  /** Every answer given agrees with the row that stands. */
  ghost predicate RepliesOk(s: State)
  {
    forall i :: 0 <= i < |s.replies| ==> ReplyOk(s.committed, s.replies[i])
  }

  predicate ReplyOk(committed: map<Key, KeyRow>, r: Reply)
  {
    match r.answer
    case Success(replayed, status, body) =>
      && r.key in committed && committed[r.key] == KeyRow(r.hash, Some(status), body)
      && (replayed ==> body.Some?)
    case KeyReused => r.key in committed && committed[r.key].requestHash != r.hash
    case StillProcessing => r.key in committed && committed[r.key].requestHash == r.hash && committed[r.key].responseBody.None?
    case Aborted => true
  }

  /** Of the successes with one key exactly the first is not a replay. */
  ghost predicate FirstsOk(s: State)
  {
    && (forall i, j | 0 <= i < j < |s.replies| && s.replies[i].answer.Success? && s.replies[j].answer.Success? ::
          s.replies[i].key == s.replies[j].key ==> s.replies[j].answer.replayed)
    && (forall key :: key in s.committed ==> exists i :: 0 <= i < |s.replies| && RanFor(s.replies[i], key))
  }

  predicate RanFor(r: Reply, key: Key)
  {
    r.key == key && r.answer.Success? && !r.answer.replayed
  }

  ghost predicate Ok(s: State)
  {
    HoldersOk(s) && EffectsOk(s) && RepliesOk(s) && FirstsOk(s)
  }

  lemma HoldersNext(s: State, step: Step)
    requires HoldersOk(s)
    ensures HoldersOk(Next(s, step))
  {
    var s' := Next(s, step);
    var x := At(s, step.t);
    hide Replay;
    assert forall v: TxId :: v != step.t ==> At(s', v) == At(s, v);
    if step.act.Insert? && x.Opened? && !Blocked(s, step.t, x.key) {
      assert forall v: TxId :: v != step.t ==> !HoldsKey(At(s, v), x.key);
    }
  }

  /** What a step commits: nothing, or the row its own transaction held. */
  lemma CommitsOwn(s: State, step: Step)
    requires HoldersOk(s) && EffectsOk(s)
    ensures var s', x := Next(s, step), At(s, step.t);
      if step.act.CommitTx? && x.Stored? then
        && x.key !in s.committed && s'.effects == s.effects + [x.key]
        && s'.committed == s.committed[x.key := KeyRow(x.hash, Some(x.result.status), x.result.body)]
        && s'.replies == s.replies + [Reply(x.key, x.hash, Success(false, x.result.status, x.result.body))]
      else
        && s'.committed == s.committed && s'.effects == s.effects
        && (s'.replies == s.replies || exists r :: s'.replies == s.replies + [r] && ReplyOk(s.committed, r) && (r.answer.Success? ==> r.answer.replayed))
  {
    var x := At(s, step.t);
    assert x.Stored? ==> HoldsKey(x, x.key);
    if step.act.ReadExisting? && x.Conflicting? {
      assert Next(s, step).replies == s.replies + [Reply(x.key, x.hash, Replay(s.committed[x.key], x.hash))];
    }
    if step.act.Rollback? && !x.Closed? {
      assert Next(s, step).replies == s.replies + [Reply(x.key, x.hash, Aborted)];
    }
  }

  lemma RepliesAfterCommit(s: State, s': State, key: Key, row: KeyRow, r: Reply)
    requires RepliesOk(s) && FirstsOk(s) && key !in s.committed && s'.committed == s.committed[key := row]
    requires s'.replies == s.replies + [r] && ReplyOk(s'.committed, r) && RanFor(r, key)
    ensures RepliesOk(s') && FirstsOk(s')
  {
    forall i | 0 <= i < |s'.replies| ensures ReplyOk(s'.committed, s'.replies[i]) {
      if i < |s.replies| { assert s'.replies[i] == s.replies[i] && ReplyOk(s.committed, s.replies[i]); }
    }
    forall i, j | 0 <= i < j < |s'.replies| && s'.replies[i].answer.Success? && s'.replies[j].answer.Success? && s'.replies[i].key == s'.replies[j].key
      ensures s'.replies[j].answer.replayed
    {
      assert s'.replies[i] == s.replies[i] && ReplyOk(s.committed, s.replies[i]);
    }
    forall k | k in s'.committed ensures exists i :: 0 <= i < |s'.replies| && RanFor(s'.replies[i], k) {
      if k == key {
        assert RanFor(s'.replies[|s.replies|], k);
      } else {
        var i :| 0 <= i < |s.replies| && RanFor(s.replies[i], k);
        assert RanFor(s'.replies[i], k);
      }
    }
  }

  lemma RepliesAfterOther(s: State, s': State)
    requires RepliesOk(s) && FirstsOk(s) && s'.committed == s.committed
    requires s'.replies == s.replies
      || exists r :: s'.replies == s.replies + [r] && ReplyOk(s.committed, r) && (r.answer.Success? ==> r.answer.replayed)
    ensures RepliesOk(s') && FirstsOk(s')
  {
    forall k | k in s'.committed ensures exists i :: 0 <= i < |s'.replies| && RanFor(s'.replies[i], k) {
      var i :| 0 <= i < |s.replies| && RanFor(s.replies[i], k);
      assert s'.replies[i] == s.replies[i];
    }
  }

  lemma EffectsNext(s: State, step: Step)
    requires HoldersOk(s) && EffectsOk(s)
    ensures EffectsOk(Next(s, step))
  {
    CommitsOwn(s, step);
    hide Next, HoldersOk, ReplyOk;
  }

  lemma OkNext(s: State, step: Step)
    requires Ok(s)
    ensures Ok(Next(s, step))
  {
    HoldersNext(s, step);
    CommitsOwn(s, step);
    EffectsNext(s, step);
    hide Next, HoldersOk, EffectsOk, RepliesOk, FirstsOk, ReplyOk;
    var x := At(s, step.t);
    if step.act.CommitTx? && x.Stored? {
      hide *;
      RepliesAfterCommit(s, Next(s, step), x.key, KeyRow(x.hash, Some(x.result.status), x.result.body),
                         Reply(x.key, x.hash, Success(false, x.result.status, x.result.body)));
    } else {
      RepliesAfterOther(s, Next(s, step));
    }
    assert Ok(Next(s, step));
  }

  lemma {:induction false} RunOk(steps: seq<Step>)
    ensures Ok(Run(steps))
  {
    if steps != [] {
      RunOk(steps[..|steps| - 1]);
      hide Next, Ok;
      OkNext(Run(steps[..|steps| - 1]), steps[|steps| - 1]);
    }
  }

  // ---- the promises ----

  /** However transactions interleave, commit or roll back, a key's handler takes effect at most once, and exactly for committed rows. */
  lemma AtMostOneEffect(steps: seq<Step>, i: nat, j: nat)
    requires i < |Run(steps).effects| && j < |Run(steps).effects| && Run(steps).effects[i] == Run(steps).effects[j]
    ensures i == j && Run(steps).effects[i] in Run(steps).committed
  {
    RunOk(steps);
    hide Run, HoldersOk, RepliesOk, FirstsOk;
  }

  /** All successful answers with one key carry the same request hash, status and body; only the first is not a replay. */
  lemma SuccessesAgree(steps: seq<Step>, i: nat, j: nat)
    requires i < j < |Run(steps).replies| && Run(steps).replies[i].key == Run(steps).replies[j].key
    requires Run(steps).replies[i].answer.Success? && Run(steps).replies[j].answer.Success?
    ensures var a, b := Run(steps).replies[i], Run(steps).replies[j];
      a.hash == b.hash && a.answer.status == b.answer.status && a.answer.body == b.answer.body && b.answer.replayed
  {
    RunOk(steps);
    hide Run, HoldersOk, EffectsOk;
    assert ReplyOk(Run(steps).committed, Run(steps).replies[i]) && ReplyOk(Run(steps).committed, Run(steps).replies[j]);
  }

  /** A replay is of an answer some committed handler gave for this very request. */
  lemma ReplayHasOriginal(steps: seq<Step>, j: nat)
    requires j < |Run(steps).replies| && Run(steps).replies[j].answer.Success?
    ensures var r := Run(steps).replies[j];
      exists i :: 0 <= i < |Run(steps).replies| && Run(steps).replies[i] == Reply(r.key, r.hash, Success(false, r.answer.status, r.answer.body))
  {
    RunOk(steps);
    hide Run, HoldersOk, EffectsOk;
    var s := Run(steps);
    var r := s.replies[j];
    assert ReplyOk(s.committed, r);
    var i :| 0 <= i < |s.replies| && RanFor(s.replies[i], r.key);
    assert ReplyOk(s.committed, s.replies[i]);
  }

  /** A key is refused as reused exactly when the request differs from the one that stands. */
  lemma ReusedExactly(steps: seq<Step>, j: nat)
    requires j < |Run(steps).replies| && !Run(steps).replies[j].answer.Aborted?
    ensures var r := Run(steps).replies[j];
      && r.key in Run(steps).committed
      && (r.answer.KeyReused? <==> Run(steps).committed[r.key].requestHash != r.hash)
      && (r.answer.StillProcessing? ==> Run(steps).committed[r.key].responseBody.None?)
  {
    RunOk(steps);
    hide Run, HoldersOk, EffectsOk, FirstsOk;
    assert ReplyOk(Run(steps).committed, Run(steps).replies[j]);
  }

  predicate BodiesGiven(steps: seq<Step>)
  {
    forall i :: 0 <= i < |steps| && steps[i].act.Handle? ==> steps[i].act.result.body.Some?
  }

  ghost predicate BodiesStored(s: State)
  {
    && (forall t :: (At(s, t).Handled? || At(s, t).Stored?) ==> At(s, t).result.body.Some?)
    && (forall key :: key in s.committed ==> s.committed[key].responseBody.Some?)
  }

  lemma BodiesNext(s: State, step: Step)
    requires BodiesStored(s) && (step.act.Handle? ==> step.act.result.body.Some?)
    ensures BodiesStored(Next(s, step))
  {
    hide Replay, Blocked;
    assert forall v: TxId :: v != step.t ==> At(Next(s, step), v) == At(s, v);
  }

  lemma {:induction false} BodiesRun(steps: seq<Step>)
    requires BodiesGiven(steps)
    ensures BodiesStored(Run(steps))
  {
    if steps != [] {
      var front, last := steps[..|steps| - 1], steps[|steps| - 1];
      BodiesRun(front);
      assert last.act.Handle? ==> last.act.result.body.Some?;
      hide Next, BodiesStored;
      BodiesNext(Run(front), last);
    }
  }

  /** With handlers that answer a body, nobody is ever told the request is still being processed. */
  lemma NeverStillProcessing(steps: seq<Step>, j: nat)
    requires BodiesGiven(steps) && j < |Run(steps).replies|
    ensures !Run(steps).replies[j].answer.StillProcessing?
  {
    BodiesRun(steps);
    RunOk(steps);
    hide Run, HoldersOk, EffectsOk, FirstsOk;
    assert ReplyOk(Run(steps).committed, Run(steps).replies[j]);
  }

  /** And after a handler that answered null, every later identical request is told just that. */
  lemma NullBodyBlocksReplay(steps: seq<Step>, t: TxId, key: Key)
    requires key in Run(steps).committed && Run(steps).committed[key].responseBody.None? && At(Run(steps), t).Closed?
    ensures var hash := Run(steps).committed[key].requestHash;
      var s := Next(Next(Next(Run(steps), Step(t, Begin(key, hash))), Step(t, Insert)), Step(t, ReadExisting));
      s.replies == Run(steps).replies + [Reply(key, hash, StillProcessing)]
  {
    RunOk(steps);
    var s0 := Run(steps);
    hide Run, EffectsOk, RepliesOk, FirstsOk;
    var hash := s0.committed[key].requestHash;
    var s1 := Next(s0, Step(t, Begin(key, hash)));
    assert forall v: TxId :: v != t ==> At(s1, v) == At(s0, v);
    assert !Blocked(s1, t, key) by {
      forall v | v in s1.txs && v != t ensures !HoldsKey(s1.txs[v], key) { assert At(s0, v) == s1.txs[v]; }
    }
    assert At(Next(s1, Step(t, Insert)), t) == Conflicting(key, hash);
  }
}
