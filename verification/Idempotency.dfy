/**
 * `runIdempotent` as code over the key table, against any interference by
 * other transactions; its states are those of IdempotencySpec.dfy.
 */
module Idempotency {
  import opened Wrappers
  import opened IdempotencySpec

  /** What transaction `t` itself did in a run, in order. */
  function ActsOf(steps: seq<Step>, t: TxId): seq<Act>
  {
    if steps == [] then []
    else
      var last := steps[|steps| - 1];
      ActsOf(steps[..|steps| - 1], t) + if last.t == t then [last.act] else []
  }

  lemma RunAppend(steps: seq<Step>, step: Step)
    ensures Run(steps + [step]) == Next(Run(steps), step)
    ensures forall t :: ActsOf(steps + [step], t) == ActsOf(steps, t) + if step.t == t then [step.act] else []
  {
    assert (steps + [step])[..|steps|] == steps;
  }

  lemma OthersStay(s: State, step: Step, t: TxId)
    requires step.t != t
    ensures At(Next(s, step), t) == At(s, t)
  {
    hide Replay, Blocked;
  }

  /** A committed row is never changed or dropped. */
  predicate Stands(committed: map<Key, KeyRow>, committed': map<Key, KeyRow>)
  {
    forall key :: key in committed ==> key in committed' && committed'[key] == committed[key]
  }

  lemma StandsNext(steps: seq<Step>, step: Step)
    ensures Stands(Run(steps).committed, Next(Run(steps), step).committed)
  {
    RunOk(steps);
    hide Run, RepliesOk, FirstsOk;
    CommitsOwn(Run(steps), step);
    hide Next;
  }

  /** What a request is told about the row that stands for its key. */
  predicate AnswersRow(answer: Answer, row: KeyRow, hash: RequestHash)
  {
    if row.requestHash != hash then answer == KeyReused
    else if row.responseBody.None? then answer == StillProcessing
    else row.responseStatus.Some? && answer == Success(true, row.responseStatus.value, row.responseBody)
  }

  class Idempotency {
    var committed: map<Key, KeyRow>
    var txs: map<TxId, Tx>
    var effects: seq<Key>
    var replies: seq<Reply>
    ghost var trace: seq<Step>

    function Snapshot(): State
      reads this
    {
      State(committed, txs, effects, replies)
    }

    ghost predicate Valid()
      reads this
    {
      Snapshot() == Run(trace)
    }

    constructor ()
      ensures Valid() && trace == []
    {
      committed, txs, effects, replies, trace := map[], map[], [], [], [];
    }

    /** Other transactions may take any number of steps; rows that stand keep standing. */
    method Yield(t: TxId)
      requires Valid()
      modifies this
      ensures Valid() && old(trace) <= trace && ActsOf(trace, t) == old(ActsOf(trace, t))
      ensures At(Snapshot(), t) == old(At(Snapshot(), t)) && Stands(old(committed), committed)
    {
      var n: nat := *;
      var i := 0;
      hide Next, Run, ActsOf;
      while i < n
        invariant Valid() && old(trace) <= trace && ActsOf(trace, t) == old(ActsOf(trace, t))
        invariant At(Snapshot(), t) == old(At(Snapshot(), t)) && Stands(old(committed), committed)
      {
        var step: Step := *;
        if step.t != t {
          RunAppend(trace, step);
          OthersStay(Snapshot(), step, t);
          StandsNext(trace, step);
          var s := Next(Snapshot(), step);
          committed, txs, effects, replies := s.committed, s.txs, s.effects, s.replies;
          trace := trace + [step];
        }
        i := i + 1;
      }
    }

    ghost method Record(before: State, step: Step)
      requires before == Run(trace) && Snapshot() == Next(before, step)
      modifies this`trace
      ensures Valid() && trace == old(trace) + [step]
      ensures forall t :: ActsOf(trace, t) == old(ActsOf(trace, t)) + if step.t == t then [step.act] else []
    {
      RunAppend(trace, step);
      trace := trace + [step];
    }

    /** The transaction is rolled back: a thrown handler, a timeout, a lost connection. */
    method Abort(t: TxId)
      requires Valid() && !At(Snapshot(), t).Closed?
      modifies this
      ensures Valid() && trace == old(trace) + [Step(t, Rollback)] && At(Snapshot(), t) == Closed
      ensures ActsOf(trace, t) == old(ActsOf(trace, t)) + [Rollback]
      ensures committed == old(committed) && effects == old(effects)
    {
      ghost var before := Snapshot();
      var x := txs[t];
      txs, replies := txs[t := Closed], replies + [Reply(x.key, x.hash, Aborted)];
      Record(before, Step(t, Rollback));
    }

    /** Inserts unless the key is there; None while another transaction's row makes it wait. */
    method InsertKey(t: TxId) returns (owned: Option<bool>)
      requires Valid() && At(Snapshot(), t).Opened?
      modifies this
      ensures Valid() && trace == old(trace) + [Step(t, Insert)] && ActsOf(trace, t) == old(ActsOf(trace, t)) + [Insert]
      ensures var x := old(At(Snapshot(), t));
        At(Snapshot(), t) ==
          if owned.None? then x else if owned.value then Inserted(x.key, x.hash) else Conflicting(x.key, x.hash)
      ensures committed == old(committed)
      ensures var key := old(At(Snapshot(), t)).key;
        && (owned.None? <==> exists v :: v in old(txs) && v != t && HoldsKey(old(txs)[v], key))
        && (owned == Some(false) ==> key in committed) && (owned == Some(true) ==> key !in committed)
    {
      ghost var before := Snapshot();
      var x := txs[t];
      if Blocked(Snapshot(), t, x.key) {
        owned := None;
      } else if x.key in committed {
        txs := txs[t := Conflicting(x.key, x.hash)];
        owned := Some(false);
      } else {
        txs := txs[t := Inserted(x.key, x.hash)];
        owned := Some(true);
      }
      Record(before, Step(t, Insert));
    }

    /** The conflicting caller's read of the row that stands. */
    method ReplayStored(t: TxId) returns (answer: Answer)
      requires Valid() && At(Snapshot(), t).Conflicting? && At(Snapshot(), t).key in committed
      modifies this
      ensures Valid() && trace == old(trace) + [Step(t, ReadExisting)] && At(Snapshot(), t) == Closed
      ensures ActsOf(trace, t) == old(ActsOf(trace, t)) + [ReadExisting]
      ensures committed == old(committed) && effects == old(effects)
      ensures var x := old(At(Snapshot(), t));
        && answer == Replay(committed[x.key], x.hash)
        && replies == old(replies) + [Reply(x.key, x.hash, answer)]
    {
      ghost var before := Snapshot();
      var x := txs[t];
      var existing := committed[x.key];
      if existing.requestHash != x.hash { answer := KeyReused; }
      else if existing.responseStatus.None? || existing.responseBody.None? { answer := StillProcessing; }
      else { answer := Success(true, existing.responseStatus.value, existing.responseBody); }
      txs, replies := txs[t := Closed], replies + [Reply(x.key, x.hash, answer)];
      Record(before, Step(t, ReadExisting));
    }

    /** The handler's writes, uncommitted. */
    method CallHandler(t: TxId, result: HandlerResult)
      requires Valid() && At(Snapshot(), t).Inserted?
      modifies this
      ensures Valid() && trace == old(trace) + [Step(t, Handle(result))] && ActsOf(trace, t) == old(ActsOf(trace, t)) + [Handle(result)]
      ensures var x := old(At(Snapshot(), t)); At(Snapshot(), t) == Handled(x.key, x.hash, result)
    {
      ghost var before := Snapshot();
      txs := txs[t := Handled(txs[t].key, txs[t].hash, result)];
      Record(before, Step(t, Handle(result)));
    }

    /** The response on the key row, uncommitted. */
    method SaveResponse(t: TxId)
      requires Valid() && At(Snapshot(), t).Handled?
      modifies this
      ensures Valid() && trace == old(trace) + [Step(t, StoreResponse)] && ActsOf(trace, t) == old(ActsOf(trace, t)) + [StoreResponse]
      ensures var x := old(At(Snapshot(), t)); At(Snapshot(), t) == Stored(x.key, x.hash, x.result)
    {
      ghost var before := Snapshot();
      txs := txs[t := Stored(txs[t].key, txs[t].hash, txs[t].result)];
      Record(before, Step(t, StoreResponse));
    }

    /** Row, response and effects become visible together. */
    method CommitResponse(t: TxId) returns (answer: Answer)
      requires Valid() && At(Snapshot(), t).Stored?
      modifies this
      ensures Valid() && trace == old(trace) + [Step(t, CommitTx)] && ActsOf(trace, t) == old(ActsOf(trace, t)) + [CommitTx]
      ensures At(Snapshot(), t) == Closed
      ensures var x := old(At(Snapshot(), t));
        && answer == Success(false, x.result.status, x.result.body)
        && committed == old(committed)[x.key := KeyRow(x.hash, Some(x.result.status), x.result.body)]
        && effects == old(effects) + [x.key]
        && replies == old(replies) + [Reply(x.key, x.hash, answer)]
    {
      ghost var before := Snapshot();
      var x := txs[t];
      answer := Success(false, x.result.status, x.result.body);
      committed := committed[x.key := KeyRow(x.hash, Some(x.result.status), x.result.body)];
      effects := effects + [x.key];
      txs, replies := txs[t := Closed], replies + [Reply(x.key, x.hash, answer)];
      Record(before, Step(t, CommitTx));
    }

    /** Handler, stored response and commit of the transaction that owns the key, unless it is lost on the way. */
    method RunHandler(t: TxId, result: HandlerResult, lost: bool) returns (answer: Answer, ghost acts: seq<Act>)
      requires Valid() && At(Snapshot(), t).Inserted?
      modifies this
      ensures Valid() && old(trace) <= trace && ActsOf(trace, t) == old(ActsOf(trace, t)) + acts
      ensures At(Snapshot(), t) == Closed
      ensures answer == if lost then Aborted else Success(false, result.status, result.body)
      ensures CommitTx in acts <==> !lost
      ensures !lost ==>
        var x := old(At(Snapshot(), t)); x.key in committed && committed[x.key] == KeyRow(x.hash, Some(result.status), result.body)
    {
      hide Run, ActsOf, At, Stands;
      CallHandler(t, result);
      Yield(t);
      SaveResponse(t);
      acts := [Handle(result), StoreResponse];
      Yield(t);
      if lost {
        Abort(t);
        answer, acts := Aborted, acts + [Rollback];
      } else {
        answer := CommitResponse(t);
        acts := acts + [CommitTx];
      }
    }

    method OpenTransaction(t: TxId, key: Key, requestHash: RequestHash)
      requires Valid() && At(Snapshot(), t) == Closed
      modifies this
      ensures Valid() && trace == old(trace) + [Step(t, Begin(key, requestHash))]
      ensures ActsOf(trace, t) == old(ActsOf(trace, t)) + [Begin(key, requestHash)]
      ensures At(Snapshot(), t) == Opened(key, requestHash) && committed == old(committed)
    {
      ghost var before := Snapshot();
      txs := txs[t := Opened(key, requestHash)];
      Record(before, Step(t, Begin(key, requestHash)));
    }

    /**
     * One call, for a handler that gives `handler` or throws, that tries its
     * insert `patience` times and whose connection may be `lost` before it
     * commits. A request whose key already stands is told what the row says; a
     * request that gets the key is answered by its own handler; it aborts only
     * for a handler that throws, a lost connection, or a key that stayed taken.
     */
    method RunIdempotent(t: TxId, key: Key, requestHash: RequestHash, handler: Option<HandlerResult>, patience: nat, lost: bool)
      returns (answer: Answer, ghost acts: seq<Act>, ghost owned: Option<bool>)
      requires Valid() && At(Snapshot(), t) == Closed
      modifies this
      ensures Valid() && old(trace) <= trace && At(Snapshot(), t) == Closed
      ensures ActsOf(trace, t) == old(ActsOf(trace, t)) + acts
      ensures patience > 0 && key in old(committed) ==> AnswersRow(answer, old(committed)[key], requestHash)
      ensures match owned
        case Some(false) => key in committed && AnswersRow(answer, committed[key], requestHash)
        case Some(true) => key !in old(committed) && answer == if handler.None? || lost then Aborted else Success(false, handler.value.status, handler.value.body)
        case None => answer == Aborted && (patience > 0 ==> key !in old(committed))
      ensures answer.Success? ==> key in committed && committed[key] == KeyRow(requestHash, Some(answer.status), answer.body)
      ensures CommitTx in acts <==> answer.Success? && !answer.replayed
    {
      hide Run, ActsOf;
      OpenTransaction(t, key, requestHash);
      acts := [Begin(key, requestHash)];
      hide Next, At, Stands, Blocked, AnswersRow;
      owned := None;
      var mine: Option<bool>, left := None, patience;
      while mine.None? && left > 0
        invariant Valid() && old(trace) <= trace && ActsOf(trace, t) == old(ActsOf(trace, t)) + acts && CommitTx !in acts
        invariant left <= patience && Stands(old(committed), committed)
        invariant At(Snapshot(), t) ==
          if mine.None? then Opened(key, requestHash)
          else if mine.value then Inserted(key, requestHash) else Conflicting(key, requestHash)
        invariant mine == Some(false) ==> key in committed
        invariant mine == Some(true) ==> key !in old(committed)
        invariant mine.None? && left < patience ==> key !in old(committed)
        decreases left
      {
        ghost var before := committed;
        Yield(t);
        StandsTransitive(old(committed), before, committed);
        HeldIsNew(trace, t, key);
        mine := InsertKey(t);
        StillStands(old(committed), committed, key);
        acts := acts + [Insert];
        left := left - 1;
      }
      owned := mine;
      if mine.None? || (mine.value && handler.None?) {
        Abort(t);
        return Aborted, acts + [Rollback], owned;
      }
      ghost var more;
      if mine.value {
        answer, more := RunHandler(t, handler.value, lost);
        acts := acts + more;
      } else {
        ghost var before := committed;
        Yield(t);
        StandsTransitive(old(committed), before, committed);
        StillStands(old(committed), committed, key);
        RunOk(trace);
        CommittedStays(Snapshot(), t);
        answer := ReplayStored(t);
        acts := acts + [ReadExisting];
        AnsweredFrom(Snapshot(), trace, key, requestHash, answer);
      }
    }
  }

  lemma StandsTransitive(a: map<Key, KeyRow>, b: map<Key, KeyRow>, c: map<Key, KeyRow>)
    requires Stands(a, b) && Stands(b, c)
    ensures Stands(a, c)
  {
  }

  lemma StillStands(a: map<Key, KeyRow>, b: map<Key, KeyRow>, key: Key)
    requires Stands(a, b)
    ensures key in a ==> key in b && b[key] == a[key]
  {
  }

  /** A key that somebody holds has no committed row. */
  lemma HeldIsNew(steps: seq<Step>, t: TxId, key: Key)
    ensures Blocked(Run(steps), t, key) ==> key !in Run(steps).committed
  {
    RunOk(steps);
    hide Run, EffectsOk, RepliesOk, FirstsOk;
    var s := Run(steps);
    if Blocked(s, t, key) {
      var v :| v in s.txs && v != t && HoldsKey(s.txs[v], key);
      assert HoldsKey(At(s, v), key);
    }
  }

  /** The row a conflicting transaction met is still there when it reads. */
  lemma CommittedStays(s: State, t: TxId)
    requires Ok(s) && At(s, t).Conflicting?
    ensures At(s, t).key in s.committed
  {
  }

  lemma AnsweredFrom(s: State, steps: seq<Step>, key: Key, hash: RequestHash, answer: Answer)
    requires s == Run(steps) && key in s.committed && answer == Replay(s.committed[key], hash)
    ensures AnswersRow(answer, s.committed[key], hash)
    ensures answer.Success? ==> answer.replayed && s.committed[key] == KeyRow(hash, Some(answer.status), answer.body)
  {
    RunOk(steps);
    hide Run, HoldersOk, RepliesOk, FirstsOk;
  }
}
