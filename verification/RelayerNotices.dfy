/**
 * Payment notices: over every interleaving exactly one for each request that
 * ended, of the kind it ended with, and none for any other.
 */
module RelayerNotices {
  import opened Wrappers
  import opened ChargeRequests
  import opened Relayer
  import opened RelayerSafety
  import MandateTypes
  import RegistrySpec

  function Count(webhooks: seq<Webhook>, h: Webhook): nat
  {
    if webhooks == [] then 0
    else Count(webhooks[..|webhooks| - 1], h) + if webhooks[|webhooks| - 1] == h then 1 else 0
  }

  lemma {:induction false} CountJoins(a: seq<Webhook>, b: seq<Webhook>, h: Webhook)
    ensures Count(a + b, h) == Count(a, h) + Count(b, h)
  {
    if b == [] {
      assert a + b == a;
    } else {
      CountJoins(a, b[..|b| - 1], h);
      assert (a + b)[..|a + b| - 1] == a + b[..|b| - 1];
    }
  }

  predicate Ended(rows: Rows, req: RequestId, status: Status)
  {
    req in rows && rows[req].status == status
  }

  /** One notice of success for a success, one of failure for a permanent failure. */
  ghost predicate NoticesOk(s: State, req: RequestId)
  {
    && Count(s.webhooks, PaymentSucceeded(req)) == (if Ended(s.rows, req, Succeeded) then 1 else 0)
    && Count(s.webhooks, PaymentFailed(req)) == (if Ended(s.rows, req, PermanentlyFailed) then 1 else 0)
  }

  /** A statement carries exactly the notice of the status it writes. */
  lemma StatementNotices(k: Worker, nextTx: TxId, act: Act, req: RequestId)
    requires StatementOf(k, nextTx, act).Some?
    ensures var st := StatementOf(k, nextTx, act).value;
      && Count(st.hooks, PaymentSucceeded(req)) == (if req == st.req && st.update.status == Succeeded then 1 else 0)
      && Count(st.hooks, PaymentFailed(req)) == (if req == st.req && st.update.status == PermanentlyFailed then 1 else 0)
  {
    CountNone(PaymentSucceeded(req));
    CountNone(PaymentFailed(req));
    match act
    case Settle(_) =>
      CountSettled(k.req, k.mandate, k.row, PaymentSucceeded(req));
      CountSettled(k.req, k.mandate, k.row, PaymentFailed(req));
    case WriteFailure(_) =>
      CountSingle(PaymentFailed(k.req), PaymentSucceeded(req));
      CountSingle(PaymentFailed(k.req), PaymentFailed(req));
    case _ =>
  }

  lemma CountNone(h: Webhook)
    ensures Count([], h) == 0
  {
  }

  lemma CountSingle(x: Webhook, h: Webhook)
    ensures Count([x], h) == if x == h then 1 else 0
  {
  }

  lemma CountSettled(req: RequestId, mandate: MandateTypes.Mandate, row: ChargeRequest, h: Webhook)
    requires !h.MandateCompletedHook?
    ensures Count(SettleHooks(req, mandate, row), h) == if h == PaymentSucceeded(req) then 1 else 0
  {
    CountSingle(PaymentSucceeded(req), h);
    CountNone(h);
    CountSingle(MandateCompletedHook(row.mandateId, req), h);
    CountJoins([PaymentSucceeded(req)], [MandateCompletedHook(row.mandateId, req)], h);
    assert [PaymentSucceeded(req)] + [] == [PaymentSucceeded(req)];
  }

  /** A transaction that goes through takes its row from a status that had not ended to the one it writes. */
  lemma ExecuteEnds(s: State, w: WorkerId, st: Statement)
    ensures var s' := Execute(s, w, st);
      if Commits(s, st) then
        && st.req in s.rows && !Terminal(s.rows[st.req].status) && s'.webhooks == s.webhooks + st.hooks
        && s'.rows.Keys == s.rows.Keys && s'.rows[st.req].status == st.update.status
        && forall r :: r in s.rows && r != st.req ==> s'.rows[r] == s.rows[r]
      else s'.rows == s.rows && s'.webhooks == s.webhooks
  {
    hide Insertable;
  }

  lemma NoticesAfterAct(s: State, w: WorkerId, act: Act, req: RequestId)
    requires NoticesOk(s, req)
    ensures NoticesOk(DoAct(s, w, act), req)
  {
    hide Move, Count;
    var st := StatementOf(At(s, w), s.nextTx, act);
    if IsWrite(act) && st.Some? {
      ExecuteEnds(s, w, st.value);
      StatementNotices(At(s, w), s.nextTx, act, req);
      CountJoins(s.webhooks, st.value.hooks, PaymentSucceeded(req));
      CountJoins(s.webhooks, st.value.hooks, PaymentFailed(req));
      hide Execute, StatementOf, Commits;
    }
  }

  /** What nobody's act does to an ended row: nothing. */
  lemma OtherEnds(s: State, step: Step, req: RequestId)
    requires !step.By?
    ensures Next(s, step).webhooks == s.webhooks
    ensures Ended(Next(s, step).rows, req, Succeeded) <==> Ended(s.rows, req, Succeeded)
    ensures Ended(Next(s, step).rows, req, PermanentlyFailed) <==> Ended(s.rows, req, PermanentlyFailed)
  {
    hide RegistrySpec.Charge, RegistrySpec.Apply;
  }

  lemma NoticesNext(s: State, step: Step, req: RequestId)
    requires NoticesOk(s, req)
    ensures NoticesOk(Next(s, step), req)
  {
    if step.By? {
      ActIsNext(s, step.w, step.act);
      hide DoAct, Next;
      NoticesAfterAct(s, step.w, step.act, req);
    } else {
      OtherEnds(s, step, req);
      hide Next, Count;
    }
  }

  /**
   * Whatever workers, retries, recoveries and crashes do: exactly one
   * `payment.succeeded` for each request that succeeded, exactly one
   * `payment.failed` for each that failed for good, and none for the others.
   */
  lemma {:induction false} OneNoticePerEnd(steps: seq<Step>, req: RequestId)
    ensures var s := Steps(START, steps);
      && Count(s.webhooks, PaymentSucceeded(req)) == (if Ended(s.rows, req, Succeeded) then 1 else 0)
      && Count(s.webhooks, PaymentFailed(req)) == (if Ended(s.rows, req, PermanentlyFailed) then 1 else 0)
  {
    if steps != [] {
      hide Next, Count;
      OneNoticePerEnd(steps[..|steps| - 1], req);
      NoticesNext(Steps(START, steps[..|steps| - 1]), steps[|steps| - 1], req);
    }
  }
}
