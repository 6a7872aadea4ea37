/**
 * How often a request is tried. Claims are counted against what makes a row
 * claimable; retries are bounded when no claim acts on a stale read.
 */
module RelayerRetries {
  import opened Wrappers
  import opened ChargeRequests
  import opened Relayer
  import opened MandateTypes
  import opened RegistrySpec
  import opened RegistryRuns
  import opened RelayerSafety
  import opened RelayerOutcomes

  // ---- counting the journal ----

  function Claims(journal: seq<Entry>, req: RequestId): nat
  {
    if journal == [] then 0
    else Claims(journal[..|journal| - 1], req) + if journal[|journal| - 1] == ClaimEntry(req) then 1 else 0
  }

  /** The attempts of `req` that ended in a scheduled retry, in order. */
  function Retried(journal: seq<Entry>, req: RequestId): seq<nat>
  {
    if journal == [] then []
    else
      var e := journal[|journal| - 1];
      Retried(journal[..|journal| - 1], req) + if e.RetryEntry? && e.req == req then [e.attempt] else []
  }

  function Recoveries(journal: seq<Entry>, req: RequestId): nat
  {
    if journal == [] then 0
    else
      var e := journal[|journal| - 1];
      Recoveries(journal[..|journal| - 1], req) + if e.RecoveryEntry? && req in e.recovered then 1 else 0
  }

  lemma CountOne(journal: seq<Entry>, e: Entry, req: RequestId)
    ensures Claims(journal + [e], req) == Claims(journal, req) + if e == ClaimEntry(req) then 1 else 0
    ensures Retried(journal + [e], req) == Retried(journal, req) + if e.RetryEntry? && e.req == req then [e.attempt] else []
    ensures Recoveries(journal + [e], req) == Recoveries(journal, req) + if e.RecoveryEntry? && req in e.recovered then 1 else 0
  {
    assert (journal + [e])[..|journal|] == journal;
  }

  // ---- the ledger of claims: true of every interleaving ----

  /** Each claim uses up one reason to be claimable: being scheduled, a retry, a recovery. */
  ghost predicate ClaimsBalance(s: State, req: RequestId)
  {
    if req in s.rows then
      Claims(s.journal, req) + (if Claimable(s.rows[req].status) then 1 else 0)
      == 1 + |Retried(s.journal, req)| + Recoveries(s.journal, req)
    else Claims(s.journal, req) == 0 && Retried(s.journal, req) == [] && Recoveries(s.journal, req) == 0
  }

  /** A row as far as claims go: scheduled or not, claimable or not, tried how often. */
  predicate SameStanding(row: ChargeRequest, row': ChargeRequest)
  {
    && (Claimable(row'.status) <==> Claimable(row.status)) && (row'.status == Scheduled <==> row.status == Scheduled)
    && row'.attemptCount == row.attemptCount
  }

  /** The journal and the rows an act leaves as they stood. */
  ghost predicate QuietAct(s: State, s': State, req: RequestId)
  {
    s'.journal == s.journal && (req in s'.rows <==> req in s.rows) && (req in s.rows ==> SameStanding(s.rows[req], s'.rows[req]))
  }

  /** A claim that went through, on the attempt count read earlier. */
  ghost predicate ClaimAct(s: State, s': State, k: Worker)
  {
    && k.Loaded? && k.req in s.rows && s.rows[k.req].status == ClaimFrom(k.row) && Claimable(s.rows[k.req].status)
    && s'.journal == s.journal + [ClaimEntry(k.req)] && k.req in s'.rows && s'.rows == s.rows[k.req := s'.rows[k.req]]
    && s'.rows[k.req].status == Processing && s'.rows[k.req].attemptCount == k.row.attemptCount + 1
  }

  /** A scheduled retry. */
  ghost predicate RetryAct(s: State, s': State, k: Worker)
  {
    && k.Failing? && k.req in s.rows && !Claimable(s.rows[k.req].status) && 1 <= k.attempt <= 3
    && s'.journal == s.journal + [RetryEntry(k.req, k.attempt)] && k.req in s'.rows && s'.rows == s.rows[k.req := s'.rows[k.req]]
    && s'.rows[k.req].status == RetryableFailed && s'.rows[k.req].attemptCount == s.rows[k.req].attemptCount
  }

  /** What one transaction leaves in the rows and the journal. */
  lemma ExecuteLeaves(s: State, w: WorkerId, st: Statement)
    ensures var s' := Execute(s, w, st);
      if Commits(s, st) then
        && st.req in s.rows && s.rows[st.req].status == st.from && st.update.status in LegalTransitions(st.from)
        && s'.rows == s.rows[st.req := Write(s.rows[st.req], st.update)] && s'.journal == s.journal + st.entries
      else s'.rows == s.rows && s'.journal == s.journal
  {
    hide Insertable, Write;
  }

  lemma WriteOnJournal(s: State, w: WorkerId, act: Act, req: RequestId)
    requires WorkerOk(s, w) && IsWrite(act)
    ensures var s', k := DoAct(s, w, act), At(s, w);
      QuietAct(s, s', req) || (act.Claim? && ClaimAct(s, s', k)) || (act.WriteFailure? && RetryAct(s, s', k))
  {
    var st := StatementOf(At(s, w), s.nextTx, act);
    if st.Some? {
      ExecuteLeaves(s, w, st.value);
      assert At(s, w).Failing? ==> At(s, w).from == Processing || At(s, w).from == Submitted;
      hide Execute, Commits, WorkerOk;
      assert s.journal + [] == s.journal;
    }
  }

  /** The acts that write the journal, and those that do not. */
  lemma ActOnJournal(s: State, w: WorkerId, act: Act, req: RequestId)
    requires WorkerOk(s, w)
    ensures var s', k := DoAct(s, w, act), At(s, w);
      QuietAct(s, s', req) || (act.Claim? && ClaimAct(s, s', k)) || (act.WriteFailure? && RetryAct(s, s', k))
  {
    if IsWrite(act) {
      WriteOnJournal(s, w, act, req);
    } else {
      hide WorkerOk, Move, DoWrite, ClaimAct, RetryAct;
    }
  }

  /** Steps that are nobody's act: a recovery makes its rows claimable, a new request is claimable, the rest touch no row. */
  lemma OtherOnJournal(s: State, step: Step, req: RequestId)
    requires !step.By?
    ensures var s' := Next(s, step);
      && (req in s.rows ==> req in s'.rows && s'.rows[req].attemptCount == s.rows[req].attemptCount)
      && (req in s.rows ==> (s'.rows[req].status == Scheduled <==> s.rows[req].status == Scheduled))
      && (if step.Recover? then
            exists recovered ::
              && s'.journal == s.journal + [RecoveryEntry(recovered)] && (req in s'.rows <==> req in s.rows)
              && (req in recovered ==> req in s.rows && !Claimable(s.rows[req].status) && Claimable(s'.rows[req].status))
              && (req in s.rows && req !in recovered ==> (Claimable(s'.rows[req].status) <==> Claimable(s.rows[req].status)))
          else
            && s'.journal == s.journal
            && (req in s.rows ==> s'.rows[req] == s.rows[req])
            && (req in s'.rows && req !in s.rows ==> s'.rows[req].status == Scheduled && s'.rows[req].attemptCount == 0))
    ensures forall w: WorkerId :: At(Next(s, step), w) == At(s, w)
  {
    if step.Recover? {
      RecoverOnJournal(s, step.at, req);
      hide RecoverStale, Stale;
    } else {
      hide Charge, Apply, DoRecover, DoAct;
    }
  }

  lemma RecoverOnJournal(s: State, at: int, req: RequestId)
    ensures var s' := DoRecover(s, at);
      && (req in s'.rows <==> req in s.rows)
      && (req in s.rows ==> s'.rows[req].attemptCount == s.rows[req].attemptCount)
      && (req in s.rows ==> (s'.rows[req].status == Scheduled <==> s.rows[req].status == Scheduled))
      && exists recovered ::
          && s'.journal == s.journal + [RecoveryEntry(recovered)]
          && (req in recovered ==> req in s.rows && !Claimable(s.rows[req].status) && Claimable(s'.rows[req].status))
          && (req in s.rows && req !in recovered ==> (Claimable(s'.rows[req].status) <==> Claimable(s.rows[req].status)))
  {
    var recovered := set id | id in s.rows && Stale(s.rows[id], at);
    assert DoRecover(s, at).journal == s.journal + [RecoveryEntry(recovered)];
  }

  lemma BalanceAfterAct(s: State, w: WorkerId, act: Act, req: RequestId)
    requires WorkerOk(s, w) && ClaimsBalance(s, req)
    ensures ClaimsBalance(DoAct(s, w, act), req)
  {
    ActOnJournal(s, w, act, req);
    hide DoAct, WorkerOk;
    var k := At(s, w);
    if act.Claim? && k.Loaded? { CountOne(s.journal, ClaimEntry(k.req), req); }
    if act.WriteFailure? && k.Failing? { CountOne(s.journal, RetryEntry(k.req, k.attempt), req); }
  }

  lemma BalanceAfterOther(s: State, step: Step, req: RequestId)
    requires !step.By? && ClaimsBalance(s, req)
    ensures ClaimsBalance(Next(s, step), req)
  {
    OtherOnJournal(s, step, req);
    hide Next;
    if step.Recover? {
      var recovered :| Next(s, step).journal == s.journal + [RecoveryEntry(recovered)];
      CountOne(s.journal, RecoveryEntry(recovered), req);
    }
  }

  lemma BalanceNext(s: State, step: Step, req: RequestId)
    requires WorkersOk(s) && ClaimsBalance(s, req)
    ensures ClaimsBalance(Next(s, step), req)
  {
    hide DoAct, Next, WorkerOk, ClaimsBalance;
    if step.By? {
      assert WorkerOk(s, step.w);
      ActIsNext(s, step.w, step.act);
      BalanceAfterAct(s, step.w, step.act, req);
    } else {
      BalanceAfterOther(s, step, req);
    }
    assert ClaimsBalance(Next(s, step), req);
  }

  lemma {:induction false} BalanceRun(steps: seq<Step>, req: RequestId)
    ensures ClaimsBalance(Steps(START, steps), req)
  {
    if steps != [] {
      var front := steps[..|steps| - 1];
      BalanceRun(front, req);
      RunSafe(front);
      hide Next, RegistryOk, DistinctCharges, TxsOk, WorkersOk, SingleSubmitter, PaymentsOk, HooksOk, ClaimsBalance;
      BalanceNext(Steps(START, front), steps[|steps| - 1], req);
      assert ClaimsBalance(Steps(START, steps), req);
    }
  }

  // ---- attempts, in every interleaving ----

  /** A claim that goes through although the row was tried again since it was read. */
  predicate StaleClaim(s: State, step: Step, req: RequestId)
  {
    && step.By? && step.act.Claim? && At(s, step.w).Loaded? && At(s, step.w).req == req
    && req in s.rows && s.rows[req].status == ClaimFrom(At(s, step.w).row)
    && s.rows[req].attemptCount != At(s, step.w).row.attemptCount
  }

  function StaleClaims(steps: seq<Step>, req: RequestId): nat
  {
    if steps == [] then 0
    else
      var front, last := steps[..|steps| - 1], steps[|steps| - 1];
      StaleClaims(front, req) + if StaleClaim(Steps(START, front), last, req) then 1 else 0
  }

  /** Past its claim and not yet done. */
  predicate InFlight(k: Worker)
  {
    !k.Idle? && !k.Loaded?
  }

  /** On an attempt of the request that may still be retried. */
  predicate MayRetry(k: Worker, req: RequestId)
  {
    InFlight(k) && k.req == req && k.attempt <= 3
  }

  function Retriers(s: State, req: RequestId): set<WorkerId>
  {
    set w | w in s.workers && MayRetry(At(s, w), req)
  }

  /** What a worker read of a row fits what the row is by now. */
  ghost predicate ReadFits(s: State, req: RequestId, read: ChargeRequest)
  {
    && (read.status == Scheduled <==> read.attemptCount == 0)
    && read.attemptCount <= Claims(s.journal, req)
    && (req in s.rows && s.rows[req].status == Scheduled ==> read.status == Scheduled)
  }

  /** Rows, and what workers read of them: scheduled means never tried, and nobody counts more tries than claims. */
  ghost predicate CountsOk(s: State, req: RequestId)
  {
    && (req in s.rows ==> ReadFits(s, req, s.rows[req]))
    && (forall w :: At(s, w).Loaded? && At(s, w).req == req ==> ReadFits(s, req, At(s, w).row))
  }

  /** Retries made, retries that may still come, and the attempts left under the schedule. */
  ghost predicate WithinBudget(s: State, req: RequestId, stale: nat)
  {
    if req in s.rows
    then |Retried(s.journal, req)| + |Retriers(s, req)| + (if s.rows[req].attemptCount < 3 then 3 - s.rows[req].attemptCount else 0)
         <= 3 + 2 * stale
    else Retried(s.journal, req) == [] && Retriers(s, req) == {}
  }

  lemma MoveKeepsAttempt(s: State, act: Act, k: Worker)
    ensures var k' := Move(s, act, k); InFlight(k') ==> InFlight(k) && k'.req == k.req && k'.attempt == k.attempt
    ensures Move(s, act, k).Loaded? ==> Move(s, act, k) == k || (act.Load? && act.req in s.rows && Move(s, act, k) == Loaded(act.req, s.rows[act.req]))
  {
    hide Charge, GetMandate, Verified, ResolveChargeContext;
  }

  lemma StatementKeepsAttempt(k: Worker, nextTx: TxId, act: Act)
    requires StatementOf(k, nextTx, act).Some? && InFlight(StatementOf(k, nextTx, act).value.goesTo)
    ensures var st := StatementOf(k, nextTx, act).value;
      || (InFlight(k) && st.goesTo.req == k.req && st.goesTo.attempt == k.attempt && st.entries == [])
      || (act.Claim? && k.Loaded? && st.goesTo.req == k.req && st.goesTo.attempt == k.row.attemptCount + 1 && st.entries == [ClaimEntry(k.req)])
  {
  }

  /** An act leaves its worker idle, in flight with the same attempt, or in flight after a claim. */
  ghost predicate AttemptKept(s: State, s': State, act: Act, k: Worker, k': Worker)
  {
    InFlight(k') ==>
      || (InFlight(k) && k'.req == k.req && k'.attempt == k.attempt && s'.journal == s.journal)
      || (act.Claim? && k.Loaded? && k'.req == k.req && k'.attempt == k.row.attemptCount + 1 && s'.journal == s.journal + [ClaimEntry(k.req)])
  }

  lemma WriteOnAttempt(s: State, w: WorkerId, act: Act)
    requires IsWrite(act)
    ensures AttemptKept(s, DoAct(s, w, act), act, At(s, w), At(DoAct(s, w, act), w))
    ensures At(DoAct(s, w, act), w).Loaded? ==> At(DoAct(s, w, act), w) == At(s, w)
  {
    var st := StatementOf(At(s, w), s.nextTx, act);
    if st.Some? {
      StatementGoes(At(s, w), s.nextTx, act);
      hide StatementOf, Transition, Insertable;
      if InFlight(st.value.goesTo) {
        StatementKeepsAttempt(At(s, w), s.nextTx, act);
        assert s.journal + [] == s.journal;
      }
    }
  }

  lemma StatementGoes(k: Worker, nextTx: TxId, act: Act)
    requires StatementOf(k, nextTx, act).Some?
    ensures !StatementOf(k, nextTx, act).value.goesTo.Loaded?
  {
  }

  /** What an act makes of its worker's attempt, and that it makes nothing of anyone else's. */
  lemma ActOnAttempt(s: State, w: WorkerId, act: Act)
    ensures AttemptKept(s, DoAct(s, w, act), act, At(s, w), At(DoAct(s, w, act), w))
    ensures At(DoAct(s, w, act), w).Loaded? ==>
      At(DoAct(s, w, act), w) == At(s, w)
      || (act.Load? && act.req in s.rows && At(DoAct(s, w, act), w) == Loaded(act.req, s.rows[act.req]))
    ensures forall v: WorkerId :: v != w ==> At(DoAct(s, w, act), v) == At(s, v)
  {
    ActTables(s, w, act);
    if IsWrite(act) {
      hide DoAct;
      WriteOnAttempt(s, w, act);
    } else {
      MoveKeepsAttempt(s, act, At(s, w));
      hide Move, DoWrite;
    }
  }

  // ---- counts ----

  lemma CountsQuiet(s: State, s': State, req: RequestId)
    requires CountsOk(s, req) && req in s.rows && req in s'.rows
    requires Claims(s'.journal, req) >= Claims(s.journal, req)
    requires s'.rows[req].attemptCount == s.rows[req].attemptCount && (s'.rows[req].status == Scheduled <==> s.rows[req].status == Scheduled)
    requires forall w :: At(s', w).Loaded? && At(s', w).req == req ==> At(s', w) == At(s, w) || At(s', w).row == s.rows[req]
    ensures CountsOk(s', req)
  {
    hide Claims;
  }

  lemma CountsClaimed(s: State, s': State, k: Worker, w: WorkerId)
    requires k.Loaded? && CountsOk(s, k.req) && At(s, w) == k && ClaimAct(s, s', k)
    requires forall v :: At(s', v).Loaded? && At(s', v).req == k.req ==> At(s', v) == At(s, v)
    ensures CountsOk(s', k.req)
  {
    CountOne(s.journal, ClaimEntry(k.req), k.req);
    hide Claims, Retried, Recoveries;
  }

  /** Loaded workers of the request after a step hold what they held, or what was just read. */
  ghost predicate ReadsKept(s: State, s': State, req: RequestId)
  {
    req in s.rows && forall w :: At(s', w).Loaded? && At(s', w).req == req ==> At(s', w) == At(s, w) || At(s', w).row == s.rows[req]
  }

  lemma CountsOfClaim(s: State, s': State, w: WorkerId, req: RequestId)
    requires ClaimAct(s, s', At(s, w)) && CountsOk(s, req) && ReadsKept(s, s', req)
    requires forall v :: At(s', v).Loaded? && At(s', v).req == At(s, w).req ==> At(s', v) == At(s, v)
    ensures CountsOk(s', req)
  {
    var k := At(s, w);
    CountOne(s.journal, ClaimEntry(k.req), req);
    hide CountsOk, Claims, Retried, Recoveries;
    if k.req == req { CountsClaimed(s, s', k, w); } else { CountsQuiet(s, s', req); }
  }

  lemma CountsOfRetry(s: State, s': State, w: WorkerId, req: RequestId)
    requires RetryAct(s, s', At(s, w)) && CountsOk(s, req) && ReadsKept(s, s', req)
    ensures CountsOk(s', req)
  {
    var k := At(s, w);
    CountOne(s.journal, RetryEntry(k.req, k.attempt), req);
    hide CountsOk, Claims, Retried, Recoveries;
    CountsQuiet(s, s', req);
  }

  lemma CountsAfterAct(s: State, w: WorkerId, act: Act, req: RequestId)
    requires WorkerOk(s, w) && CountsOk(s, req) && req in s.rows
    ensures CountsOk(DoAct(s, w, act), req)
  {
    var s', k := DoAct(s, w, act), At(s, w);
    ActOnJournal(s, w, act, req);
    ActOnAttempt(s, w, act);
    hide DoAct, WorkerOk, CountsOk, Claims, Retried, Recoveries, ClaimAct, RetryAct;
    assert ReadsKept(s, s', req);
    if act.Claim? && ClaimAct(s, s', k) {
      CountsOfClaim(s, s', w, req);
    } else if act.WriteFailure? && RetryAct(s, s', k) {
      CountsOfRetry(s, s', w, req);
    } else {
      CountsQuiet(s, s', req);
    }
    assert CountsOk(s', req);
  }

  lemma CountsAfterOther(s: State, step: Step, req: RequestId)
    requires !step.By? && CountsOk(s, req) && WorkersOk(s)
    ensures CountsOk(Next(s, step), req)
  {
    OtherOnJournal(s, step, req);
    LoadedKnown(s, req);
    hide Next, WorkersOk, Claims, Retried, Recoveries;
    if step.Recover? {
      var recovered :| Next(s, step).journal == s.journal + [RecoveryEntry(recovered)];
      CountOne(s.journal, RecoveryEntry(recovered), req);
    }
    if req in s.rows { hide CountsOk; CountsQuiet(s, Next(s, step), req); }
  }

  lemma LoadedKnown(s: State, req: RequestId)
    requires WorkersOk(s)
    ensures forall w :: !At(s, w).Idle? && At(s, w).req == req ==> req in s.rows
  {
    forall w: WorkerId | !At(s, w).Idle? && At(s, w).req == req ensures req in s.rows {
      assert WorkerOk(s, w);
      KnowsRow(s, w);
    }
  }

  lemma ActLeavesUnknown(s: State, w: WorkerId, act: Act, req: RequestId)
    requires WorkerOk(s, w) && req !in s.rows
    ensures req !in DoAct(s, w, act).rows
    ensures !At(DoAct(s, w, act), w).Idle? ==> At(DoAct(s, w, act), w).req != req
  {
    if !At(s, w).Idle? { KnowsRow(s, w); }
    StepKeepsOrders(s, By(w, act));
    ActIsNext(s, w, act);
    ActOnAttempt(s, w, act);
    hide DoAct, WorkerOk;
  }

  lemma CountsNext(s: State, step: Step, req: RequestId)
    requires WorkersOk(s) && CountsOk(s, req)
    ensures CountsOk(Next(s, step), req)
  {
    if step.By? {
      assert WorkerOk(s, step.w);
      ActIsNext(s, step.w, step.act);
      if req in s.rows {
        hide DoAct, Next, WorkersOk, WorkerOk, CountsOk;
        CountsAfterAct(s, step.w, step.act, req);
      } else {
        LoadedKnown(s, req);
        ActLeavesUnknown(s, step.w, step.act, req);
        ActOnAttempt(s, step.w, step.act);
        hide DoAct, Next, WorkersOk, WorkerOk, Claims;
      }
    } else {
      hide Next, WorkersOk, CountsOk;
      CountsAfterOther(s, step, req);
    }
  }

  // ---- the budget ----

  lemma Subset(a: set<WorkerId>, b: set<WorkerId>)
    requires a <= b
    ensures |a| <= |b|
  {
    assert b == a + (b - a);
  }

  /** A step that starts no attempt and retries none. */
  lemma BudgetQuiet(s: State, s': State, req: RequestId, stale: nat)
    requires WithinBudget(s, req, stale) && Retried(s'.journal, req) == Retried(s.journal, req)
    requires if req in s.rows then req in s'.rows && s'.rows[req].attemptCount == s.rows[req].attemptCount
             else req in s'.rows ==> s'.rows[req].attemptCount == 0
    requires forall w :: MayRetry(At(s', w), req) ==> MayRetry(At(s, w), req)
    ensures WithinBudget(s', req, stale)
  {
    assert Retriers(s', req) <= Retriers(s, req) by { RetriersShrink(s, s', req); }
    Subset(Retriers(s', req), Retriers(s, req));
    hide Retried, Retriers;
  }

  lemma RetriersShrink(s: State, s': State, req: RequestId)
    requires forall w :: MayRetry(At(s', w), req) ==> MayRetry(At(s, w), req)
    ensures Retriers(s', req) <= Retriers(s, req)
  {
  }

  /** A claim: one worker more may retry if its attempt number is low enough; a stale one costs two. */
  lemma BudgetClaimed(s: State, s': State, w: WorkerId, req: RequestId, stale: nat)
    requires WithinBudget(s, req, stale) && CountsOk(s, req)
    requires var k := At(s, w); k.Loaded? && k.req == req && ClaimAct(s, s', k)
    requires Retried(s'.journal, req) == Retried(s.journal, req)
    requires MayRetry(At(s', w), req) ==> At(s', w).attempt == s'.rows[req].attemptCount
    requires forall v: WorkerId :: v != w ==> At(s', v) == At(s, v)
    ensures WithinBudget(s', req, if s.rows[req].attemptCount != At(s, w).row.attemptCount then stale + 1 else stale)
  {
    var more := if s'.rows[req].attemptCount <= 3 then {w} else {};
    assert Retriers(s', req) <= Retriers(s, req) + more;
    Subset(Retriers(s', req), Retriers(s, req) + more);
    hide Retried, Retriers, Claims;
  }

  /** A retry ends the attempt of a worker that could retry. */
  lemma BudgetRetried(s: State, s': State, w: WorkerId, req: RequestId, stale: nat)
    requires WithinBudget(s, req, stale) && req in s.rows && req in s'.rows
    requires MayRetry(At(s, w), req) && !MayRetry(At(s', w), req)
    requires Retried(s'.journal, req) == Retried(s.journal, req) + [At(s, w).attempt]
    requires s'.rows[req].attemptCount == s.rows[req].attemptCount
    requires forall v: WorkerId :: v != w ==> At(s', v) == At(s, v)
    ensures WithinBudget(s', req, stale)
  {
    assert w in Retriers(s, req);
    assert Retriers(s', req) <= Retriers(s, req) - {w};
    Subset(Retriers(s', req), Retriers(s, req) - {w});
    hide Retried, Retriers;
  }

  lemma BudgetOfClaim(s: State, s': State, w: WorkerId, act: Act, req: RequestId, stale: nat)
    requires var k := At(s, w); act.Claim? && ClaimAct(s, s', k) && AttemptKept(s, s', act, k, At(s', w))
    requires CountsOk(s, req) && WithinBudget(s, req, stale) && (req in s'.rows <==> req in s.rows)
    requires forall v: WorkerId :: v != w ==> At(s', v) == At(s, v)
    ensures WithinBudget(s', req, if StaleClaim(s, By(w, act), req) then stale + 1 else stale)
  {
    var k := At(s, w);
    CountOne(s.journal, ClaimEntry(k.req), req);
    hide CountsOk, WithinBudget, Claims, Retried, Recoveries;
    if k.req == req { BudgetClaimed(s, s', w, req, stale); } else { BudgetQuiet(s, s', req, stale); }
  }

  lemma BudgetOfRetry(s: State, s': State, w: WorkerId, act: Act, req: RequestId, stale: nat)
    requires var k := At(s, w); act.WriteFailure? && RetryAct(s, s', k) && AttemptKept(s, s', act, k, At(s', w))
    requires WithinBudget(s, req, stale) && (req in s'.rows <==> req in s.rows)
    requires forall v: WorkerId :: v != w ==> At(s', v) == At(s, v)
    ensures WithinBudget(s', req, stale)
  {
    var k := At(s, w);
    CountOne(s.journal, RetryEntry(k.req, k.attempt), req);
    hide WithinBudget, Claims, Retried, Recoveries;
    if k.req == req { BudgetRetried(s, s', w, req, stale); } else { BudgetQuiet(s, s', req, stale); }
  }

  lemma BudgetAfterAct(s: State, w: WorkerId, act: Act, req: RequestId, stale: nat)
    requires WorkerOk(s, w) && CountsOk(s, req) && WithinBudget(s, req, stale)
    ensures WithinBudget(DoAct(s, w, act), req, if StaleClaim(s, By(w, act), req) then stale + 1 else stale)
  {
    var s', k := DoAct(s, w, act), At(s, w);
    ActOnJournal(s, w, act, req);
    ActOnAttempt(s, w, act);
    ActKeepsRow(s, w, act, req);
    hide DoAct, WorkerOk, CountsOk, WithinBudget, Claims, Retried, Recoveries, ClaimAct, RetryAct;
    if act.Claim? && ClaimAct(s, s', k) {
      BudgetOfClaim(s, s', w, act, req, stale);
    } else if act.WriteFailure? && RetryAct(s, s', k) {
      BudgetOfRetry(s, s', w, act, req, stale);
    } else {
      BudgetQuiet(s, s', req, stale);
      BudgetGrows(s', req, stale);
    }
  }

  lemma BudgetGrows(s: State, req: RequestId, stale: nat)
    requires WithinBudget(s, req, stale)
    ensures WithinBudget(s, req, stale + 1)
  {
    hide Retried, Retriers;
  }

  lemma ActKeepsRow(s: State, w: WorkerId, act: Act, req: RequestId)
    ensures req in DoAct(s, w, act).rows <==> req in s.rows
  {
    StepKeepsOrders(s, By(w, act));
    ActIsNext(s, w, act);
    hide DoAct;
  }

  lemma BudgetAfterOther(s: State, step: Step, req: RequestId, stale: nat)
    requires !step.By? && WithinBudget(s, req, stale)
    ensures WithinBudget(Next(s, step), req, stale)
  {
    OtherOnJournal(s, step, req);
    hide Next, WithinBudget, Retried, Claims, Recoveries;
    if step.Recover? {
      var recovered :| Next(s, step).journal == s.journal + [RecoveryEntry(recovered)];
      CountOne(s.journal, RecoveryEntry(recovered), req);
    }
    BudgetQuiet(s, Next(s, step), req, stale);
  }

  lemma {:induction false} BudgetRun(steps: seq<Step>, req: RequestId)
    ensures CountsOk(Steps(START, steps), req) && WithinBudget(Steps(START, steps), req, StaleClaims(steps, req))
  {
    if steps != [] {
      var front, last := steps[..|steps| - 1], steps[|steps| - 1];
      BudgetRun(front, req);
      RunSafe(front);
      var s := Steps(START, front);
      hide Next, DoAct, RegistryOk, DistinctCharges, TxsOk, SingleSubmitter, PaymentsOk, HooksOk, CountsOk, WithinBudget, WorkerOk;
      CountsNext(s, last, req);
      if last.By? {
        assert WorkerOk(s, last.w);
        ActIsNext(s, last.w, last.act);
        BudgetAfterAct(s, last.w, last.act, req, StaleClaims(front, req));
      } else {
        BudgetAfterOther(s, last, req, StaleClaims(front, req));
      }
      assert CountsOk(Steps(START, steps), req) && WithinBudget(Steps(START, steps), req, StaleClaims(steps, req));
    }
  }

  /**
   * In every interleaving: three retries and two more per stale claim are all
   * that is ever scheduled, and claims exceed retries by at most one and one
   * per recovery.
   */
  lemma RetriesBoundedByStaleClaims(steps: seq<Step>, req: RequestId)
    ensures var s := Steps(START, steps);
      && |Retried(s.journal, req)| <= 3 + 2 * StaleClaims(steps, req)
      && Claims(s.journal, req) <= 4 + 2 * StaleClaims(steps, req) + Recoveries(s.journal, req)
  {
    BudgetRun(steps, req);
    BalanceRun(steps, req);
    hide Steps, StaleClaims, Retried, Retriers, Claims, Recoveries, CountsOk;
  }

  // ---- when read and claim are one step ----

  /** The claim acts on the attempt count it read: nothing came between. */
  predicate Fresh(s: State, step: Step)
  {
    step.By? && step.act.Claim? && At(s, step.w).Loaded? ==>
      At(s, step.w).req in s.rows && s.rows[At(s, step.w).req].attemptCount == At(s, step.w).row.attemptCount
  }

  predicate FreshRun(s: State, steps: seq<Step>)
  {
    steps == [] || (FreshRun(s, steps[..|steps| - 1]) && Fresh(Steps(s, steps[..|steps| - 1]), steps[|steps| - 1]))
  }

  lemma {:induction false} FreshIsNeverStale(steps: seq<Step>, req: RequestId)
    requires FreshRun(START, steps)
    ensures StaleClaims(steps, req) == 0
  {
    if steps != [] {
      hide Steps;
      FreshIsNeverStale(steps[..|steps| - 1], req);
    }
  }

  /**
   * When each read and claim is one step: at most three retries are scheduled,
   * and at most four claims plus one per recovery are made.
   */
  lemma BoundedRetries(steps: seq<Step>, req: RequestId)
    requires FreshRun(START, steps)
    ensures var s := Steps(START, steps);
      && |Retried(s.journal, req)| <= 3
      && Claims(s.journal, req) <= 4 + Recoveries(s.journal, req)
  {
    hide *;
    FreshIsNeverStale(steps, req);
    RetriesBoundedByStaleClaims(steps, req);
  }

  // ---- the bound is used in full ----

  const ORDER := Order(0, Raw(1), Raw(2), 1, Raw(3), 0)

  /** One request, tried once; then `n` workers read its row while it waits for its second attempt. */
  function ManyReaders(n: nat): seq<Step>
  {
    if n == 0
    then [Schedule(0, ORDER, 0), By(0, Load(0)), By(0, Claim(0)), By(0, Reject(true)), By(0, WriteFailure(0))]
    else ManyReaders(n - 1) + [By(n, Load(0))]
  }

  /** Worker `w` claims what it read, fails and schedules a retry. */
  function Attempt(w: WorkerId): seq<Step>
  {
    [By(w, Claim(0)), By(w, Reject(true)), By(w, WriteFailure(0))]
  }

  /**
   * Attempts two and three are made on fresh reads; then each of the first `k`
   * readers claims on its old read, and one more fresh attempt follows.
   */
  function Rounds(n: nat, k: nat): seq<Step>
  {
    if k == 0 then ManyReaders(n) + [By(n + 1, Load(0))] + Attempt(n + 1) + [By(n + 1, Load(0))] + Attempt(n + 1)
    else Rounds(n, k - 1) + Attempt(k) + [By(n + 1, Load(0))] + Attempt(n + 1)
  }

  ghost predicate Waiting(s: State, retries: nat)
  {
    && 0 in s.rows && s.rows[0].status == RetryableFailed && |Retried(s.journal, 0)| == retries
  }

  predicate ReadAfterFirst(k: Worker)
  {
    k.Loaded? && k.req == 0 && k.row.status == RetryableFailed && k.row.attemptCount == 1
  }

  lemma StepsOne(steps: seq<Step>, step: Step)
    ensures Steps(START, steps + [step]) == Next(Steps(START, steps), step)
  {
    assert (steps + [step])[..|steps|] == steps;
  }

  lemma StepsThree(steps: seq<Step>, a: Step, b: Step, c: Step)
    ensures Steps(START, steps + [a, b, c]) == Next(Next(Next(Steps(START, steps), a), b), c)
  {
    StepsOne(steps, a);
    StepsOne(steps + [a], b);
    StepsOne(steps + [a] + [b], c);
    assert steps + [a, b, c] == steps + [a] + [b] + [c];
  }

  lemma ClaimGoesThrough(s: State, w: WorkerId)
    requires At(s, w).Loaded? && At(s, w).req == 0 && 0 in s.rows && s.rows[0].status == ClaimFrom(At(s, w).row)
    ensures var s', k := Next(s, By(w, Claim(0))), At(s, w);
      && At(s', w) == Claimed(0, k.row, k.row.attemptCount + 1) && s'.journal == s.journal + [ClaimEntry(0)]
      && 0 in s'.rows && s'.rows[0].status == Processing && s'.rows[0].attemptCount == k.row.attemptCount + 1
      && forall v: WorkerId :: v != w ==> At(s', v) == At(s, v)
  {
  }

  lemma TransientFailure(s: State, w: WorkerId)
    requires At(s, w).Failing? && At(s, w).req == 0 && At(s, w).transient && 1 <= At(s, w).attempt <= 3
    requires At(s, w).from == Processing && 0 in s.rows && s.rows[0].status == Processing
    ensures var s', k := Next(s, By(w, WriteFailure(0))), At(s, w);
      && s'.journal == s.journal + [RetryEntry(0, k.attempt)]
      && 0 in s'.rows && s'.rows[0].status == RetryableFailed && s'.rows[0].attemptCount == s.rows[0].attemptCount
      && At(s', w) == Idle
      && forall v: WorkerId :: v != w ==> At(s', v) == At(s, v)
  {
  }

  /** A read row, claimed and failed at once, waits again with one more retry counted. */
  lemma FailsAtOnce(s: State, w: WorkerId)
    requires At(s, w).Loaded? && At(s, w).req == 0 && 0 in s.rows
    requires s.rows[0].status == ClaimFrom(At(s, w).row) && At(s, w).row.attemptCount + 1 <= 3
    ensures var s' := Next(Next(Next(s, By(w, Claim(0))), By(w, Reject(true))), By(w, WriteFailure(0)));
      && Waiting(s', |Retried(s.journal, 0)| + 1) && s'.rows[0].attemptCount == At(s, w).row.attemptCount + 1
      && At(s', w) == Idle
      && forall v: WorkerId :: v != w ==> At(s', v) == At(s, v)
  {
    var k := At(s, w);
    var n := k.row.attemptCount + 1;
    var s1 := Next(s, By(w, Claim(0)));
    ClaimGoesThrough(s, w);
    var s2 := Next(s1, By(w, Reject(true)));
    assert s2 == Goto(s1, w, Failing(0, k.row, n, Processing, true));
    hide Next;
    TransientFailure(s2, w);
    CountOne(s.journal, ClaimEntry(0), 0);
    CountOne(s1.journal, RetryEntry(0, n), 0);
  }

  ghost predicate ReadersRead(s: State, n: nat)
  {
    && Waiting(s, 1) && s.rows[0].attemptCount == 1
    && (forall i: WorkerId :: 1 <= i <= n ==> ReadAfterFirst(At(s, i)))
    && (forall i: WorkerId :: n < i ==> At(s, i) == Idle)
  }

  lemma OneMoreReader(s: State, n: nat)
    requires n > 0 && ReadersRead(s, n - 1)
    ensures ReadersRead(Next(s, By(n, Load(0))), n)
  {
    var s' := Next(s, By(n, Load(0)));
    assert s' == Goto(s, n, Loaded(0, s.rows[0]));
    hide Next;
    assert forall i: WorkerId :: i != n ==> At(s', i) == At(s, i);
  }

  lemma ScheduledAndRead()
    ensures var s := Next(Next(START, Schedule(0, ORDER, 0)), By(0, Load(0)));
      && 0 in s.rows && At(s, 0) == Loaded(0, s.rows[0]) && s.rows[0].status == Scheduled && s.rows[0].attemptCount == 0
      && s.journal == [] && forall i: WorkerId :: 0 < i ==> At(s, i) == Idle
  {
    var s1 := Next(START, Schedule(0, ORDER, 0));
    assert 0 in s1.rows && s1.rows[0].status == Scheduled && s1.rows[0].attemptCount == 0 && s1.workers == map[];
    assert Next(s1, By(0, Load(0))) == Goto(s1, 0, Loaded(0, s1.rows[0]));
  }

  lemma FirstAttemptSteps()
    ensures Steps(START, ManyReaders(0)) ==
      Next(Next(Next(Next(Next(START, Schedule(0, ORDER, 0)), By(0, Load(0))), By(0, Claim(0))), By(0, Reject(true))), By(0, WriteFailure(0)))
  {
    assert ManyReaders(0) == [] + [Schedule(0, ORDER, 0)] + [By(0, Load(0))] + [By(0, Claim(0)), By(0, Reject(true)), By(0, WriteFailure(0))];
    assert Steps(START, []) == START;
    hide *;
    StepsOne([], Schedule(0, ORDER, 0));
    StepsOne([] + [Schedule(0, ORDER, 0)], By(0, Load(0)));
    StepsThree([] + [Schedule(0, ORDER, 0)] + [By(0, Load(0))], By(0, Claim(0)), By(0, Reject(true)), By(0, WriteFailure(0)));
  }

  lemma FirstAttempt()
    ensures ReadersRead(Steps(START, ManyReaders(0)), 0)
  {
    hide Next, Steps, ManyReaders;
    FirstAttemptSteps();
    ScheduledAndRead();
    FailsAtOnce(Next(Next(START, Schedule(0, ORDER, 0)), By(0, Load(0))), 0);
  }

  lemma {:induction false} ManyReadersRead(n: nat)
    ensures ReadersRead(Steps(START, ManyReaders(n)), n)
  {
    hide ReadersRead, Next;
    if n == 0 {
      FirstAttempt();
    } else {
      ManyReadersRead(n - 1);
      StepsOne(ManyReaders(n - 1), By(n, Load(0)));
      OneMoreReader(Steps(START, ManyReaders(n - 1)), n);
    }
  }

  lemma StaleOne(steps: seq<Step>, step: Step)
    ensures StaleClaims(steps + [step], 0) == StaleClaims(steps, 0) + if StaleClaim(Steps(START, steps), step, 0) then 1 else 0
  {
    assert (steps + [step])[..|steps|] == steps;
  }

  /** One attempt on a row read before: what it leads to, and what it counts for. */
  lemma AttemptRuns(steps: seq<Step>, w: WorkerId)
    requires var s := Steps(START, steps);
      && At(s, w).Loaded? && At(s, w).req == 0 && 0 in s.rows
      && s.rows[0].status == RetryableFailed && At(s, w).row.status == RetryableFailed && At(s, w).row.attemptCount + 1 <= 3
    ensures var s, s' := Steps(START, steps), Steps(START, steps + Attempt(w));
      && Waiting(s', |Retried(s.journal, 0)| + 1) && s'.rows[0].attemptCount == At(s, w).row.attemptCount + 1
      && At(s', w) == Idle && forall v: WorkerId :: v != w ==> At(s', v) == At(s, v)
    ensures StaleClaims(steps + Attempt(w), 0) == StaleClaims(steps, 0)
      + if Steps(START, steps).rows[0].attemptCount != At(Steps(START, steps), w).row.attemptCount then 1 else 0
  {
    StepsThree(steps, By(w, Claim(0)), By(w, Reject(true)), By(w, WriteFailure(0)));
    StaleOne(steps, By(w, Claim(0)));
    StaleOne(steps + [By(w, Claim(0))], By(w, Reject(true)));
    StaleOne(steps + [By(w, Claim(0))] + [By(w, Reject(true))], By(w, WriteFailure(0)));
    assert steps + Attempt(w) == steps + [By(w, Claim(0))] + [By(w, Reject(true))] + [By(w, WriteFailure(0))];
    hide Next, Steps, StaleClaims, Retried;
    FailsAtOnce(Steps(START, steps), w);
  }

  /** An idle worker reads the row as it is. */
  lemma IdleReads(steps: seq<Step>, w: WorkerId)
    requires At(Steps(START, steps), w) == Idle && 0 in Steps(START, steps).rows
    ensures var s, s' := Steps(START, steps), Steps(START, steps + [By(w, Load(0))]);
      && At(s', w) == Loaded(0, s.rows[0]) && s'.rows == s.rows && s'.journal == s.journal
      && forall v: WorkerId :: v != w ==> At(s', v) == At(s, v)
    ensures StaleClaims(steps + [By(w, Load(0))], 0) == StaleClaims(steps, 0)
  {
    StepsOne(steps, By(w, Load(0)));
    StaleOne(steps, By(w, Load(0)));
    var s := Steps(START, steps);
    assert Next(s, By(w, Load(0))) == Goto(s, w, Loaded(0, s.rows[0]));
    hide Next, Steps;
  }

  /** Between two rounds: three attempts counted, the readers that are left, and an idle worker. */
  ghost predicate RoundOk(s: State, n: nat, k: nat, retries: nat, count: nat)
  {
    && Waiting(s, retries) && s.rows[0].attemptCount == count && At(s, n + 1) == Idle
    && forall i: WorkerId :: k < i <= n ==> ReadAfterFirst(At(s, i))
  }

  /** A read and an attempt at once: one retry more, no stale claim. */
  lemma FreshAttempt(steps: seq<Step>, n: nat, k: nat, retries: nat, count: nat)
    requires RoundOk(Steps(START, steps), n, k, retries, count) && count <= 2
    ensures var more := steps + [By(n + 1, Load(0))] + Attempt(n + 1);
      && RoundOk(Steps(START, more), n, k, retries + 1, count + 1) && StaleClaims(more, 0) == StaleClaims(steps, 0)
  {
    hide Steps, StaleClaims, Retried, Attempt;
    IdleReads(steps, n + 1);
    AttemptRuns(steps + [By(n + 1, Load(0))], n + 1);
  }

  /** A reader of the first attempt claims when three are counted: one retry more, one stale claim, back to two. */
  lemma StaleAttempt(steps: seq<Step>, n: nat, k: nat, retries: nat)
    requires 0 < k <= n && RoundOk(Steps(START, steps), n, k - 1, retries, 3)
    ensures RoundOk(Steps(START, steps + Attempt(k)), n, k, retries + 1, 2)
    ensures StaleClaims(steps + Attempt(k), 0) == StaleClaims(steps, 0) + 1
  {
    hide Steps, StaleClaims, Retried, Attempt;
    AttemptRuns(steps, k);
  }

  lemma {:induction false} RoundsRun(n: nat, k: nat)
    requires k <= n
    ensures RoundOk(Steps(START, Rounds(n, k)), n, k, 3 + 2 * k, 3) && StaleClaims(Rounds(n, k), 0) == k
  {
    hide RoundOk, Steps, StaleClaims, Attempt;
    if k == 0 {
      ManyReadersRead(n);
      ReadersAreRound(n);
      ManyReadersFresh(n);
      FreshAttempt(ManyReaders(n), n, 0, 1, 1);
      FreshAttempt(ManyReaders(n) + [By(n + 1, Load(0))] + Attempt(n + 1), n, 0, 2, 2);
    } else {
      RoundsRun(n, k - 1);
      StaleAttempt(Rounds(n, k - 1), n, k, 1 + 2 * k);
      FreshAttempt(Rounds(n, k - 1) + Attempt(k), n, k, 2 + 2 * k, 2);
    }
  }

  lemma ReadersAreRound(n: nat)
    requires ReadersRead(Steps(START, ManyReaders(n)), n)
    ensures RoundOk(Steps(START, ManyReaders(n)), n, 0, 1, 1)
  {
    hide Steps;
  }

  /** The first attempt was made on a fresh read, and reading claims nothing. */
  lemma {:induction false} ManyReadersFresh(n: nat)
    ensures StaleClaims(ManyReaders(n), 0) == 0
  {
    if n == 0 {
      FirstIsFresh();
    } else {
      ManyReadersFresh(n - 1);
      StaleOne(ManyReaders(n - 1), By(n, Load(0)));
      hide Steps, StaleClaims;
    }
  }

  lemma FirstIsFresh()
    ensures StaleClaims(ManyReaders(0), 0) == 0
  {
    var a, b, c, d, e := Schedule(0, ORDER, 0), By(0, Load(0)), By(0, Claim(0)), By(0, Reject(true)), By(0, WriteFailure(0));
    assert ManyReaders(0) == [] + [a] + [b] + [c] + [d] + [e];
    assert StaleClaims([], 0) == 0 && Steps(START, []) == START;
    StepsOne([], a);
    StepsOne([] + [a], b);
    ScheduledAndRead();
    hide Steps, StaleClaims, Next;
    StaleOne([], a);
    StaleOne([] + [a], b);
    StaleOne([] + [a] + [b], c);
    StaleOne([] + [a] + [b] + [c], d);
    StaleOne([] + [a] + [b] + [c] + [d], e);
  }

  /**
   * The bound is exact, and nothing bounds it: for every n some run without a
   * recovery has exactly n stale claims and schedules exactly 3 + 2 n retries of
   * one request.
   */
  lemma StaleClaimsUseTheirBudget(n: nat)
    ensures exists steps: seq<Step> ::
      && (forall i :: 0 <= i < |steps| ==> !steps[i].Recover?)
      && StaleClaims(steps, 0) == n && |Retried(Steps(START, steps).journal, 0)| == 3 + 2 * n
  {
    RoundsRun(n, n);
    NeverRecovers(n, n);
    hide Steps, StaleClaims, Rounds, Retried;
    assert StaleClaims(Rounds(n, n), 0) == n;
  }

  lemma {:induction false} NeverRecovers(n: nat, k: nat)
    ensures forall i :: 0 <= i < |Rounds(n, k)| ==> !Rounds(n, k)[i].Recover?
  {
    if k > 0 { NeverRecovers(n, k - 1); } else { ReadersNeverRecover(n); }
  }

  lemma {:induction false} ReadersNeverRecover(n: nat)
    ensures forall i :: 0 <= i < |ManyReaders(n)| ==> !ManyReaders(n)[i].Recover?
  {
    if n > 0 { ReadersNeverRecover(n - 1); }
  }

  // ---- descent ----

  function Weight(status: Status): nat
  {
    match status
    case Processing => 4
    case Simulated => 3
    case Submitted => 2
    case Scheduled => 1
    case RetryableFailed => 1
    case Succeeded => 0
    case PermanentlyFailed => 0
  }

  function Measure(row: ChargeRequest): int
  {
    10 * (4 - row.attemptCount) + Weight(row.status)
  }

  lemma ActDescends(s: State, w: WorkerId, act: Act, req: RequestId)
    requires req in s.rows && WorkerOk(s, w) && Fresh(s, By(w, act))
    ensures req in DoAct(s, w, act).rows
    ensures DoAct(s, w, act).rows[req] == s.rows[req] || Measure(DoAct(s, w, act).rows[req]) < Measure(s.rows[req])
  {
    hide Charge, GetMandate, PaidAfter, ReadFrom, Insertable;
  }

  lemma StepDescends(s: State, step: Step, req: RequestId)
    requires req in s.rows && WorkersOk(s) && Fresh(s, step) && !step.Recover?
    ensures req in Next(s, step).rows
    ensures Next(s, step).rows[req] == s.rows[req] || Measure(Next(s, step).rows[req]) < Measure(s.rows[req])
  {
    hide DoAct, Next, WorkerOk, Measure;
    if step.By? {
      assert WorkerOk(s, step.w);
      assert Fresh(s, By(step.w, step.act));
      ActIsNext(s, step.w, step.act);
      ActDescends(s, step.w, step.act, req);
    } else {
      OtherOnJournal(s, step, req);
    }
  }

  /** The counts of one request, from which its measure is bounded. */
  lemma CountsToMeasure(s: State, req: RequestId)
    requires req in s.rows && CountsOk(s, req) && Claims(s.journal, req) <= 4
    ensures 0 <= Measure(s.rows[req]) <= 41
  {
    hide Claims;
  }

  lemma MeasureBounded(steps: seq<Step>, req: RequestId)
    requires FreshRun(START, steps)
    requires forall i :: 0 <= i < |steps| ==> !steps[i].Recover?
    requires req in Steps(START, steps).rows
    ensures 0 <= Measure(Steps(START, steps).rows[req]) <= 41
  {
    hide *;
    BoundedRetries(steps, req);
    NoRecoveries(steps, req);
    BudgetRun(steps, req);
    CountsToMeasure(Steps(START, steps), req);
  }

  /** Without recoveries every write to a row goes down a measure that stays between 0 and 41. */
  lemma RowsDescend(steps: seq<Step>, step: Step, req: RequestId)
    requires FreshRun(START, steps) && Fresh(Steps(START, steps), step)
    requires forall i :: 0 <= i < |steps| ==> !steps[i].Recover?
    requires !step.Recover? && req in Steps(START, steps).rows
    ensures var s := Steps(START, steps); var s' := Next(s, step);
      && 0 <= Measure(s.rows[req]) <= 41
      && req in s'.rows
      && (s'.rows[req] == s.rows[req] || Measure(s'.rows[req]) < Measure(s.rows[req]))
  {
    MeasureBounded(steps, req);
    RunSafe(steps);
    hide RegistryOk, DistinctCharges, TxsOk, WorkersOk, SingleSubmitter, PaymentsOk, HooksOk, Next, Steps;
    StepDescends(Steps(START, steps), step, req);
  }

  lemma RecoveriesNext(s: State, step: Step, req: RequestId)
    requires WorkersOk(s) && !step.Recover?
    ensures Recoveries(Next(s, step).journal, req) == Recoveries(s.journal, req)
  {
    hide DoAct, Next, WorkerOk;
    if step.By? {
      assert WorkerOk(s, step.w);
      ActIsNext(s, step.w, step.act);
      ActOnJournal(s, step.w, step.act, req);
      var k := At(s, step.w);
      if step.act.Claim? && k.Loaded? { CountOne(s.journal, ClaimEntry(k.req), req); }
      if step.act.WriteFailure? && k.Failing? { CountOne(s.journal, RetryEntry(k.req, k.attempt), req); }
    } else {
      OtherOnJournal(s, step, req);
    }
  }

  lemma {:induction false} NoRecoveries(steps: seq<Step>, req: RequestId)
    requires forall i :: 0 <= i < |steps| ==> !steps[i].Recover?
    ensures Recoveries(Steps(START, steps).journal, req) == 0
  {
    if steps != [] {
      var front, last := steps[..|steps| - 1], steps[|steps| - 1];
      NoRecoveries(front, req);
      RunSafe(front);
      assert !last.Recover?;
      hide Next, RegistryOk, DistinctCharges, TxsOk, WorkersOk, SingleSubmitter, PaymentsOk, HooksOk, Recoveries;
      RecoveriesNext(Steps(START, front), last, req);
    }
  }

  // ---- progress without recoveries ----

  /** The status of a row whose worker stands here. */
  function StageOf(k: Worker): Status
  {
    match k
    case Idle => Scheduled
    case Loaded(_, _) => Scheduled
    case Claimed(_, _, _) => Processing
    case MandateRead(_, _, _, _) => Processing
    case Prepared(_, _, _, _, _, _) => Processing
    case MarkedSimulated(_, _, _, _) => Simulated
    case Submitting(_, _, _, _, _) => Submitted
    case Confirmed(_, _, _, _, _) => Submitted
    case Failing(_, _, _, from, _) => from
  }

  /** Each request has at most one worker past its claim, and its row is at that worker's stage. */
  ghost predicate LoneWorkers(s: State)
  {
    && (forall w :: InFlight(At(s, w)) ==> At(s, w).req in s.rows && s.rows[At(s, w).req].status == StageOf(At(s, w)))
    && (forall v, w | InFlight(At(s, v)) && InFlight(At(s, w)) :: At(s, v).req == At(s, w).req ==> v == w)
  }

  /** Each row that is neither claimable nor terminal has its worker. */
  ghost predicate Staffed(s: State)
  {
    forall r :: r in s.rows && !Claimable(s.rows[r].status) && !Terminal(s.rows[r].status) ==>
      exists w :: InFlight(At(s, w)) && At(s, w).req == r
  }

  /** A confirmed worker's payment is new: no other request has its charge id. */
  lemma SettleInserts(s: State, w: WorkerId)
    requires CoreOk(s) && PaymentsOk(s) && At(s, w).Confirmed?
    requires At(s, w).req in s.rows && s.rows[At(s, w).req].status == Submitted
    ensures Insertable(s.payments, At(s, w).req, Some(PaymentFrom(At(s, w).row, At(s, w).receipt)))
  {
    hide RegistryOk, TxsOk, IsChargeNumber, Expected;
    var k := At(s, w);
    assert WorkerOk(s, w);
    assert k.receipt.paymentId == PaymentHash(k.row.mandateId, k.row.chargeId) && OrderOf(s.rows[k.req]) == OrderOf(k.row);
    hide WorkerOk, WorkersOk;
    forall r | r in s.payments
      ensures s.payments[r].paymentId != k.receipt.paymentId && s.payments[r].chargeId != k.row.chargeId
    {
      assert PaymentOk(s, r);
      assert r != k.req;
    }
  }

  /** The next write of a lone worker goes through. */
  lemma LoneWriteCommits(s: State, w: WorkerId, act: Act)
    requires CoreOk(s) && PaymentsOk(s) && LoneWorkers(s) && InFlight(At(s, w))
    requires StatementOf(At(s, w), s.nextTx, act).Some?
    ensures Commits(s, StatementOf(At(s, w), s.nextTx, act).value)
  {
    hide RegistryOk, TxsOk, IsChargeNumber, DistinctCharges, PaymentsOk, Insertable;
    var k := At(s, w);
    assert WorkerOk(s, w);
    if k.Confirmed? { SettleInserts(s, w); }
    assert StatementOf(k, s.nextTx, act).value.payment.None? ==> Insertable(s.payments, k.req, None) by { InsertsNothing(s, k.req); }
  }

  lemma InsertsNothing(s: State, req: RequestId)
    ensures Insertable(s.payments, req, None)
  {
  }

  /** One act and its worker's row: where both go, for a worker whose row is at its stage. */
  lemma ActOnStage(s: State, w: WorkerId, act: Act)
    requires WorkerOk(s, w)
    requires InFlight(At(s, w)) ==> At(s, w).req in s.rows && s.rows[At(s, w).req].status == StageOf(At(s, w))
    ensures var s', k, k' := DoAct(s, w, act), At(s, w), At(DoAct(s, w, act), w);
      && (InFlight(k') ==> k'.req in s'.rows && s'.rows[k'.req].status == StageOf(k'))
      && (InFlight(k') ==> !k.Idle? && k'.req == k.req && k.req in s.rows)
      && (InFlight(k') && !InFlight(k) ==> Claimable(s.rows[k.req].status))
  {
    hide Charge, GetMandate, PaidAfter, ReadFrom, Insertable, Expected, Cleared, ResolveChargeContext, Verified;
    if !IsWrite(act) { hide StatementOf, Commits, Transition; } else { hide Move; }
  }

  /** An act writes at most its worker's row; before a claim, only a claimable one, and then it is in flight. */
  lemma ActOnRows(s: State, w: WorkerId, act: Act)
    ensures var s', k, k' := DoAct(s, w, act), At(s, w), At(DoAct(s, w, act), w);
      && (k.Idle? ==> s'.rows == s.rows)
      && (!k.Idle? ==> forall r :: r != k.req ==> (r in s'.rows <==> r in s.rows) && (r in s.rows ==> s'.rows[r] == s.rows[r]))
      && (!k.Idle? && !InFlight(k) && s'.rows != s.rows ==>
            k.req in s.rows && Claimable(s.rows[k.req].status) && InFlight(k') && k'.req == k.req && s'.rows.Keys == s.rows.Keys)
  {
    var st := StatementOf(At(s, w), s.nextTx, act);
    if IsWrite(act) && st.Some? {
      StatementOnOwnRow(At(s, w), s.nextTx, act);
      ExecuteOnRows(s, w, st.value);
      hide Execute, Commits, StatementOf, Move;
    } else {
      hide Move, Execute, StatementOf;
    }
  }

  /** A statement is on its worker's own row; the first one, on a claimable row, puts its worker in flight. */
  lemma StatementOnOwnRow(k: Worker, nextTx: TxId, act: Act)
    requires StatementOf(k, nextTx, act).Some?
    ensures var st := StatementOf(k, nextTx, act).value;
      && !k.Idle? && st.req == k.req
      && (!InFlight(k) ==> Claimable(st.from) && InFlight(st.goesTo) && st.goesTo.req == k.req)
  {
  }

  /** A worker in flight that stops, other than by crashing, leaves its row claimable or terminal. */
  lemma ActEnds(s: State, w: WorkerId, act: Act)
    requires InFlight(At(s, w)) && !act.Crash? && WorkerOk(s, w)
    requires StatementOf(At(s, w), s.nextTx, act).Some? ==> Commits(s, StatementOf(At(s, w), s.nextTx, act).value)
    ensures var s', k, k' := DoAct(s, w, act), At(s, w), At(DoAct(s, w, act), w);
      if InFlight(k') then k'.req == k.req
      else k.req in s'.rows && (Claimable(s'.rows[k.req].status) || Terminal(s'.rows[k.req].status))
  {
    hide Charge, GetMandate, PaidAfter, ReadFrom, Insertable;
  }

  /** Another worker in flight keeps its row and its request to itself. */
  lemma LoneBystander(s: State, s': State, w: WorkerId, v: WorkerId)
    requires WorkersOk(s) && LoneWorkers(s) && v != w && At(s', v) == At(s, v) && InFlight(At(s, v))
    requires At(s, w).Idle? ==> s'.rows == s.rows
    requires !At(s, w).Idle? ==> forall r :: r != At(s, w).req ==> (r in s'.rows <==> r in s.rows) && (r in s.rows ==> s'.rows[r] == s.rows[r])
    requires !At(s, w).Idle? && !InFlight(At(s, w)) && s'.rows != s.rows ==>
      At(s, w).req in s.rows && Claimable(s.rows[At(s, w).req].status)
    requires InFlight(At(s', w)) ==> !At(s, w).Idle? && At(s', w).req == At(s, w).req && At(s, w).req in s.rows
    requires InFlight(At(s', w)) && !InFlight(At(s, w)) ==> Claimable(s.rows[At(s, w).req].status)
    ensures At(s', v).req in s'.rows && s'.rows[At(s', v).req].status == StageOf(At(s', v))
    ensures InFlight(At(s', w)) ==> At(s', w).req != At(s', v).req
  {
    StageNotClaimable(s, v);
    hide WorkersOk, StageOf;
  }

  /** What an act makes of rows and flights, told without the act. */
  ghost predicate ActsAlone(s: State, s': State, w: WorkerId)
  {
    var k, k' := At(s, w), At(s', w);
    && (forall v: WorkerId :: v != w ==> At(s', v) == At(s, v))
    && (k.Idle? ==> s'.rows == s.rows)
    && (!k.Idle? ==> forall r :: r != k.req ==> (r in s'.rows <==> r in s.rows) && (r in s.rows ==> s'.rows[r] == s.rows[r]))
    && (!k.Idle? && !InFlight(k) && s'.rows != s.rows ==> k.req in s.rows && Claimable(s.rows[k.req].status))
    && (InFlight(k') ==> !k.Idle? && k'.req == k.req && k.req in s.rows)
    && (InFlight(k') && !InFlight(k) ==> Claimable(s.rows[k.req].status))
    && (InFlight(k') ==> k'.req in s'.rows && s'.rows[k'.req].status == StageOf(k'))
  }

  lemma LoneFrame(s: State, s': State, w: WorkerId)
    requires WorkersOk(s) && LoneWorkers(s) && ActsAlone(s, s', w)
    ensures LoneWorkers(s')
  {
    hide WorkersOk, StageOf, Claimable;
    forall v: WorkerId | v != w && InFlight(At(s', v))
      ensures At(s', v).req in s'.rows && s'.rows[At(s', v).req].status == StageOf(At(s', v))
      ensures InFlight(At(s', w)) ==> At(s', w).req != At(s', v).req
    {
      assert At(s', v) == At(s, v);
      LoneBystander(s, s', w, v);
    }
  }

  lemma LoneAfterAct(s: State, w: WorkerId, act: Act)
    requires WorkersOk(s) && LoneWorkers(s)
    ensures LoneWorkers(DoAct(s, w, act))
  {
    assert WorkerOk(s, w);
    assert InFlight(At(s, w)) ==> At(s, w).req in s.rows && s.rows[At(s, w).req].status == StageOf(At(s, w));
    hide DoAct, WorkerOk, WorkersOk, AttemptKept, StageOf, Claimable, LoneWorkers;
    ActOnStage(s, w, act);
    ActOnRows(s, w, act);
    ActOnAttempt(s, w, act);
    LoneFrame(s, DoAct(s, w, act), w);
    assert LoneWorkers(DoAct(s, w, act));
  }

  lemma StageNotClaimable(s: State, w: WorkerId)
    requires WorkersOk(s) && InFlight(At(s, w))
    ensures !Claimable(StageOf(At(s, w))) && !Terminal(StageOf(At(s, w)))
  {
    assert WorkerOk(s, w);
  }

  lemma StaffedAfterAct(s: State, w: WorkerId, act: Act)
    requires CoreOk(s) && PaymentsOk(s) && LoneWorkers(s) && Staffed(s) && !act.Crash?
    ensures Staffed(DoAct(s, w, act))
  {
    assert WorkerOk(s, w);
    ActOnRows(s, w, act);
    ActOnAttempt(s, w, act);
    if InFlight(At(s, w)) {
      if StatementOf(At(s, w), s.nextTx, act).Some? { LoneWriteCommits(s, w, act); }
      ActEnds(s, w, act);
    }
    hide DoAct, WorkerOk, CoreOk, PaymentsOk, StatementOf;
    var s' := DoAct(s, w, act);
    forall r | r in s'.rows && !Claimable(s'.rows[r].status) && !Terminal(s'.rows[r].status)
      ensures exists v :: InFlight(At(s', v)) && At(s', v).req == r
    {
      if InFlight(At(s', w)) && At(s', w).req == r {
      } else {
        assert r in s.rows && s'.rows[r] == s.rows[r];
        var v :| InFlight(At(s, v)) && At(s, v).req == r;
        assert v != w;
        assert At(s', v) == At(s, v);
      }
    }
  }

  lemma LoneAfterOther(s: State, step: Step)
    requires !step.By? && !step.Recover? && LoneWorkers(s) && Staffed(s)
    ensures LoneWorkers(Next(s, step)) && Staffed(Next(s, step))
  {
    var s' := Next(s, step);
    forall r: RequestId
      ensures r in s.rows ==> r in s'.rows && s'.rows[r] == s.rows[r]
      ensures r in s'.rows && r !in s.rows ==> s'.rows[r].status == Scheduled
      ensures forall w: WorkerId :: At(s', w) == At(s, w)
    {
      OtherOnJournal(s, step, r);
    }
    OtherOnJournal(s, step, 0);
    hide Next;
    assert forall w: WorkerId :: At(s', w) == At(s, w);
  }

  predicate Uninterrupted(steps: seq<Step>)
  {
    forall i :: 0 <= i < |steps| ==> !steps[i].Recover? && !(steps[i].By? && steps[i].act.Crash?)
  }

  lemma {:induction false} LoneRun(steps: seq<Step>)
    requires Uninterrupted(steps)
    ensures LoneWorkers(Steps(START, steps)) && Staffed(Steps(START, steps))
  {
    if steps != [] {
      var front, last := steps[..|steps| - 1], steps[|steps| - 1];
      LoneRun(front);
      RunSafe(front);
      assert last == steps[|steps| - 1] && !last.Recover?;
      var s := Steps(START, front);
      hide Next, DoAct, CoreOk, SingleSubmitter, PaymentsOk, HooksOk, LoneWorkers, Staffed;
      if last.By? {
        ActIsNext(s, last.w, last.act);
        CoreWorkers(s);
        LoneAfterAct(s, last.w, last.act);
        StaffedAfterAct(s, last.w, last.act);
      } else {
        LoneAfterOther(s, last);
      }
      assert LoneWorkers(Steps(START, steps)) && Staffed(Steps(START, steps));
    }
  }

  lemma CoreWorkers(s: State)
    requires CoreOk(s)
    ensures WorkersOk(s)
  {
    hide WorkersOk;
  }

  /**
   * Without crashes and recoveries no row is stranded: one that is neither
   * claimable nor terminal has exactly one worker, standing at the row's stage,
   * and whatever that worker writes next goes through.
   */
  lemma NoRowStranded(steps: seq<Step>, req: RequestId)
    requires Uninterrupted(steps) && req in Steps(START, steps).rows
    requires !Claimable(Steps(START, steps).rows[req].status) && !Terminal(Steps(START, steps).rows[req].status)
    ensures var s := Steps(START, steps); exists w ::
      && InFlight(At(s, w)) && At(s, w).req == req && StageOf(At(s, w)) == s.rows[req].status
      && (forall v :: InFlight(At(s, v)) && At(s, v).req == req ==> v == w)
      && (forall act :: StatementOf(At(s, w), s.nextTx, act).Some? ==> Commits(s, StatementOf(At(s, w), s.nextTx, act).value))
  {
    var s := Steps(START, steps);
    LoneRun(steps);
    RunSafe(steps);
    hide Steps, CoreOk, SingleSubmitter, PaymentsOk, HooksOk, StatementOf, Commits;
    var w :| InFlight(At(s, w)) && At(s, w).req == req;
    forall act | StatementOf(At(s, w), s.nextTx, act).Some?
      ensures Commits(s, StatementOf(At(s, w), s.nextTx, act).value)
    {
      LoneWriteCommits(s, w, act);
    }
  }
}
