/**
 * The scheduler: it hands every due request to the job queue, after making
 * rows of stopped workers due again. The queue collapses equal job ids.
 */
module Scheduler {
  import opened Wrappers
  import opened ChargeRequests

  predicate Due(row: ChargeRequest, now: int)
  {
    || (row.status == Scheduled && row.scheduledFor <= now)
    || (row.status == RetryableFailed && row.nextAttemptAt.Some? && row.nextAttemptAt.value <= now)
  }

  const MINUTE_MS := 60_000

  /**
   * A request waits for a pass: from its scheduled instant on, from its retry
   * instant on, or once a row claimed or simulated has not been written for ten
   * minutes.
   */
  predicate Awaits(row: ChargeRequest, now: int)
  {
    match row.status
    case Scheduled => row.scheduledFor <= now
    case RetryableFailed => row.nextAttemptAt.Some? && row.nextAttemptAt.value <= now
    case Processing => row.updatedAt + 10 * MINUTE_MS <= now
    case Simulated => row.updatedAt + 10 * MINUTE_MS <= now
    case _ => false
  }

  /** Interrupted before submission, and not written for ten minutes. */
  predicate Interrupted(row: ChargeRequest, now: int)
  {
    Awaits(row, now) && (row.status == Processing || row.status == Simulated)
  }

  lemma AwaitsExactly(row: ChargeRequest, now: int)
    ensures Awaits(row, now) <==> Due(row, now) || Stale(row, now)
    ensures Interrupted(row, now) <==> Stale(row, now)
  {
  }

  /** The wait before a retry: six hours, a day, three days, and no fourth. */
  lemma RetryWaits(attempt: nat, from: int)
    ensures var at := NextRetryAt(attempt, from);
      && (attempt == 1 ==> at == Some(from + 360 * MINUTE_MS))
      && (attempt == 2 ==> at == Some(from + 1440 * MINUTE_MS))
      && (attempt == 3 ==> at == Some(from + 4320 * MINUTE_MS))
      && (at.Some? <==> 1 <= attempt <= 3)
  {
  }

  predicate Distinct(jobs: seq<RequestId>)
  {
    forall i, j :: 0 <= i < j < |jobs| ==> jobs[i] != jobs[j]
  }

  /** A row is due after recovery exactly when it was due or stale before it. */
  lemma RecoveryMakesDue(rows: Rows, now: int, id: RequestId)
    requires id in rows
    ensures Due(RecoverStale(rows, now)[id], now) <==> Awaits(rows[id], now)
  {
  }

  /** What a recovery does to a row: only a stopped pre-submission claim goes back, keeping its attempt count. */
  lemma RecoveryEdges(rows: Rows, now: int, id: RequestId)
    requires id in rows
    ensures var row, row' := rows[id], RecoverStale(rows, now)[id];
      && OrderOf(row') == OrderOf(row) && row'.attemptCount == row.attemptCount
      && (row' != row ==> (row.status == Processing || row.status == Simulated) && row'.status == RetryableFailed)
      && (row.status == Submitted || Terminal(row.status) || Claimable(row.status) ==> row' == row)
    ensures RecoverStale(RecoverStale(rows, now), now) == RecoverStale(rows, now)
  {
  }

  /** What one recovery changes: exactly the interrupted rows, each made due at once, and none is left. */
  lemma RecoveryExactly(rows: Rows, rows': Rows, now: int)
    ensures rows' == RecoverStale(rows, now) <==>
      && rows'.Keys == rows.Keys
      && (forall id :: id in rows && !Interrupted(rows[id], now) ==> rows'[id] == rows[id])
      && (forall id :: id in rows && Interrupted(rows[id], now) ==> MadeDue(rows[id], rows'[id], now))
    ensures forall id :: id in rows ==> (RecoverStale(rows, now)[id] != rows[id] <==> Interrupted(rows[id], now))
    ensures forall id :: id in rows ==> !Interrupted(RecoverStale(rows, now)[id], now)
  {
    var recovered := RecoverStale(rows, now);
    if rows'.Keys == rows.Keys
      && (forall id :: id in rows && !Interrupted(rows[id], now) ==> rows'[id] == rows[id])
      && (forall id :: id in rows && Interrupted(rows[id], now) ==> MadeDue(rows[id], rows'[id], now))
    {
      forall id | id in rows ensures rows'[id] == recovered[id] { }
      assert rows' == recovered;
    }
  }

  /** The same request and attempt, due now. */
  predicate MadeDue(row: ChargeRequest, row': ChargeRequest, now: int)
  {
    && OrderOf(row') == OrderOf(row) && row'.attemptCount == row.attemptCount
    && row'.status == RetryableFailed && row'.nextAttemptAt == Some(now) && row'.updatedAt == now
  }

  /**
   * The edges of a row's life: those of the table, and the two a recovery adds,
   * of which simulated to retryable_failed is not in the table.
   */
  lemma RecoveryLeavesTheTable(rows: Rows, now: int, id: RequestId)
    requires id in rows && Stale(rows[id], now)
    ensures RetryableFailed in LegalTransitions(rows[id].status) <==> rows[id].status == Processing
    ensures RecoverStale(rows, now)[id].status == RetryableFailed
  {
  }

  class JobQueue {
    var jobs: seq<RequestId>

    constructor ()
      ensures jobs == []
    {
      jobs := [];
    }

    /** Queues a request unless its job id is already there. */
    method Add(id: RequestId)
      requires Distinct(jobs)
      modifies this
      ensures Distinct(jobs)
      ensures jobs == if id in old(jobs) then old(jobs) else old(jobs) + [id]
    {
      if id !in jobs { jobs := jobs + [id]; }
    }
  }

  class ChargeTable {
    var rows: Rows

    constructor (rows: Rows)
      ensures this.rows == rows
    {
      this.rows := rows;
    }

    /** One bulk update; the count is the number of rows it changed. */
    method RecoverStalePreSubmissionCharges(now: int) returns (count: nat)
      modifies this
      ensures rows == RecoverStale(old(rows), now)
      ensures rows.Keys == old(rows).Keys
      ensures forall id :: id in rows ==>
        if Interrupted(old(rows)[id], now) then MadeDue(old(rows)[id], rows[id], now) else rows[id] == old(rows)[id]
      ensures count == |set id | id in old(rows) && rows[id] != old(rows)[id]|
    {
      var stale := set id | id in rows && Stale(rows[id], now);
      rows := RecoverStale(rows, now);
      count := |stale|;
      assert stale == set id | id in old(rows) && rows[id] != old(rows)[id];
    }

    /** One pass: afterwards every request that awaited one is queued, once, and nothing else was added. */
    method ScheduleDueChargeRequests(queue: JobQueue, now: int) returns (count: nat)
      requires Distinct(queue.jobs)
      modifies this, queue
      ensures rows == RecoverStale(old(rows), now)
      ensures Distinct(queue.jobs) && old(queue.jobs) <= queue.jobs
      ensures forall id :: id in queue.jobs <==> id in old(queue.jobs) || (id in old(rows) && Awaits(old(rows)[id], now))
      ensures count == |set id | id in old(rows) && Awaits(old(rows)[id], now)|
    {
      ghost var before := rows;
      var _ := RecoverStalePreSubmissionCharges(now);
      var found := set id | id in rows && Due(rows[id], now);
      forall id | id in before ensures Due(rows[id], now) <==> Awaits(before[id], now) {
        RecoveryMakesDue(before, now, id);
      }
      assert found == set id | id in before && Awaits(before[id], now);
      var due := found;
      while due != {}
        invariant due <= found && rows == RecoverStale(before, now)
        invariant Distinct(queue.jobs) && old(queue.jobs) <= queue.jobs
        invariant forall id :: id in queue.jobs <==> id in old(queue.jobs) || (id in found && id !in due)
        decreases due
      {
        var id :| id in due;
        queue.Add(id);
        due := due - {id};
      }
      count := |found|;
      assert found == set id | id in old(rows) && Awaits(old(rows)[id], now);
    }
  }
}
