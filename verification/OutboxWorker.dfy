/** One worker's batch, statement by statement, on a table nobody else writes meanwhile: what it
    picks, what each picked event becomes, and that the result counters add up. */
module OutboxWorker {
  import opened OutboxRows

  /** What happens to a dispatch: the publish completes; it throws inside dispatchEvent, which records
      the failure; the same, and reading the status afterwards throws too; or dispatchEvent itself
      throws before it records anything. */
  datatype Outcome = Publishes | Refuses | RefusesThenThrows | Throws

  datatype Dispatched = Delivered | Recorded | Thrown

  datatype BatchResult = BatchResult(processed: nat, success: nat, failed: nat, dead: nat, recovered: nat)

  const RECOVERY_BATCH := 50

  // ---------------------------------------------- what the queries return

  /** The first `limit` rows from row `from` on, oldest first, that the candidate query accepts. */
  function CandidateIds(rows: seq<Row>, from: nat, limit: nat): (ids: seq<nat>)
    requires from <= |rows|
    ensures |ids| <= limit
    ensures forall k :: 0 <= k < |ids| ==> from <= ids[k] < |rows| && Candidate(rows[ids[k]])
    ensures forall j, k :: 0 <= j < k < |ids| ==> ids[j] < ids[k]
    ensures forall i :: from <= i < |rows| && Candidate(rows[i]) && i !in ids ==> |ids| == limit
    decreases |rows| - from
  {
    if from == |rows| || limit == 0 then []
    else if Candidate(rows[from]) then [from] + CandidateIds(rows, from + 1, limit - 1)
    else CandidateIds(rows, from + 1, limit)
  }

  function StaleIds(rows: seq<Row>, from: nat, limit: nat, now: int): (ids: seq<nat>)
    requires from <= |rows|
    ensures |ids| <= limit
    ensures forall k :: 0 <= k < |ids| ==> from <= ids[k] < |rows| && Stale(rows[ids[k]], now)
    ensures forall j, k :: 0 <= j < k < |ids| ==> ids[j] < ids[k]
    ensures forall i :: from <= i < |rows| && Stale(rows[i], now) && i !in ids ==> |ids| == limit
    decreases |rows| - from
  {
    if from == |rows| || limit == 0 then []
    else if Stale(rows[from], now) then [from] + StaleIds(rows, from + 1, limit - 1, now)
    else StaleIds(rows, from + 1, limit, now)
  }

  ghost predicate Indices(ids: seq<nat>, rows: seq<Row>) {
    forall k :: 0 <= k < |ids| ==> ids[k] < |rows|
  }

  ghost predicate Increasing(ids: seq<nat>) {
    forall j, k :: 0 <= j < k < |ids| ==> ids[j] < ids[k]
  }

  /** The candidates that a batch with room for `room` events works on. */
  function Picks(rows: seq<Row>, ids: seq<nat>, room: nat, now: int): (picks: seq<nat>)
    requires forall k :: 0 <= k < |ids| ==> ids[k] < |rows|
    ensures |picks| <= room && |picks| <= |ids|
    ensures forall i :: i in picks ==> i in ids && Eligible(rows[i], now)
  {
    if ids == [] || room == 0 then []
    else if Eligible(rows[ids[0]], now) then [ids[0]] + Picks(rows, ids[1..], room - 1, now)
    else Picks(rows, ids[1..], room, now)
  }

  /** Nothing in backoff or beyond the batch size delays an eligible event that is among the first
      `room` candidates. */
  lemma {:induction false} OldestArePicked(rows: seq<Row>, ids: seq<nat>, room: nat, now: int, k: nat)
    requires Indices(ids, rows) && k < |ids| && k < room && Eligible(rows[ids[k]], now)
    ensures ids[k] in Picks(rows, ids, room, now)
  {
    if k > 0 {
      assert ids[1..][k - 1] == ids[k];
      OldestArePicked(rows, ids[1..], if Eligible(rows[ids[0]], now) then room - 1 else room, now, k - 1);
    }
  }

  lemma PicksStep(rows: seq<Row>, ids: seq<nat>, k: nat, room: nat, now: int)
    requires Indices(ids, rows) && k < |ids| && room > 0
    ensures Picks(rows, ids[k..], room, now)
            == if Eligible(rows[ids[k]], now) then [ids[k]] + Picks(rows, ids[k + 1..], room - 1, now)
               else Picks(rows, ids[k + 1..], room, now)
  {
    assert ids[k..][0] == ids[k] && ids[k..][1..] == ids[k + 1..];
  }

  // ---------------------------------------------- what happens to them

  /** A picked event after the batch. */
  function Handled(r: Row, o: Outcome, now: int): Row {
    if o == Publishes then Publish(r, now) else CountFailure(r, r.retryCount, now)
  }

  /** One attempt, field by field. */
  lemma HandledMeans(r: Row, o: Outcome, now: int)
    ensures var h := Handled(r, o, now);
            && h.updatedAt == now && h.maxRetries == r.maxRetries
            && (o == Publishes ==> h.status == PUBLISHED && h.retryCount == r.retryCount)
            && (o != Publishes ==> h.retryCount == r.retryCount + 1
                                   && h.status == if r.retryCount + 1 < r.maxRetries then FAILED else DEAD_LETTER)
  {}

  predicate Dies(r: Row) {
    r.retryCount + 1 >= r.maxRetries
  }

  function Tally(b: BatchResult, r: Row, o: Outcome): BatchResult {
    if o == Publishes then b.(processed := b.processed + 1, success := b.success + 1)
    else if Dies(r) then b.(processed := b.processed + 1, dead := b.dead + 1)
    else b.(processed := b.processed + 1, failed := b.failed + 1)
  }

  function Occurs(r: Row, s: EventStatus): nat {
    if r.status == s then 1 else 0
  }

  function Count(rows: seq<Row>, s: EventStatus): nat {
    if rows == [] then 0 else Occurs(rows[0], s) + Count(rows[1..], s)
  }

  lemma {:induction false} CountUpdate(rows: seq<Row>, i: nat, r: Row, s: EventStatus)
    requires i < |rows|
    ensures Count(rows[i := r], s) + Occurs(rows[i], s) == Count(rows, s) + Occurs(r, s)
  {
    if i == 0 {
      assert rows[i := r][1..] == rows[1..];
    } else {
      assert rows[i := r][1..] == rows[1..][i - 1 := r];
      CountUpdate(rows[1..], i - 1, r, s);
    }
  }

  ghost predicate AllConsistent(rows: seq<Row>) {
    forall i :: 0 <= i < |rows| ==> Consistent(rows[i])
  }

  /** The rows after each of `ids` has become what `Handled` says, the rest untouched. */
  ghost predicate HandledRows(before: seq<Row>, rows: seq<Row>, ids: seq<nat>, outcomes: nat -> Outcome, now: int) {
    && |rows| == |before|
    && forall i :: 0 <= i < |rows| ==> rows[i] == if i in ids then Handled(before[i], outcomes(i), now) else before[i]
  }

  ghost predicate RecoveredRows(before: seq<Row>, rows: seq<Row>, ids: seq<nat>, now: int) {
    && |rows| == |before|
    && forall i :: 0 <= i < |rows| ==>
         rows[i] == if i in ids then CountFailure(before[i], before[i].retryCount, now) else before[i]
  }

  /** The events one batch works on. */
  function BatchPicks(rows: seq<Row>, batchSize: nat, now: int): (picks: seq<nat>)
    ensures |picks| <= batchSize
    ensures forall i :: i in picks ==> i < |rows| && Eligible(rows[i], now)
  {
    Picks(rows, CandidateIds(rows, 0, 2 * batchSize), batchSize, now)
  }

  /** The rows that are not due are as they were. */
  ghost predicate WaitingKept(before: seq<Row>, rows: seq<Row>, now: int) {
    |rows| == |before| && forall i :: 0 <= i < |rows| && !Due(before[i], now) ==> rows[i] == before[i]
  }

  lemma OnlyDueAreHandled(before: seq<Row>, rows: seq<Row>, batchSize: nat, outcomes: nat -> Outcome, now: int)
    requires AllConsistent(before) && HandledRows(before, rows, BatchPicks(before, batchSize, now), outcomes, now)
    ensures WaitingKept(before, rows, now)
  {
    forall i | 0 <= i < |rows| && !Due(before[i], now) ensures rows[i] == before[i] {
      EligibleIsDue(before[i], now);
    }
  }

  ghost predicate Behind(done: seq<nat>, ids: seq<nat>, k: nat) {
    k < |ids| ==> forall i :: i in done ==> i < ids[k]
  }

  /** After `k` candidates, `done` and what the rest will add are the picks of the batch. */
  ghost predicate Planned(found: seq<Row>, ids: seq<nat>, k: nat, done: seq<nat>, batchSize: nat, now: int) {
    && k <= |ids| && |done| <= batchSize && Increasing(ids)
    && (forall j :: 0 <= j < |ids| ==> ids[j] < |found| && Candidate(found[ids[j]]))
    && BatchPicks(found, batchSize, now) == done + Picks(found, ids[k..], batchSize - |done|, now)
    && Behind(done, ids, k)
  }

  lemma PlannedStep(found: seq<Row>, ids: seq<nat>, k: nat, done: seq<nat>, batchSize: nat, now: int)
    requires Planned(found, ids, k, done, batchSize, now) && k < |ids| && |done| < batchSize
    ensures ids[k] !in done && Claimable(found[ids[k]])
    ensures if InBackoff(found[ids[k]], now) then Planned(found, ids, k + 1, done, batchSize, now)
            else Planned(found, ids, k + 1, done + [ids[k]], batchSize, now)
  {
    PicksStep(found, ids, k, batchSize - |done|, now);
    BehindStep(done, ids, k);
    if InBackoff(found[ids[k]], now) {
      assert Planned(found, ids, k + 1, done, batchSize, now);
    } else {
      AppendOne(done, ids[k], Picks(found, ids[k + 1..], batchSize - |done| - 1, now));
    }
  }

  lemma BehindStep(done: seq<nat>, ids: seq<nat>, k: nat)
    requires k < |ids| && Increasing(ids) && Behind(done, ids, k)
    ensures ids[k] !in done && Behind(done, ids, k + 1) && Behind(done + [ids[k]], ids, k + 1)
  {}

  lemma BatchStart(found: seq<Row>, ids: seq<nat>, batchSize: nat, outcomes: nat -> Outcome, now: int, result: BatchResult)
    requires ids == CandidateIds(found, 0, 2 * batchSize) && AllConsistent(found)
    requires result == BatchResult(0, 0, 0, 0, result.recovered)
    ensures Planned(found, ids, 0, [], batchSize, now) && InBatch(found, found, [], outcomes, now, result)
  {
    assert ids[0..] == ids;
  }

  lemma BatchEnd(found: seq<Row>, rows: seq<Row>, ids: seq<nat>, k: nat, done: seq<nat>, batchSize: nat,
                 outcomes: nat -> Outcome, now: int, result: BatchResult)
    requires Planned(found, ids, k, done, batchSize, now) && (k == |ids| || |done| == batchSize)
    requires InBatch(found, rows, done, outcomes, now, result) && AllConsistent(found)
    ensures done == BatchPicks(found, batchSize, now)
    ensures WaitingKept(found, rows, now)
  {
    assert done == BatchPicks(found, batchSize, now);
    OnlyDueAreHandled(found, rows, batchSize, outcomes, now);
  }

  lemma AppendOne(done: seq<nat>, id: nat, rest: seq<nat>)
    ensures done + ([id] + rest) == (done + [id]) + rest
  {}

  /** What no run of the worker touches: an event that is not due, and a claim not older than five
      minutes. */
  predicate LeftAlone(r: Row, now: int) {
    !Due(r, now) && !(r.status == PROCESSING && now > r.updatedAt + 300000)
  }

  /** Recovery first, then the batch on what recovery left. */
  ghost predicate BatchDone(before: seq<Row>, after: seq<Row>, batchSize: nat, outcomes: nat -> Outcome, now: int) {
    exists found :: RecoveredRows(before, found, StaleIds(before, 0, RECOVERY_BATCH, now), now)
                    && HandledRows(found, after, BatchPicks(found, batchSize, now), outcomes, now)
  }

  /** The counters account for every event worked on, and for every row that changed status. */
  ghost predicate Balanced(found: seq<Row>, rows: seq<Row>, result: BatchResult) {
    && result.processed == result.success + result.failed + result.dead
    && Count(rows, PUBLISHED) == Count(found, PUBLISHED) + result.success
    && Count(rows, DEAD_LETTER) == Count(found, DEAD_LETTER) + result.dead
    && Count(rows, PROCESSING) == Count(found, PROCESSING)
  }

  lemma BalancedStep(found: seq<Row>, rows: seq<Row>, result: BatchResult, id: nat, o: Outcome, now: int)
    requires Balanced(found, rows, result) && id < |rows| && Claimable(rows[id]) && Consistent(rows[id])
    ensures Balanced(found, rows[id := Handled(rows[id], o, now)], Tally(result, rows[id], o))
    ensures Consistent(Handled(rows[id], o, now))
  {
    var r := Handled(rows[id], o, now);
    CountUpdate(rows, id, r, PUBLISHED);
    CountUpdate(rows, id, r, DEAD_LETTER);
    CountUpdate(rows, id, r, PROCESSING);
  }

  ghost predicate InBatch(found: seq<Row>, rows: seq<Row>, done: seq<nat>, outcomes: nat -> Outcome, now: int, result: BatchResult) {
    HandledRows(found, rows, done, outcomes, now) && AllConsistent(rows) && Balanced(found, rows, result)
  }

  lemma InBatchStep(found: seq<Row>, rows: seq<Row>, done: seq<nat>, id: nat, outcomes: nat -> Outcome, now: int, result: BatchResult)
    requires InBatch(found, rows, done, outcomes, now, result)
    requires id < |rows| && id !in done && Claimable(found[id])
    ensures rows[id] == found[id] && Consistent(found[id])
    ensures InBatch(found, rows[id := Handled(found[id], outcomes(id), now)], done + [id], outcomes, now,
                    Tally(result, found[id], outcomes(id)))
  {
    BalancedStep(found, rows, result, id, outcomes(id), now);
  }

  ghost predicate InRecovery(found: seq<Row>, rows: seq<Row>, done: seq<nat>, now: int) {
    && RecoveredRows(found, rows, done, now) && AllConsistent(rows)
    && Count(rows, PROCESSING) == Count(found, PROCESSING) - |done|
    && Count(rows, PUBLISHED) == Count(found, PUBLISHED)
  }

  lemma InRecoveryStep(found: seq<Row>, rows: seq<Row>, ids: seq<nat>, k: nat, now: int)
    requires k < |ids| && InRecovery(found, rows, ids[..k], now) && Increasing(ids)
    requires ids[k] < |rows| && Stale(found[ids[k]], now)
    ensures rows[ids[k]] == found[ids[k]]
    ensures InRecovery(found, rows[ids[k] := CountFailure(found[ids[k]], found[ids[k]].retryCount, now)], ids[..k + 1], now)
  {
    var id := ids[k];
    var row := CountFailure(found[id], found[id].retryCount, now);
    assert ids[..k + 1] == ids[..k] + [id];
    assert id !in ids[..k];
    assert Consistent(rows[id]);
    CountUpdate(rows, id, row, PROCESSING);
    CountUpdate(rows, id, row, PUBLISHED);
  }

  class Worker {
    var rows: seq<Row>
    var now: int
    var isProcessing: bool

    constructor (rows: seq<Row>, now: int)
      ensures this.rows == rows && this.now == now && !isProcessing
    {
      this.rows := rows;
      this.now := now;
      isProcessing := false;
    }

    method DispatchEvent(id: nat, outcome: Outcome) returns (d: Dispatched)
      modifies `rows
      ensures |rows| == old(|rows|)
      ensures d == if id >= |rows| then (if outcome == Throws then Thrown else Recorded)
                   else if outcome == Throws then Thrown
                   else if old(rows)[id].status == PUBLISHED || outcome == Publishes then Delivered
                   else Recorded
      ensures id >= |rows| || outcome == Throws || old(rows)[id].status == PUBLISHED ==> rows == old(rows)
      ensures id < |rows| && outcome != Throws && old(rows)[id].status != PUBLISHED
              ==> rows == old(rows)[id := Handled(old(rows)[id], outcome, now)]
    {
      if outcome == Throws {
        return Thrown;
      }
      if id >= |rows| {
        return Recorded;
      }
      var event := rows[id];
      if event.status == PUBLISHED {
        return Delivered;
      }
      if outcome == Publishes {
        rows := rows[id := Publish(rows[id], now)];
        return Delivered;
      }
      var nextRetry := event.retryCount + 1;
      var status := if nextRetry >= event.maxRetries then DEAD_LETTER else FAILED;
      rows := rows[id := rows[id].(status := status, retryCount := nextRetry, updatedAt := now)];
      return Recorded;
    }

    method RecoverStaleProcessingEvents() returns (recovered: nat)
      requires AllConsistent(rows)
      modifies `rows
      ensures recovered == |StaleIds(old(rows), 0, RECOVERY_BATCH, now)|
      ensures RecoveredRows(old(rows), rows, StaleIds(old(rows), 0, RECOVERY_BATCH, now), now)
      ensures AllConsistent(rows)
      ensures Count(rows, PROCESSING) == Count(old(rows), PROCESSING) - recovered
      ensures Count(rows, PUBLISHED) == Count(old(rows), PUBLISHED)
    {
      var ids := StaleIds(rows, 0, RECOVERY_BATCH, now);
      var found := rows;
      recovered := 0;
      assert ids[..0] == [];
      while recovered < |ids|
        invariant recovered <= |ids| && InRecovery(found, rows, ids[..recovered], now)
      {
        var id, ev := ids[recovered], found[ids[recovered]];
        var nextRetry := ev.retryCount + 1;
        var status := if nextRetry >= ev.maxRetries then DEAD_LETTER else FAILED;
        InRecoveryStep(found, rows, ids, recovered, now);
        rows := rows[id := rows[id].(status := status, retryCount := nextRetry, updatedAt := now)];
        recovered := recovered + 1;
      }
      assert ids[..recovered] == ids;
    }

    /** Claim, dispatch and count one candidate. */
    method HandleCandidate(id: nat, event: Row, outcome: Outcome, result: BatchResult) returns (next: BatchResult)
      requires id < |rows| && rows[id] == event && Claimable(event) && Consistent(event)
      modifies `rows
      ensures rows == old(rows)[id := Handled(event, outcome, now)]
      ensures next == Tally(result, event, outcome)
    {
      rows := rows[id := Claim(rows[id], now)];
      next := result.(processed := result.processed + 1);
      var dispatched := DispatchEvent(id, outcome);
      if dispatched == Delivered {
        next := next.(success := next.success + 1);
      } else if dispatched == Recorded && outcome != RefusesThenThrows {
        if rows[id].status == DEAD_LETTER {
          next := next.(dead := next.dead + 1);
        } else {
          next := next.(failed := next.failed + 1);
        }
      } else {
        var nextRetry := event.retryCount + 1;
        var isDeadLetter := nextRetry >= event.maxRetries;
        var status := if isDeadLetter then DEAD_LETTER else FAILED;
        rows := rows[id := rows[id].(status := status, retryCount := nextRetry, updatedAt := now)];
        if isDeadLetter {
          next := next.(dead := next.dead + 1);
        } else {
          next := next.(failed := next.failed + 1);
        }
      }
    }

    /** One turn of the batch loop: candidate `k` is still waiting, or it is handled. */
    method Visit(found: seq<Row>, ids: seq<nat>, k: nat, ghost done: seq<nat>, batchSize: nat,
                 outcomes: nat -> Outcome, result: BatchResult)
      returns (next: BatchResult, ghost after: seq<nat>)
      requires Planned(found, ids, k, done, batchSize, now) && InBatch(found, rows, done, outcomes, now, result)
      requires k < |ids| && |done| == result.processed < batchSize
      modifies `rows
      ensures Planned(found, ids, k + 1, after, batchSize, now) && InBatch(found, rows, after, outcomes, now, next)
      ensures |after| == next.processed <= batchSize && next.recovered == result.recovered
    {
      next, after := result, done;
      var id, event := ids[k], found[ids[k]];
      PlannedStep(found, ids, k, done, batchSize, now);
      if !InBackoff(event, now) {
        InBatchStep(found, rows, done, id, outcomes, now, result);
        next := HandleCandidate(id, event, outcomes(id), result);
        after := done + [id];
      }
    }

    /** The batch proper: the oldest candidates, at most `batchSize` of them, each handled once. */
    method RunBatch(batchSize: nat, outcomes: nat -> Outcome, recovered: nat) returns (result: BatchResult)
      requires AllConsistent(rows)
      modifies `rows
      ensures HandledRows(old(rows), rows, BatchPicks(old(rows), batchSize, now), outcomes, now)
      ensures AllConsistent(rows) && result.recovered == recovered
      ensures result.processed == |BatchPicks(old(rows), batchSize, now)|
      ensures Balanced(old(rows), rows, result)
      ensures WaitingKept(old(rows), rows, now)
    {
      result := BatchResult(0, 0, 0, 0, recovered);
      var ids := CandidateIds(rows, 0, 2 * batchSize);
      var found := rows;
      ghost var done: seq<nat> := [];
      var k := 0;
      BatchStart(found, ids, batchSize, outcomes, now, result);
      while k < |ids| && result.processed < batchSize
        invariant k <= |ids| && |done| == result.processed <= batchSize
        invariant Planned(found, ids, k, done, batchSize, now)
        invariant result.recovered == recovered && InBatch(found, rows, done, outcomes, now, result)
      {
        result, done := Visit(found, ids, k, done, batchSize, outcomes, result);
        k := k + 1;
      }
      BatchEnd(found, rows, ids, k, done, batchSize, outcomes, now, result);
    }

    method ProcessPendingEvents(batchSize: nat, outcomes: nat -> Outcome) returns (result: BatchResult)
      requires AllConsistent(rows)
      modifies `rows
      ensures BatchDone(old(rows), rows, batchSize, outcomes, now) && AllConsistent(rows)
      ensures result.processed == result.success + result.failed + result.dead <= batchSize
      ensures result.recovered == |StaleIds(old(rows), 0, RECOVERY_BATCH, now)|
      ensures Count(rows, PUBLISHED) == Count(old(rows), PUBLISHED) + result.success
      ensures Count(rows, PROCESSING) == Count(old(rows), PROCESSING) - result.recovered
      ensures forall i :: 0 <= i < |rows| && LeftAlone(old(rows)[i], now) ==> rows[i] == old(rows)[i]
    {
      var recovered := RecoverStaleProcessingEvents();
      ghost var found := rows;
      result := RunBatch(batchSize, outcomes, recovered);
      assert RecoveredRows(old(rows), found, StaleIds(old(rows), 0, RECOVERY_BATCH, now), now);
    }

    /** The timer: a run that is still in progress makes this one a no-op. */
    method HandleCron(batchSize: nat, outcomes: nat -> Outcome)
      requires AllConsistent(rows)
      modifies `rows, `isProcessing
      ensures isProcessing == old(isProcessing) && AllConsistent(rows)
      ensures if old(isProcessing) then rows == old(rows) else BatchDone(old(rows), rows, batchSize, outcomes, now)
    {
      if isProcessing {
        return;
      }
      isProcessing := true;
      var result := ProcessPendingEvents(batchSize, outcomes);
      isProcessing := false;
    }
  }
}
