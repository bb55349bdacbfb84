/** Rows of the transactional outbox and the rules every writer applies to them. */
module OutboxRows {

  datatype EventStatus = PENDING | PROCESSING | PUBLISHED | FAILED | DEAD_LETTER

  datatype Row = Row(status: EventStatus, retryCount: int, maxRetries: int, updatedAt: int)

  const STALE_TIMEOUT_MS := 300000
  const RETRY_ALLOWANCE := 5
  const MAX_BACKOFF_MS := 60000

  function Pow2(n: nat): nat {
    if n == 0 then 1 else 2 * Pow2(n - 1)
  }

  function BackoffMs(retryCount: nat): int {
    if 1000 * Pow2(retryCount) < MAX_BACKOFF_MS then 1000 * Pow2(retryCount) else MAX_BACKOFF_MS
  }

  /** The candidate query. */
  predicate Candidate(r: Row) {
    r.status == PENDING || (r.status == FAILED && r.retryCount < RETRY_ALLOWANCE)
  }

  /** Candidate query and backoff check together. */
  predicate Eligible(r: Row, now: int) {
    Candidate(r) && !InBackoff(r, now)
  }

  /** The backoff check: a failed event waits twice as long after every retry, up to a minute. */
  predicate InBackoff(r: Row, now: int) {
    r.status == FAILED && 0 <= r.retryCount && now - r.updatedAt < BackoffMs(r.retryCount)
  }

  predicate Claimable(r: Row) {
    r.status == PENDING || r.status == FAILED
  }

  predicate Stale(r: Row, now: int) {
    r.status == PROCESSING && r.updatedAt < now - STALE_TIMEOUT_MS
  }

  function Claim(r: Row, now: int): Row {
    r.(status := PROCESSING, updatedAt := now)
  }

  function Publish(r: Row, now: int): Row {
    r.(status := PUBLISHED, updatedAt := now)
  }

  /** A failed attempt or a stale recovery, counted from the row as the writer read it. */
  function CountFailure(r: Row, seen: int, now: int): Row {
    r.(status := if seen + 1 >= r.maxRetries then DEAD_LETTER else FAILED, retryCount := seen + 1, updatedAt := now)
  }

  /** Retry counts tell how far an event is from the dead letters. */
  ghost predicate Consistent(r: Row) {
    && 1 <= r.maxRetries && 0 <= r.retryCount
    && (r.status == PENDING ==> r.retryCount == 0)
    && (r.status == FAILED || r.status == PROCESSING ==> r.retryCount < r.maxRetries)
    && (r.status == DEAD_LETTER ==> r.retryCount >= r.maxRetries)
  }

  function NewEvent(maxRetries: int, now: int): Row {
    Row(PENDING, 0, maxRetries, now)
  }

  lemma WritersKeepConsistent(r: Row, seen: int, now: int)
    requires Consistent(r) && 0 <= seen
    ensures Claimable(r) ==> Consistent(Claim(r, now))
    ensures Consistent(Publish(r, now)) && Consistent(CountFailure(r, seen, now))
  {}

  /** A failed event with at most five retries is taken up again after a minute at the latest. */
  lemma FailedComesBack(r: Row, now: int)
    requires Consistent(r) && r.maxRetries <= RETRY_ALLOWANCE
    requires r.status == FAILED && now >= r.updatedAt + MAX_BACKOFF_MS
    ensures Eligible(r, now)
  {}

  /** The wait after a failure: one second at first, doubled by every further retry, up to a minute. */
  lemma BackoffDoubles(retryCount: nat)
    ensures BackoffMs(0) == 1000
    ensures BackoffMs(retryCount + 1) == if 2 * BackoffMs(retryCount) < 60000 then 2 * BackoffMs(retryCount) else 60000
  {
    assert Pow2(retryCount) >= 1 by { Pow2Positive(retryCount); }
  }

  lemma {:induction false} Pow2Positive(n: nat)
    ensures Pow2(n) >= 1
  {
    if n > 0 {
      Pow2Positive(n - 1);
    }
  }

  /** A row whose turn has come: new, or failed less than five times and 1, 2, 4, 8 or 16 seconds ago. */
  predicate Due(r: Row, now: int) {
    || r.status == PENDING
    || (r.status == FAILED
        && match r.retryCount
           case 0 => now >= r.updatedAt + 1000
           case 1 => now >= r.updatedAt + 2000
           case 2 => now >= r.updatedAt + 4000
           case 3 => now >= r.updatedAt + 8000
           case 4 => now >= r.updatedAt + 16000
           case _ => false)
  }

  lemma EligibleIsDue(r: Row, now: int)
    requires r.retryCount >= 0
    ensures Eligible(r, now) <==> Due(r, now)
  {
    BackoffDoubles(0);
    BackoffDoubles(1);
    BackoffDoubles(2);
    BackoffDoubles(3);
  }

  /** The row after `n` failed attempts in a row, `gap` milliseconds apart. */
  function FailedTimes(r: Row, n: nat, gap: nat): Row {
    if n == 0 then r
    else var f := FailedTimes(r, n - 1, gap); CountFailure(f, f.retryCount, f.updatedAt + gap)
  }

  /** An event becomes a dead letter with its `maxRetries`-th failure and not before. */
  lemma {:induction false} DeadAfterMaxRetries(maxRetries: int, now: int, n: nat, gap: nat)
    requires maxRetries >= 1
    ensures var r := FailedTimes(NewEvent(maxRetries, now), n, gap);
            && r.retryCount == n && r.maxRetries == maxRetries && r.updatedAt == now + n * gap
            && r.status == if n == 0 then PENDING else if n < maxRetries then FAILED else DEAD_LETTER
  {
    if n > 0 {
      DeadAfterMaxRetries(maxRetries, now, n - 1, gap);
    }
  }
}
