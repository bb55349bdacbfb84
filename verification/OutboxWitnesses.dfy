/** Runs that show which conditions of the outbox results are needed, and exactly when a failed
    event is never taken up again. */
module OutboxWitnesses {
  import opened OutboxRows
  import opened OutboxProtocol

  /** Some run under the rule leads from `w` to `v`. */
  ghost predicate Reaches(rule: Rule, w: World, v: World) {
    exists ops :: Disciplined(rule, w, ops) && Run(w, ops) == v
  }

  lemma ReachesSelf(rule: Rule, w: World)
    ensures Reaches(rule, w, w)
  {
    assert Disciplined(rule, w, []) && Run(w, []) == w;
  }

  lemma {:induction false} OneMore(rule: Rule, w: World, ops: seq<Op>, op: Op)
    requires Disciplined(rule, w, ops) && Obeys(rule, Run(w, ops), op)
    ensures Disciplined(rule, w, ops + [op]) && Run(w, ops + [op]) == Step(Run(w, ops), op)
    decreases |ops|
  {
    if ops == [] {
      assert ops + [op] == [op] && [op][1..] == [];
      assert Disciplined(rule, Step(w, op), []) && Run(Step(w, op), []) == Step(w, op);
    } else {
      assert (ops + [op])[1..] == ops[1..] + [op];
      OneMore(rule, Step(w, ops[0]), ops[1..], op);
    }
  }

  lemma ReachesStep(rule: Rule, w: World, v: World, op: Op)
    requires Reaches(rule, w, v) && Obeys(rule, v, op)
    ensures Reaches(rule, w, Step(v, op))
  {
    var ops :| Disciplined(rule, w, ops) && Run(w, ops) == v;
    OneMore(rule, w, ops, op);
  }

  ghost predicate NoClaims(w: World) {
    forall a :: a in w.agents ==> w.agents[a].Fetched?
  }

  function Wait(r: Row, now: int): nat {
    if r.updatedAt + MAX_BACKOFF_MS > now then r.updatedAt + MAX_BACKOFF_MS - now else 0
  }

  /** Agent `b` has just claimed event `e`, once its backoff was over. */
  function Claimed(w: World, b: AgentId, e: EventId): World
    requires e in w.rows
  {
    var now := w.now + Wait(w.rows[e], w.now);
    w.(now := now, rows := w.rows[e := Claim(w.rows[e], now)],
       agents := w.agents[b := Starting(e, true, w.rows[e].retryCount, now)])
  }

  lemma ClaimSucceeds(s: World, w: World, b: AgentId, e: EventId)
    requires Reaches(CurrentWorkers, s, w)
    requires NoClaims(w) && b !in w.agents && e in w.rows && Claimable(w.rows[e])
    requires 0 <= w.rows[e].retryCount < RETRY_ALLOWANCE
    ensures Reaches(CurrentWorkers, s, Claimed(w, b, e))
  {
    var r := w.rows[e];
    var w1 := Step(w, Tick(Wait(r, w.now)));
    ReachesStep(CurrentWorkers, s, w, Tick(Wait(r, w.now)));
    var w2 := Step(w1, Fetch(b, e));
    ReachesStep(CurrentWorkers, s, w1, Fetch(b, e));
    assert w2 == Go(w1, b, Fetched(e, r.retryCount));
    ReachesStep(CurrentWorkers, s, w2, TryClaim(b));
    assert Step(w2, TryClaim(b)).agents == Claimed(w, b, e).agents;
  }

  lemma DispatchFails(s: World, w: World, b: AgentId, e: EventId)
    requires Reaches(CurrentWorkers, s, w)
    requires b in w.agents && w.agents[b].Starting? && w.agents[b].owner && w.agents[b].event == e
    requires e in w.rows && w.rows[e].status == PROCESSING
    ensures Reaches(CurrentWorkers, s, Leave(Put(w, e, CountFailure(w.rows[e], w.rows[e].retryCount, w.now)), b))
  {
    var g := w.agents[b];
    var w1 := Step(w, ReadRow(b, false));
    ReachesStep(CurrentWorkers, s, w, ReadRow(b, false));
    assert w1 == Go(w, b, Sending(e, true, g.seen, g.since, w.rows[e]));
    var w2 := Step(w1, Send(b, false));
    ReachesStep(CurrentWorkers, s, w1, Send(b, false));
    assert w2 == Go(w1, b, Broken(e, true, g.seen, g.since, w.rows[e]));
    var w3 := Step(w2, MarkFailed(b, true));
    ReachesStep(CurrentWorkers, s, w2, MarkFailed(b, true));
    FailureCounted(s, w3, b, e);
    assert w3.agents - {b} == w.agents - {b};
  }

  /** The status is read again to count the failure, and the worker is done with the event. */
  lemma FailureCounted(s: World, w: World, b: AgentId, e: EventId)
    requires Reaches(CurrentWorkers, s, w) && b in w.agents && w.agents[b].Recounting? && w.agents[b].event == e && e in w.rows
    ensures Reaches(CurrentWorkers, s, Leave(w, b))
  {
    ReachesStep(CurrentWorkers, s, w, Reread(b, false));
  }

  /** Event `e` has failed once more; everything else is where it was. */
  function FailedOnce(w: World, e: EventId): World
    requires e in w.rows
  {
    var now := w.now + Wait(w.rows[e], w.now);
    w.(now := now, rows := w.rows[e := CountFailure(w.rows[e], w.rows[e].retryCount, now)])
  }

  /** `n` failed attempts in a row by a worker that has nothing else to do. */
  lemma {:induction false} AttemptsFail(s: World, w: World, b: AgentId, e: EventId, n: nat) returns (v: World)
    requires Reaches(CurrentWorkers, s, w)
    requires NoClaims(w) && b !in w.agents && e in w.rows && Claimable(w.rows[e])
    requires 0 <= w.rows[e].retryCount && w.rows[e].retryCount + n <= RETRY_ALLOWANCE
    requires w.rows[e].retryCount + n < w.rows[e].maxRetries
    ensures Reaches(CurrentWorkers, s, v) && v.agents == w.agents && e in v.rows
    ensures var r := v.rows[e];
            && r.retryCount == w.rows[e].retryCount + n && r.maxRetries == w.rows[e].maxRetries
            && r.status == if n == 0 then w.rows[e].status else FAILED
    decreases n
  {
    if n == 0 {
      v := w;
    } else {
      ClaimSucceeds(s, w, b, e);
      var c := Claimed(w, b, e);
      DispatchFails(s, c, b, e);
      var u := FailedOnce(w, e);
      assert Leave(Put(c, e, CountFailure(c.rows[e], c.rows[e].retryCount, c.now)), b) == u by {
        assert c.agents - {b} == w.agents;
      }
      v := AttemptsFail(s, u, b, e, n - 1);
    }
  }

  // ---------------------------------------------- the retry allowance

  /** A failed event that no candidate query will ever return again. */
  ghost predicate Stuck(w: World, e: EventId) {
    e in w.rows && w.rows[e].status == FAILED && forall now :: !Eligible(w.rows[e], now)
  }

  /** The candidate query stops at five retries while an event may have more: an event can be left
      failed for good exactly when it allows more than five, by the best disciplined workers as well
      as in any interleaving at all. */
  lemma RetryAllowanceExact(w: World, e: EventId)
    requires Fresh(w) && e in w.rows
    ensures (exists v :: Reaches(CurrentWorkers, w, v) && Stuck(v, e)) <==> w.rows[e].maxRetries > RETRY_ALLOWANCE
    ensures (exists v :: Reaches(Anything, w, v) && Stuck(v, e)) <==> w.rows[e].maxRetries > RETRY_ALLOWANCE
  {
    if w.rows[e].maxRetries > RETRY_ALLOWANCE {
      ReachesSelf(CurrentWorkers, w);
      var v := AttemptsFail(w, w, 0, e, RETRY_ALLOWANCE);
      assert Stuck(v, e);
    }
    forall rule, v | Reaches(rule, w, v) ensures Reaches(Anything, w, v) {
      var ops :| Disciplined(rule, w, ops) && Run(w, ops) == v;
      AnythingGoes(w, ops);
    }
    forall v | Reaches(Anything, w, v) && Stuck(v, e) ensures w.rows[e].maxRetries > RETRY_ALLOWANCE {
      var ops :| Disciplined(Anything, w, ops) && Run(w, ops) == v;
      StuckAllowsMore(w, ops, e);
    }
  }

  lemma {:induction false} AnythingGoes(w: World, ops: seq<Op>)
    ensures Disciplined(Anything, w, ops)
    decreases |ops|
  {
    if ops != [] {
      AnythingGoes(Step(w, ops[0]), ops[1..]);
    }
  }

  lemma StuckAllowsMore(w: World, ops: seq<Op>, e: EventId)
    requires Fresh(w) && e in w.rows && Stuck(Run(w, ops), e)
    ensures w.rows[e].maxRetries > RETRY_ALLOWANCE
  {
    RunKeepsInv(w, ops);
    RunKeepsMaxRetries(w, ops, e);
    var row := Run(w, ops).rows[e];
    if row.maxRetries <= RETRY_ALLOWANCE {
      FailedComesBack(row, row.updatedAt + MAX_BACKOFF_MS);
    }
  }

  /** And then no worker changes it any more. */
  lemma {:induction false} StuckStays(w: World, ops: seq<Op>, e: EventId)
    requires Stuck(w, e) && Disciplined(Workers, w, ops)
    requires forall a :: a in w.agents ==> w.agents[a].event != e
    ensures Stuck(Run(w, ops), e) && Run(w, ops).rows[e] == w.rows[e]
    decreases |ops|
  {
    if ops != [] {
      assert !Eligible(w.rows[e], w.now);
      var v := Step(w, ops[0]);
      assert forall a :: a in v.agents ==> v.agents[a].event != e;
      StuckStays(v, ops[1..], e);
    }
  }

  // ---------------------------------------------- conditions that are needed

  function OneEvent(maxRetries: int): World {
    World(0, map[0 := NewEvent(maxRetries, 0)], {}, map[], {})
  }

  ghost predicate Lowers(v: World, op: Op) {
    0 in v.rows && 0 in Step(v, op).rows && Step(v, op).rows[0].retryCount < v.rows[0].retryCount
  }

  /** The worker that holds the old list claims the event, and reading it throws. */
  lemma LateClaimThrows(w: World, v: World)
    requires Reaches(CurrentWorkers, w, v) && v.agents == map[7 := Fetched(0, 0)]
    requires 0 in v.rows && v.rows[0].status == FAILED && v.rows[0].retryCount == 2
    ensures exists u, op :: Reaches(CurrentWorkers, w, u) && WorkersOnly(u, op) && Lowers(u, op)
  {
    var v1 := Step(v, TryClaim(7));
    ReachesStep(CurrentWorkers, w, v, TryClaim(7));
    assert v1.agents[7] == Starting(0, true, 0, v.now) && v1.rows[0].retryCount == 2;
    var v2 := Step(v1, ReadRow(7, true));
    ReachesStep(CurrentWorkers, w, v1, ReadRow(7, true));
    assert v2.agents[7] == Threw(0, true, 0, v.now) && v2.rows[0].retryCount == 2;
    assert Lowers(v2, MarkThrown(7));
  }

  /** A worker whose candidate list is two failures old takes the retry count back: no claim is
      ever shared, but the error path writes the count the list held. */
  lemma StaleListLowersCount(maxRetries: int)
    requires maxRetries >= 3
    ensures exists v, op :: Reaches(CurrentWorkers, OneEvent(maxRetries), v) && WorkersOnly(v, op) && Lowers(v, op)
  {
    var w := OneEvent(maxRetries);
    ReachesSelf(CurrentWorkers, w);
    ReachesStep(CurrentWorkers, w, w, Fetch(7, 0));
    var w1 := Step(w, Fetch(7, 0));
    assert w1 == Go(w, 7, Fetched(0, 0));
    var w2 := AttemptsFail(w, w1, 8, 0, 2);
    LateClaimThrows(w, w2);
  }

  ghost predicate Unpublishes(v: World, op: Op) {
    0 in v.rows && 0 in Step(v, op).rows && v.rows[0].status == PUBLISHED && Step(v, op).rows[0].status == FAILED
  }

  // ---------------------------------------------- three ways to lose PUBLISHED

  /** Rules under which a worker may take up an event while somebody else lags behind. */
  ghost predicate Loose(rule: Rule) {
    rule == Anything || rule == Timely || rule == NoRecovery
  }

  ghost predicate SameOthers(v: World, u: World, a: AgentId) {
    forall b :: b in v.agents && b != a ==> b in u.agents && u.agents[b] == v.agents[b]
  }

  lemma ClaimedMeanwhile(rule: Rule, s: World, v: World, a: AgentId) returns (u: World)
    requires Loose(rule) && Reaches(rule, s, v) && a !in v.agents && 0 in v.rows && Eligible(v.rows[0], v.now)
    ensures Reaches(rule, s, u) && SameOthers(v, u, a) && 0 in u.rows && u.rows[0] == Claim(v.rows[0], v.now)
    ensures a in u.agents && u.agents[a] == Starting(0, true, v.rows[0].retryCount, v.now)
  {
    var v1 := Step(v, Fetch(a, 0));
    ReachesStep(rule, s, v, Fetch(a, 0));
    assert v1 == Go(v, a, Fetched(0, v.rows[0].retryCount));
    u := Step(v1, TryClaim(a));
    ReachesStep(rule, s, v1, TryClaim(a));
  }

  lemma PublishedMeanwhile(rule: Rule, s: World, v: World, a: AgentId) returns (u: World)
    requires Loose(rule) && Reaches(rule, s, v) && 0 in v.rows && v.rows[0].status == PROCESSING
    requires a in v.agents && v.agents[a].Starting? && v.agents[a].event == 0
    ensures Reaches(rule, s, u) && SameOthers(v, u, a) && 0 in u.rows && u.rows[0] == Publish(v.rows[0], v.now)
  {
    var g := v.agents[a];
    var v1 := Step(v, ReadRow(a, false));
    ReachesStep(rule, s, v, ReadRow(a, false));
    assert v1 == Go(v, a, Sending(0, g.owner, g.seen, g.since, v.rows[0]));
    var v2 := Step(v1, Send(a, true));
    ReachesStep(rule, s, v1, Send(a, true));
    assert v2.agents[a] == Sent(0, g.owner, g.seen, g.since, v.rows[0]) && v2.rows == v.rows && SameOthers(v, v2, a);
    u := Step(v2, MarkPublished(a, true));
    ReachesStep(rule, s, v2, MarkPublished(a, true));
  }

  /** While agent 1 lags behind with a failure to record, worker 3 claims the event and publishes it. */
  lemma LaggardUnpublishes(rule: Rule, s: World, v: World, write: Op)
    requires Loose(rule) && Reaches(rule, s, v) && 1 in v.agents && 3 !in v.agents
    requires 0 in v.rows && Eligible(v.rows[0], v.now)
    requires FailureWrite(v, write, 0) && write.agent == 1 && Remembered(v.agents[1]) + 1 < v.rows[0].maxRetries
    ensures exists u, op :: Reaches(rule, s, u) && Unpublishes(u, op)
  {
    var c := ClaimedMeanwhile(rule, s, v, 3);
    var u := PublishedMeanwhile(rule, s, c, 3);
    assert c.agents[1] == v.agents[1] && u.agents[1] == c.agents[1];
    assert Unpublishes(u, write);
  }

  const NEW_ROW := Row(PENDING, 0, 3, 0)

  /** An unclaimed dispatch has read the event and failed to send it, but not yet said so. */
  lemma DispatchAboutToFail()
    ensures Reaches(Anything, OneEvent(3), World(0, map[0 := NEW_ROW], {}, map[1 := Broken(0, false, 0, 0, NEW_ROW)], {0}))
  {
    var w := OneEvent(3);
    ReachesSelf(Anything, w);
    ReachesStep(Anything, w, w, Direct(1, 0));
    ReachesStep(Anything, w, World(0, w.rows, {}, map[1 := Starting(0, false, 0, 0)], {0}), ReadRow(1, false));
    ReachesStep(Anything, w, World(0, w.rows, {}, map[1 := Sending(0, false, 0, 0, NEW_ROW)], {0}), Send(1, false));
  }

  /** The unclaimed dispatch that lost the race against a claiming worker marks a published event
      failed. */
  lemma DirectDispatchUnpublishes()
    ensures exists v, op :: Reaches(Anything, OneEvent(3), v) && Unpublishes(v, op)
  {
    DispatchAboutToFail();
    LaggardUnpublishes(Anything, OneEvent(3), World(0, map[0 := NEW_ROW], {}, map[1 := Broken(0, false, 0, 0, NEW_ROW)], {0}),
                       MarkFailed(1, true));
  }

  const OLD_CLAIM := Row(PROCESSING, 0, 3, 0)

  lemma LiveClaim(rule: Rule)
    requires Loose(rule)
    ensures Reaches(rule, OneEvent(3), World(0, map[0 := OLD_CLAIM], {}, map[1 := Starting(0, true, 0, 0)], {}))
  {
    var w := OneEvent(3);
    ReachesSelf(rule, w);
    ReachesStep(rule, w, w, Fetch(1, 0));
    ReachesStep(rule, w, World(0, w.rows, {}, map[1 := Fetched(0, 0)], {}), TryClaim(1));
  }

  lemma DeadClaim()
    ensures Reaches(Timely, OneEvent(3), World(300001, map[0 := OLD_CLAIM], {}, map[], {}))
  {
    var w := OneEvent(3);
    LiveClaim(Timely);
    ReachesStep(Timely, w, World(0, map[0 := OLD_CLAIM], {}, map[1 := Starting(0, true, 0, 0)], {}), Crash(1));
    ReachesStep(Timely, w, World(0, map[0 := OLD_CLAIM], {}, map[], {}), Tick(300001));
  }

  lemma StaleRead()
    ensures Reaches(Timely, OneEvent(3), World(300001, map[0 := OLD_CLAIM], {}, map[1 := Recovering(0, OLD_CLAIM)], {}))
  {
    DeadClaim();
    ReachesStep(Timely, OneEvent(3), World(300001, map[0 := OLD_CLAIM], {}, map[], {}), RecoverRead(1, 0));
  }

  lemma RecoveredMeanwhile()
    ensures Reaches(Timely, OneEvent(3),
                    World(300001, map[0 := Row(FAILED, 1, 3, 300001)], {}, map[1 := Recovering(0, OLD_CLAIM)], {}))
  {
    StaleRead();
    ReachesStep(Timely, OneEvent(3), World(300001, map[0 := OLD_CLAIM], {}, map[1 := Recovering(0, OLD_CLAIM)], {}), Recover(0));
  }

  /** A worker claims and crashes; five minutes later one recovery has read the stale event, and
      another has recovered it. */
  lemma RecoveredTwice()
    ensures Reaches(Timely, OneEvent(3),
                    World(302001, map[0 := Row(FAILED, 1, 3, 300001)], {}, map[1 := Recovering(0, OLD_CLAIM)], {}))
  {
    RecoveredMeanwhile();
    ReachesStep(Timely, OneEvent(3),
                World(300001, map[0 := Row(FAILED, 1, 3, 300001)], {}, map[1 := Recovering(0, OLD_CLAIM)], {}), Tick(2000));
  }

  /** Two recoveries that read before they write: the slower one marks a published event failed,
      although every claim holder finished or crashed inside the timeout. */
  lemma SplitRecoveryUnpublishes()
    ensures exists v, op :: Reaches(Timely, OneEvent(3), v) && Unpublishes(v, op)
  {
    RecoveredTwice();
    assert BackoffMs(1) == 2000;
    LaggardUnpublishes(Timely, OneEvent(3),
                       World(302001, map[0 := Row(FAILED, 1, 3, 300001)], {}, map[1 := Recovering(0, OLD_CLAIM)], {}),
                       RecoverWrite(1));
  }

  lemma FirstSendFails()
    ensures Reaches(NoRecovery, OneEvent(3),
                    World(0, map[0 := OLD_CLAIM], {}, map[1 := Broken(0, true, 0, 0, OLD_CLAIM)], {}))
  {
    var w, v := OneEvent(3), World(0, map[0 := OLD_CLAIM], {}, map[1 := Starting(0, true, 0, 0)], {});
    LiveClaim(NoRecovery);
    ReachesStep(NoRecovery, w, v, ReadRow(1, false));
    ReachesStep(NoRecovery, w, v.(agents := map[1 := Sending(0, true, 0, 0, OLD_CLAIM)]), Send(1, false));
  }

  lemma FailureRecorded()
    ensures Reaches(NoRecovery, OneEvent(3), World(0, map[0 := Row(FAILED, 1, 3, 0)], {}, map[1 := Recounting(0, 0)], {}))
  {
    FirstSendFails();
    ReachesStep(NoRecovery, OneEvent(3), World(0, map[0 := OLD_CLAIM], {}, map[1 := Broken(0, true, 0, 0, OLD_CLAIM)], {}),
                MarkFailed(1, true));
  }

  lemma RecountThrew()
    ensures Reaches(NoRecovery, OneEvent(3), World(0, map[0 := Row(FAILED, 1, 3, 0)], {}, map[1 := LateThrew(0, 0)], {}))
  {
    FailureRecorded();
    ReachesStep(NoRecovery, OneEvent(3), World(0, map[0 := Row(FAILED, 1, 3, 0)], {}, map[1 := Recounting(0, 0)], {}),
                Reread(1, true));
  }

  lemma BackoffOver()
    ensures Reaches(NoRecovery, OneEvent(3), World(2000, map[0 := Row(FAILED, 1, 3, 0)], {}, map[1 := LateThrew(0, 0)], {}))
  {
    RecountThrew();
    ReachesStep(NoRecovery, OneEvent(3), World(0, map[0 := Row(FAILED, 1, 3, 0)], {}, map[1 := LateThrew(0, 0)], {}), Tick(2000));
  }

  /** CurrentWorkers only, inside the timeout and without any recovery: one that recorded a failure and
      then fails to read the status again marks the event, meanwhile published by another, failed. */
  lemma LateRecountUnpublishes()
    ensures exists v, op :: Reaches(NoRecovery, OneEvent(3), v) && Unpublishes(v, op)
  {
    BackoffOver();
    assert BackoffMs(1) == 2000;
    LaggardUnpublishes(NoRecovery, OneEvent(3),
                       World(2000, map[0 := Row(FAILED, 1, 3, 0)], {}, map[1 := LateThrew(0, 0)], {}), MarkThrown(1));
  }
}
