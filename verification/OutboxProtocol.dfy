/** Every interleaving of outbox workers, crashes, stale recovery and the unclaimed dispatch that
    follows a commit.  Each database access and each downstream publish is one step. */
module OutboxProtocol {
  import opened OutboxRows

  type EventId = nat
  type AgentId = nat

  /** Where one handling of one event stands.  `owner` is false for the unclaimed dispatch; `seen`
      is the retry count of the candidate list, `read` the row dispatchEvent read.  A worker that
      recorded a failure reads the status again to count it (`Recounting`); if that read throws, its
      error path writes without a claim (`LateThrew`). */
  datatype Agent =
    | Fetched(event: EventId, seen: int)
    | Starting(event: EventId, owner: bool, seen: int, since: int)
    | Sending(event: EventId, owner: bool, seen: int, since: int, read: Row)
    | Sent(event: EventId, owner: bool, seen: int, since: int, read: Row)
    | Broken(event: EventId, owner: bool, seen: int, since: int, read: Row)
    | Threw(event: EventId, owner: bool, seen: int, since: int)
    | Recounting(event: EventId, seen: int)
    | LateThrew(event: EventId, seen: int)
    | Recovering(event: EventId, read: Row)

  /** `dispatched` are the events whose one direct dispatch has started. */
  datatype World = World(
    now: int,
    rows: map<EventId, Row>,
    delivered: set<EventId>,
    agents: map<AgentId, Agent>,
    dispatched: set<EventId>)

  datatype Op =
    | Fetch(agent: AgentId, event: EventId)
    | TryClaim(agent: AgentId)
    | Direct(agent: AgentId, event: EventId)
    | ReadRow(agent: AgentId, throws: bool)
    | Send(agent: AgentId, ok: bool)
    | MarkPublished(agent: AgentId, ok: bool)
    | MarkFailed(agent: AgentId, ok: bool)
    | MarkThrown(agent: AgentId)
    | Reread(agent: AgentId, throws: bool)
    | Crash(agent: AgentId)
    | RecoverRead(agent: AgentId, event: EventId)
    | RecoverWrite(agent: AgentId)
    | Recover(event: EventId)
    | Tick(ms: nat)

  function Put(w: World, e: EventId, r: Row): World {
    w.(rows := w.rows[e := r])
  }

  function Leave(w: World, a: AgentId): World {
    w.(agents := w.agents - {a})
  }

  function Go(w: World, a: AgentId, next: Agent): World {
    w.(agents := w.agents[a := next])
  }

  /** Steps of an agent that is already under way. */
  function AgentStep(w: World, op: Op, a: AgentId, g: Agent): World
    requires g.event in w.rows
  {
    var r := w.rows[g.event];
    match (op, g)
    case (TryClaim(_), Fetched(e, seen)) =>
      if Claimable(r) then Go(Put(w, e, Claim(r, w.now)), a, Starting(e, true, seen, w.now)) else Leave(w, a)
    case (ReadRow(_, throws), Starting(e, owner, seen, since)) =>
      if throws then (if owner then Go(w, a, Threw(e, owner, seen, since)) else Leave(w, a))
      else if r.status == PUBLISHED then Leave(w, a)
      else Go(w, a, Sending(e, owner, seen, since, r))
    case (Send(_, ok), Sending(e, owner, seen, since, read)) =>
      if ok then Go(w.(delivered := w.delivered + {e}), a, Sent(e, owner, seen, since, read))
      else Go(w, a, Broken(e, owner, seen, since, read))
    case (MarkPublished(_, ok), Sent(e, owner, seen, since, read)) =>
      if ok then Leave(Put(w, e, Publish(r, w.now)), a) else Go(w, a, Broken(e, owner, seen, since, read))
    case (MarkFailed(_, ok), Broken(e, owner, seen, since, read)) =>
      if ok then
        var v := Put(w, e, CountFailure(r, read.retryCount, w.now));
        if owner then Go(v, a, Recounting(e, seen)) else Leave(v, a)
      else if owner then Go(w, a, Threw(e, owner, seen, since)) else Leave(w, a)
    case (MarkThrown(_), Threw(e, owner, seen, _)) => Leave(Put(w, e, CountFailure(r, seen, w.now)), a)
    case (Reread(_, throws), Recounting(e, seen)) => if throws then Go(w, a, LateThrew(e, seen)) else Leave(w, a)
    case (MarkThrown(_), LateThrew(e, seen)) => Leave(Put(w, e, CountFailure(r, seen, w.now)), a)
    case (RecoverWrite(_), Recovering(e, read)) => Leave(Put(w, e, CountFailure(r, read.retryCount, w.now)), a)
    case (Crash(_), _) => Leave(w, a)
    case _ => w
  }

  /** One atomic step; a step that is not enabled changes nothing. */
  function Step(w: World, op: Op): World {
    match op
    case Tick(ms) => w.(now := w.now + ms)
    case Recover(e) =>
      if e in w.rows && Stale(w.rows[e], w.now) then Put(w, e, CountFailure(w.rows[e], w.rows[e].retryCount, w.now)) else w
    case Fetch(a, e) =>
      if a !in w.agents && e in w.rows && Eligible(w.rows[e], w.now) then Go(w, a, Fetched(e, w.rows[e].retryCount)) else w
    case Direct(a, e) =>
      if a !in w.agents && e in w.rows && e !in w.dispatched
      then Go(w.(dispatched := w.dispatched + {e}), a, Starting(e, false, 0, w.now))
      else w
    case RecoverRead(a, e) =>
      if a !in w.agents && e in w.rows && Stale(w.rows[e], w.now) then Go(w, a, Recovering(e, w.rows[e])) else w
    case _ =>
      if op.agent in w.agents && w.agents[op.agent].event in w.rows then AgentStep(w, op, op.agent, w.agents[op.agent]) else w
  }

  function Run(w: World, ops: seq<Op>): World
    decreases |ops|
  {
    if ops == [] then w else Run(Step(w, ops[0]), ops[1..])
  }

  ghost predicate Fresh(w: World) {
    && w.agents == map[] && w.dispatched == {}
    && forall e :: e in w.rows ==> w.rows[e].maxRetries >= 1 && w.rows[e] == NewEvent(w.rows[e].maxRetries, w.rows[e].updatedAt)
  }

  // ---------------------------------------------- in every interleaving

  ghost predicate Inv(w: World) {
    && (forall e :: e in w.rows ==> Consistent(w.rows[e]))
    && (forall e :: e in w.rows && w.rows[e].status == PUBLISHED ==> e in w.delivered)
    && (forall a :: a in w.agents ==> AgentOk(w, w.agents[a]))
  }

  /** What an agent remembers is a possible retry count, and it marks an event published only
      after the downstream publish of that event completed. */
  ghost predicate AgentOk(w: World, g: Agent) {
    && g.event in w.rows
    && (!g.Recovering? ==> 0 <= g.seen)
    && (g.Sending? || g.Sent? || g.Broken? || g.Recovering? ==> 0 <= g.read.retryCount)
    && (g.Sent? ==> g.event in w.delivered)
  }

  /** A step leaves every row consistent, and publishes only what was delivered. */
  lemma StepKeepsRow(w: World, op: Op, e: EventId)
    requires Inv(w) && e in w.rows
    ensures e in Step(w, op).rows && Consistent(Step(w, op).rows[e])
    ensures e in w.delivered ==> e in Step(w, op).delivered
    ensures Step(w, op).rows[e].status == PUBLISHED ==> e in Step(w, op).delivered
  {
    if !op.Tick? && !op.Recover? && op.agent in w.agents {
      assert AgentOk(w, w.agents[op.agent]);
    }
  }

  lemma StepKeepsAgent(w: World, op: Op, a: AgentId)
    requires Inv(w) && a in Step(w, op).agents
    ensures AgentOk(Step(w, op), Step(w, op).agents[a])
  {
    if a in w.agents {
      assert AgentOk(w, w.agents[a]);
      StepKeepsRow(w, op, w.agents[a].event);
    }
  }

  lemma StepKeepsInv(w: World, op: Op)
    requires Inv(w)
    ensures Inv(Step(w, op))
  {
    var v := Step(w, op);
    forall e | e in v.rows ensures Consistent(v.rows[e]) && (v.rows[e].status == PUBLISHED ==> e in v.delivered) {
      assert e in w.rows;
      StepKeepsRow(w, op, e);
    }
    forall a | a in v.agents ensures AgentOk(v, v.agents[a]) {
      StepKeepsAgent(w, op, a);
    }
  }

  lemma {:induction false} RunKeepsInv(w: World, ops: seq<Op>)
    requires Inv(w)
    ensures Inv(Run(w, ops))
    decreases |ops|
  {
    if ops != [] {
      StepKeepsInv(w, ops[0]);
      RunKeepsInv(Step(w, ops[0]), ops[1..]);
    }
  }

  lemma {:induction false} RunKeepsMaxRetries(w: World, ops: seq<Op>, e: EventId)
    requires e in w.rows
    ensures e in Run(w, ops).rows && Run(w, ops).rows[e].maxRetries == w.rows[e].maxRetries
    decreases |ops|
  {
    if ops != [] {
      RunKeepsMaxRetries(Step(w, ops[0]), ops[1..], e);
    }
  }

  /** Whatever workers, crashes, recoveries and direct dispatches do: an event is PUBLISHED only
      if its publish completed at least once, failed and claimed events still have retries left,
      and dead letters have used them up. */
  lemma PublishedMeansDelivered(w: World, ops: seq<Op>, e: EventId)
    requires Fresh(w) && e in Run(w, ops).rows
    ensures Run(w, ops).rows[e].status == PUBLISHED ==> e in Run(w, ops).delivered
    ensures Consistent(Run(w, ops).rows[e])
  {
    RunKeepsInv(w, ops);
  }

  // ---------------------------------------------- workers alone

  ghost predicate Owns(g: Agent) {
    (g.Starting? || g.Sending? || g.Sent? || g.Broken? || g.Threw?) && g.owner
  }

  /** Workers alone: no unclaimed dispatch, recovery in one step, no failing status re-read after a
      recorded failure, and time does not pass the stale timeout while a claim holder is alive. */
  ghost predicate WorkersOnly(w: World, op: Op) {
    && !op.Direct? && !op.RecoverRead? && (op.Reread? ==> !op.throws)
    && (op.Tick? ==> ClaimsSurvive(w, op.ms))
  }

  ghost predicate ClaimsSurvive(w: World, ms: nat) {
    forall a :: a in w.agents && Owns(w.agents[a]) ==> w.now + ms - w.agents[a].since <= STALE_TIMEOUT_MS
  }

  /** The retry count of the candidate list is still current when the worker writes it back. */
  ghost predicate CountCurrent(w: World, op: Op) {
    op.MarkThrown? && op.agent in w.agents && w.agents[op.agent].Threw? && w.agents[op.agent].event in w.rows
    ==> w.agents[op.agent].seen == w.rows[w.agents[op.agent].event].retryCount
  }

  /** What the steps of a run may be: anything; no unclaimed dispatch and no live claim reaching
      the timeout; besides, no recovery at all; workers alone, as above; or workers whose candidate
      lists, besides, are still current whenever they write a count back. */
  datatype Rule = Anything | Timely | NoRecovery | Workers | CurrentWorkers

  ghost predicate Obeys(rule: Rule, w: World, op: Op) {
    match rule
    case Anything => true
    case Timely => !op.Direct? && (op.Tick? ==> ClaimsSurvive(w, op.ms))
    case NoRecovery => !op.Direct? && !op.RecoverRead? && !op.Recover? && (op.Tick? ==> ClaimsSurvive(w, op.ms))
    case Workers => WorkersOnly(w, op)
    case CurrentWorkers => WorkersOnly(w, op) && CountCurrent(w, op)
  }

  ghost predicate Disciplined(rule: Rule, w: World, ops: seq<Op>)
    decreases |ops|
  {
    ops == [] || (Obeys(rule, w, ops[0]) && Disciplined(rule, Step(w, ops[0]), ops[1..]))
  }

  /** An agent without a claim that will not write unless it wins one. */
  ghost predicate Harmless(g: Agent) {
    g.Fetched? || g.Recounting?
  }

  /** A live claim is exclusive, is reflected in the row, and saw the row as it is. */
  ghost predicate Exclusive(w: World) {
    && (forall a :: a in w.agents ==> Harmless(w.agents[a]) || Owns(w.agents[a]))
    && (forall a :: a in w.agents && Owns(w.agents[a]) ==> HoldsClaim(w, w.agents[a]))
    && (forall a, b :: a in w.agents && b in w.agents && a != b && Owns(w.agents[a]) && Owns(w.agents[b])
          ==> w.agents[a].event != w.agents[b].event)
  }

  ghost predicate HoldsClaim(w: World, g: Agent)
    requires Owns(g)
  {
    && g.event in w.rows
    && w.rows[g.event].status == PROCESSING
    && w.rows[g.event].updatedAt == g.since
    && w.now - g.since <= STALE_TIMEOUT_MS
    && (g.Sending? || g.Sent? || g.Broken? ==> g.read.retryCount == w.rows[g.event].retryCount)
  }

  /** The agent of a step is the only one whose place changes, and it keeps its event. */
  lemma AgentsMoveAlone(w: World, op: Op, a: AgentId)
    requires WorkersOnly(w, op) && a in Step(w, op).agents
    ensures a !in w.agents ==> Step(w, op).agents[a].Fetched?
    ensures a in w.agents && (op.Tick? || op.Recover? || op.agent != a) ==> Step(w, op).agents[a] == w.agents[a]
    ensures a in w.agents && Owns(w.agents[a])
            ==> && Step(w, op).agents[a].event == w.agents[a].event
                && (Step(w, op).agents[a].Recounting?
                    || (Owns(Step(w, op).agents[a]) && Step(w, op).agents[a].since == w.agents[a].since))
    ensures a in w.agents && Harmless(w.agents[a]) && Owns(Step(w, op).agents[a])
            ==> op == TryClaim(a) && w.agents[a].event in w.rows && Claimable(w.rows[w.agents[a].event])
                && Step(w, op).agents[a].event == w.agents[a].event
    ensures a in w.agents && Harmless(w.agents[a]) ==> Harmless(Step(w, op).agents[a]) || Owns(Step(w, op).agents[a])
  {}

  /** A step of a worker leaves the row of every claim held by somebody else as it is. */
  lemma RowOfClaimKept(w: World, op: Op, a: AgentId)
    requires Exclusive(w) && WorkersOnly(w, op) && a in w.agents && Owns(w.agents[a])
    requires op.Tick? || op.Recover? || op.agent != a
    ensures w.agents[a].event in Step(w, op).rows
    ensures Step(w, op).rows[w.agents[a].event] == w.rows[w.agents[a].event]
  {
    assert HoldsClaim(w, w.agents[a]);
    if !op.Tick? && !op.Recover? && op.agent in w.agents {
      assert Harmless(w.agents[op.agent]) || Owns(w.agents[op.agent]);
    }
  }

  lemma KeepsClaim(w: World, op: Op, a: AgentId)
    requires Exclusive(w) && WorkersOnly(w, op) && a in Step(w, op).agents
    ensures Harmless(Step(w, op).agents[a]) || Owns(Step(w, op).agents[a])
    ensures Owns(Step(w, op).agents[a]) ==> HoldsClaim(Step(w, op), Step(w, op).agents[a])
  {
    AgentsMoveAlone(w, op, a);
    if a in w.agents && Owns(w.agents[a]) {
      assert HoldsClaim(w, w.agents[a]);
      if op.Tick? || op.Recover? || op.agent != a {
        RowOfClaimKept(w, op, a);
      }
    }
  }

  lemma StepKeepsExclusive(w: World, op: Op)
    requires Exclusive(w) && WorkersOnly(w, op)
    ensures Exclusive(Step(w, op))
  {
    var v := Step(w, op);
    forall a | a in v.agents
      ensures Harmless(v.agents[a]) || Owns(v.agents[a])
      ensures Owns(v.agents[a]) ==> HoldsClaim(v, v.agents[a])
    {
      KeepsClaim(w, op, a);
    }
    forall a, b | a in v.agents && b in v.agents && a != b && Owns(v.agents[a]) && Owns(v.agents[b])
      ensures v.agents[a].event != v.agents[b].event
    {
      AgentsMoveAlone(w, op, a);
      AgentsMoveAlone(w, op, b);
    }
  }

  /** What one disciplined step does to a row: the count never falls, every failure or recovery
      costs one retry, and a published row stays as it is. */
  lemma StepRaisesCount(w: World, op: Op, e: EventId)
    requires Inv(w) && Exclusive(w) && WorkersOnly(w, op) && CountCurrent(w, op) && e in w.rows
    ensures e in Step(w, op).rows && Step(w, op).rows[e].maxRetries == w.rows[e].maxRetries
    ensures Step(w, op).rows[e].retryCount == w.rows[e].retryCount + Failure(w, op, e)
    ensures w.rows[e].status == PUBLISHED ==> Step(w, op).rows[e] == w.rows[e]
    ensures Failure(w, op, e) > 0 ==> w.rows[e].status == PROCESSING
  {
    if !op.Tick? && !op.Recover? && op.agent in w.agents && Owns(w.agents[op.agent]) {
      assert HoldsClaim(w, w.agents[op.agent]);
    }
  }

  /** 1 if this step records a failed attempt or a stale recovery of `e`. */
  ghost function Failure(w: World, op: Op, e: EventId): nat {
    if op.Recover? then (if op.event == e && e in w.rows && Stale(w.rows[e], w.now) then 1 else 0)
    else if ((op.MarkFailed? && op.ok) || op.MarkThrown?) && op.agent in w.agents && w.agents[op.agent].event == e
         && (if op.MarkFailed? then w.agents[op.agent].Broken? else w.agents[op.agent].Threw?)
    then 1
    else 0
  }

  ghost function Failures(w: World, ops: seq<Op>, e: EventId): nat
    decreases |ops|
  {
    if ops == [] then 0 else Failure(w, ops[0], e) + Failures(Step(w, ops[0]), ops[1..], e)
  }

  /** A worker's step leaves a published row as it is: whoever writes holds a claim, and a claimed row
      is not published. */
  lemma StepKeepsPublished(w: World, op: Op, e: EventId)
    requires Exclusive(w) && WorkersOnly(w, op) && e in w.rows && w.rows[e].status == PUBLISHED
    ensures e in Step(w, op).rows && Step(w, op).rows[e] == w.rows[e]
  {
    if !op.Tick? && !op.Recover? && op.agent in w.agents && Owns(w.agents[op.agent]) {
      assert HoldsClaim(w, w.agents[op.agent]);
    }
  }

  lemma {:induction false} WorkersRun(w: World, ops: seq<Op>, e: EventId)
    requires Exclusive(w) && Disciplined(Workers, w, ops) && e in w.rows
    ensures Exclusive(Run(w, ops)) && e in Run(w, ops).rows
    ensures w.rows[e].status == PUBLISHED ==> Run(w, ops).rows[e] == w.rows[e]
    decreases |ops|
  {
    if ops != [] {
      StepKeepsExclusive(w, ops[0]);
      if w.rows[e].status == PUBLISHED {
        StepKeepsPublished(w, ops[0], e);
      }
      WorkersRun(Step(w, ops[0]), ops[1..], e);
    }
  }

  /** Workers alone: at every point of every run no event has two claim holders, and a published event
      never changes afterwards. */
  lemma WorkersAreExclusive(w: World, before: seq<Op>, after: seq<Op>, e: EventId)
    requires Fresh(w) && e in w.rows
    requires Disciplined(Workers, w, before) && Disciplined(Workers, Run(w, before), after)
    ensures var u, v := Run(w, before), Run(Run(w, before), after);
            && Exclusive(u)
            && e in u.rows && e in v.rows
            && (u.rows[e].status == PUBLISHED ==> v.rows[e] == u.rows[e])
  {
    WorkersRun(w, before, e);
    WorkersRun(Run(w, before), after, e);
  }

  lemma {:induction false} CountedRun(w: World, ops: seq<Op>, e: EventId)
    requires Inv(w) && Exclusive(w) && Disciplined(CurrentWorkers, w, ops) && e in w.rows
    ensures var v := Run(w, ops);
            && Inv(v) && Exclusive(v) && e in v.rows
            && v.rows[e].maxRetries == w.rows[e].maxRetries
            && v.rows[e].retryCount == w.rows[e].retryCount + Failures(w, ops, e)
    ensures w.rows[e].retryCount <= w.rows[e].maxRetries ==> Run(w, ops).rows[e].retryCount <= w.rows[e].maxRetries
    decreases |ops|
  {
    if ops != [] {
      StepKeepsInv(w, ops[0]);
      StepKeepsExclusive(w, ops[0]);
      StepRaisesCount(w, ops[0], e);
      assert Consistent(w.rows[e]);
      CountedRun(Step(w, ops[0]), ops[1..], e);
    }
  }

  /** With candidate lists that are current whenever a count is written back: the retry count only
      rises, by one for each failure, and an event fails at most maxRetries times in all. */
  lemma WorkersCountFailures(w: World, before: seq<Op>, after: seq<Op>, e: EventId)
    requires Fresh(w) && e in w.rows
    requires Disciplined(CurrentWorkers, w, before) && Disciplined(CurrentWorkers, Run(w, before), after)
    ensures var u, v := Run(w, before), Run(Run(w, before), after);
            && e in u.rows && e in v.rows
            && v.rows[e].retryCount == u.rows[e].retryCount + Failures(u, after, e)
            && Failures(w, before, e) <= w.rows[e].maxRetries
  {
    CountedRun(w, before, e);
    CountedRun(Run(w, before), after, e);
  }

  // ---------------------------------------------- every writer

  /** The write that records a failure of `e`: dispatchEvent's own, the worker's error path with or
      without its claim, or the second half of a recovery. */
  ghost predicate FailureWrite(w: World, op: Op, e: EventId) {
    && !op.Tick? && !op.Recover? && op.agent in w.agents && w.agents[op.agent].event == e
    && match w.agents[op.agent]
       case Broken(_, _, _, _, _) => op.MarkFailed? && op.ok
       case Threw(_, _, _, _) => op.MarkThrown?
       case LateThrew(_, _) => op.MarkThrown?
       case Recovering(_, _) => op.RecoverWrite?
       case _ => false
  }

  /** The retry count such a writer goes by. */
  ghost function Remembered(g: Agent): int {
    match g
    case Broken(_, _, _, _, read) => read.retryCount
    case Recovering(_, read) => read.retryCount
    case _ => g.seen
  }

  /** In every interleaving, a step lowers the retry count of an event exactly when it is a failure
      write by somebody whose count is more than one failure behind. */
  lemma CountFallsExactly(w: World, op: Op, e: EventId)
    requires Inv(w) && e in w.rows
    ensures e in Step(w, op).rows
    ensures Step(w, op).rows[e].retryCount < w.rows[e].retryCount
            <==> FailureWrite(w, op, e) && Remembered(w.agents[op.agent]) + 1 < w.rows[e].retryCount
  {}

  /** And it takes an event out of PUBLISHED exactly when it is a failure write at all. */
  lemma UnpublishedExactly(w: World, op: Op, e: EventId)
    requires e in w.rows && w.rows[e].status == PUBLISHED
    ensures e in Step(w, op).rows
    ensures Step(w, op).rows[e].status != PUBLISHED <==> FailureWrite(w, op, e)
  {}

  ghost predicate PublishedThroughout(w: World, ops: seq<Op>, e: EventId)
    decreases |ops|
  {
    && e in w.rows && w.rows[e].status == PUBLISHED
    && (ops == [] || PublishedThroughout(Step(w, ops[0]), ops[1..], e))
  }

  ghost predicate NoFailureWrite(w: World, ops: seq<Op>, e: EventId)
    decreases |ops|
  {
    ops == [] || (!FailureWrite(w, ops[0], e) && NoFailureWrite(Step(w, ops[0]), ops[1..], e))
  }

  /** Over a run, an event stays PUBLISHED throughout exactly when nobody records a failure of it. */
  lemma {:induction false} PublishedThroughoutExactly(w: World, ops: seq<Op>, e: EventId)
    requires e in w.rows && w.rows[e].status == PUBLISHED
    ensures PublishedThroughout(w, ops, e) <==> NoFailureWrite(w, ops, e)
    decreases |ops|
  {
    if ops != [] {
      UnpublishedExactly(w, ops[0], e);
      if !FailureWrite(w, ops[0], e) {
        PublishedThroughoutExactly(Step(w, ops[0]), ops[1..], e);
      }
    }
  }

  /** An agent that can still come to record a failure of a published event: it has read the row, or
      would go through a worker's error path. */
  ghost predicate MayStillFail(g: Agent) {
    match g
    case Fetched(_, _) => false
    case Starting(_, owner, _, _) => owner
    case _ => true
  }

  ghost predicate NobodyBehind(w: World, e: EventId) {
    forall a :: a in w.agents && w.agents[a].event == e ==> !MayStillFail(w.agents[a])
  }

  ghost predicate PublishedStays(w: World, e: EventId) {
    forall ops :: e in Run(w, ops).rows && Run(w, ops).rows[e].status == PUBLISHED
  }

  lemma {:induction false} NobodyBehindForever(w: World, ops: seq<Op>, e: EventId)
    requires e in w.rows && w.rows[e].status == PUBLISHED && NobodyBehind(w, e)
    ensures e in Run(w, ops).rows && Run(w, ops).rows[e].status == PUBLISHED
    decreases |ops|
  {
    if ops != [] {
      UnpublishedExactly(w, ops[0], e);
      StillNobodyBehind(w, ops[0], e);
      NobodyBehindForever(Step(w, ops[0]), ops[1..], e);
    }
  }

  lemma StillNobodyBehind(w: World, op: Op, e: EventId)
    requires e in w.rows && w.rows[e].status == PUBLISHED && NobodyBehind(w, e)
    ensures NobodyBehind(Step(w, op), e)
  {}

  /** What such an agent does to record its failure. */
  ghost function Failing(g: Agent, a: AgentId): seq<Op> {
    match g
    case Starting(_, _, _, _) => [ReadRow(a, true), MarkThrown(a)]
    case Sending(_, _, _, _, _) => [Send(a, false), MarkFailed(a, true)]
    case Sent(_, _, _, _, _) => [MarkPublished(a, false), MarkFailed(a, true)]
    case Recounting(_, _) => [Reread(a, true), MarkThrown(a)]
    case Broken(_, _, _, _, _) => [MarkFailed(a, true)]
    case Recovering(_, _) => [RecoverWrite(a)]
    case _ => [MarkThrown(a)]
  }

  lemma BehindCanFail(w: World, a: AgentId, e: EventId)
    requires e in w.rows && w.rows[e].status == PUBLISHED
    requires a in w.agents && w.agents[a].event == e && MayStillFail(w.agents[a])
    ensures !PublishedStays(w, e)
  {
    var ops := Failing(w.agents[a], a);
    var w1 := Step(w, ops[0]);
    if |ops| == 1 {
      assert ops[1..] == [] && Run(w, ops) == Run(w1, []);
    } else {
      assert ops[1..][1..] == [] && Run(w, ops) == Run(w1, ops[1..]) == Run(Step(w1, ops[1]), []);
    }
    assert Run(w, ops).rows[e].status != PUBLISHED;
  }

  /** PUBLISHED is final from here on, whatever follows, exactly when nobody is behind: no agent that
      has read the event, or has claimed it, is still on its way. */
  lemma PublishedIsFinalExactly(w: World, e: EventId)
    requires e in w.rows && w.rows[e].status == PUBLISHED
    ensures PublishedStays(w, e) <==> NobodyBehind(w, e)
  {
    if NobodyBehind(w, e) {
      forall ops ensures e in Run(w, ops).rows && Run(w, ops).rows[e].status == PUBLISHED {
        NobodyBehindForever(w, ops, e);
      }
    } else {
      var a :| a in w.agents && w.agents[a].event == e && MayStillFail(w.agents[a]);
      BehindCanFail(w, a, e);
    }
  }
}
