/** Which events a worker takes, said by counting rows instead of running its queries, and that the
    batch and the protocol agree on what becomes of one of them. */
module OutboxSchedule {
  import opened OutboxRows
  import opened OutboxWorker
  import P = OutboxProtocol

  /** How many rows from `from` up to, not including, `to` are of this kind. */
  function Number(rows: seq<Row>, from: nat, to: nat, kind: Row -> bool): nat
    requires from <= to <= |rows|
    decreases |rows| - from
  {
    if from == to then 0 else (if kind(rows[from]) then 1 else 0) + Number(rows, from + 1, to, kind)
  }

  /** What the candidate query asks for. */
  function Retryable(): Row -> bool {
    (r: Row) => r.status == PENDING || (r.status == FAILED && r.retryCount <= 4)
  }

  function DueAt(now: int): Row -> bool {
    (r: Row) => Due(r, now)
  }

  function StaleAt(now: int): Row -> bool {
    (r: Row) => r.status == PROCESSING && now > r.updatedAt + 300000
  }

  lemma {:induction false} CandidatesExactly(rows: seq<Row>, from: nat, limit: nat, i: nat)
    requires from <= i < |rows|
    ensures i in CandidateIds(rows, from, limit) <==> Retryable()(rows[i]) && Number(rows, from, i, Retryable()) < limit
    decreases |rows| - from
  {
    if from < i && limit > 0 {
      CandidatesExactly(rows, from + 1, if Candidate(rows[from]) then limit - 1 else limit, i);
    }
  }

  lemma {:induction false} StaleExactly(rows: seq<Row>, from: nat, limit: nat, now: int, i: nat)
    requires from <= i < |rows|
    ensures i in StaleIds(rows, from, limit, now) <==> StaleAt(now)(rows[i]) && Number(rows, from, i, StaleAt(now)) < limit
    decreases |rows| - from
  {
    if from < i && limit > 0 {
      StaleExactly(rows, from + 1, if Stale(rows[from], now) then limit - 1 else limit, now, i);
    }
  }

  /** The rows that a recovery takes are the first fifty that were claimed more than five minutes ago and
      not finished. */
  lemma RecoveredExactly(rows: seq<Row>, now: int, i: nat)
    requires i < |rows|
    ensures i in StaleIds(rows, 0, RECOVERY_BATCH, now) <==> StaleAt(now)(rows[i]) && Number(rows, 0, i, StaleAt(now)) < 50
  {
    StaleExactly(rows, 0, RECOVERY_BATCH, now, i);
  }

  /** The picks among the first `limit` candidates from row `from` on. */
  function PicksFrom(rows: seq<Row>, from: nat, limit: nat, room: nat, now: int): (picks: seq<nat>)
    requires from <= |rows|
    ensures forall i :: i in picks ==> from <= i < |rows|
  {
    Picks(rows, CandidateIds(rows, from, limit), room, now)
  }

  lemma PicksStepByRow(rows: seq<Row>, from: nat, limit: nat, room: nat, now: int, left: nat, free: nat)
    requires from < |rows| && rows[from].retryCount >= 0 && limit > 0 && room > 0
    requires left == if Retryable()(rows[from]) then limit - 1 else limit
    requires free == if Due(rows[from], now) then room - 1 else room
    ensures PicksFrom(rows, from, limit, room, now)
            == (if Due(rows[from], now) then [from] else []) + PicksFrom(rows, from + 1, left, free, now)
  {
    EligibleIsDue(rows[from], now);
    var ids := CandidateIds(rows, from, limit);
    if Candidate(rows[from]) {
      assert ids[0] == from && ids[1..] == CandidateIds(rows, from + 1, limit - 1);
    }
  }

  lemma NothingPicked(rows: seq<Row>, from: nat, limit: nat, room: nat, now: int)
    requires from <= |rows| && (limit == 0 || room == 0)
    ensures PicksFrom(rows, from, limit, room, now) == []
  {}

  /** One more in front of a list. */
  lemma InFront(whole: seq<nat>, here: bool, from: nat, rest: seq<nat>, i: nat)
    requires whole == (if here then [from] else []) + rest && forall k :: k in rest ==> from < k
    ensures i in whole <==> (here && i == from) || (i > from && i in rest)
  {}

  /** Due, with room for it after the rows from `from` on. */
  predicate HasRoom(rows: seq<Row>, from: nat, limit: nat, room: nat, now: int, i: nat)
    requires from <= i < |rows|
  {
    Due(rows[i], now) && Number(rows, from, i, Retryable()) < limit && Number(rows, from, i, DueAt(now)) < room
  }

  lemma RoomStep(rows: seq<Row>, from: nat, limit: nat, room: nat, now: int, i: nat, left: nat, free: nat)
    requires from < i < |rows| && limit > 0 && room > 0
    requires left == if Retryable()(rows[from]) then limit - 1 else limit
    requires free == if Due(rows[from], now) then room - 1 else room
    ensures HasRoom(rows, from, limit, room, now, i) <==> HasRoom(rows, from + 1, left, free, now, i)
  {}

  lemma RoomHere(rows: seq<Row>, from: nat, limit: nat, room: nat, now: int, i: nat)
    requires from <= i < |rows|
    ensures limit == 0 || room == 0 ==> !HasRoom(rows, from, limit, room, now, i)
    ensures from == i ==> (HasRoom(rows, from, limit, room, now, i) <==> Due(rows[i], now) && limit > 0 && room > 0)
  {}

  lemma PickHere(rows: seq<Row>, limit: nat, room: nat, now: int, i: nat)
    requires i < |rows| && rows[i].retryCount >= 0 && limit > 0 && room > 0
    ensures i in PicksFrom(rows, i, limit, room, now) <==> Due(rows[i], now)
  {
    var left := if Retryable()(rows[i]) then limit - 1 else limit;
    var free := if Due(rows[i], now) then room - 1 else room;
    PicksStepByRow(rows, i, limit, room, now, left, free);
    InFront(PicksFrom(rows, i, limit, room, now), Due(rows[i], now), i, PicksFrom(rows, i + 1, left, free, now), i);
  }

  lemma PickLater(rows: seq<Row>, from: nat, limit: nat, room: nat, now: int, i: nat, left: nat, free: nat)
    requires from < i < |rows| && rows[from].retryCount >= 0 && limit > 0 && room > 0
    requires left == if Retryable()(rows[from]) then limit - 1 else limit
    requires free == if Due(rows[from], now) then room - 1 else room
    ensures i in PicksFrom(rows, from, limit, room, now) <==> i in PicksFrom(rows, from + 1, left, free, now)
  {
    PicksStepByRow(rows, from, limit, room, now, left, free);
    InFront(PicksFrom(rows, from, limit, room, now), Due(rows[from], now), from, PicksFrom(rows, from + 1, left, free, now), i);
  }

  /** Walking down the rows with what is left of both limits. */
  predicate Reached(rows: seq<Row>, from: nat, limit: nat, room: nat, now: int, i: nat)
    requires from <= i < |rows|
    decreases |rows| - from
  {
    && limit > 0 && room > 0
    && if from == i then Due(rows[i], now)
       else Reached(rows, from + 1, if Retryable()(rows[from]) then limit - 1 else limit,
                    if Due(rows[from], now) then room - 1 else room, now, i)
  }

  lemma {:induction false} PickedIsReached(rows: seq<Row>, from: nat, limit: nat, room: nat, now: int, i: nat)
    requires from <= i < |rows| && forall j :: 0 <= j < |rows| ==> rows[j].retryCount >= 0
    ensures i in PicksFrom(rows, from, limit, room, now) <==> Reached(rows, from, limit, room, now, i)
    decreases |rows| - from
  {
    if limit == 0 || room == 0 {
      NothingPicked(rows, from, limit, room, now);
    } else if from == i {
      PickHere(rows, limit, room, now, i);
    } else {
      var left := if Retryable()(rows[from]) then limit - 1 else limit;
      var free := if Due(rows[from], now) then room - 1 else room;
      PickLater(rows, from, limit, room, now, i, left, free);
      PickedIsReached(rows, from + 1, left, free, now, i);
    }
  }

  lemma {:induction false} ReachedIsRoom(rows: seq<Row>, from: nat, limit: nat, room: nat, now: int, i: nat)
    requires from <= i < |rows|
    ensures Reached(rows, from, limit, room, now, i) <==> HasRoom(rows, from, limit, room, now, i)
    decreases |rows| - from
  {
    RoomHere(rows, from, limit, room, now, i);
    if limit > 0 && room > 0 && from < i {
      var left := if Retryable()(rows[from]) then limit - 1 else limit;
      var free := if Due(rows[from], now) then room - 1 else room;
      RoomStep(rows, from, limit, room, now, i, left, free);
      ReachedIsRoom(rows, from + 1, left, free, now, i);
    }
  }

  /** A batch takes exactly the due events with fewer than `batchSize` due events before them and fewer
      than twice as many retryable ones: waiting events can crowd out due ones, other events cannot. */
  lemma PickedExactly(rows: seq<Row>, batchSize: nat, now: int, i: nat)
    requires AllConsistent(rows) && i < |rows|
    ensures i in BatchPicks(rows, batchSize, now)
            <==> && Due(rows[i], now)
                 && Number(rows, 0, i, DueAt(now)) < batchSize
                 && Number(rows, 0, i, Retryable()) < 2 * batchSize
  {
    forall j | 0 <= j < |rows| ensures rows[j].retryCount >= 0 {
      assert Consistent(rows[j]);
    }
    PickedIsReached(rows, 0, 2 * batchSize, batchSize, now, i);
    ReachedIsRoom(rows, 0, 2 * batchSize, batchSize, now, i);
  }

  // ---------------------------------------------- batch and protocol

  /** The steps of one worker that handles one event with nobody in between. */
  function Script(a: P.AgentId, e: P.EventId, o: Outcome): seq<P.Op> {
    [P.Fetch(a, e), P.TryClaim(a)]
    + match o
      case Publishes => [P.ReadRow(a, false), P.Send(a, true), P.MarkPublished(a, true)]
      case Refuses => [P.ReadRow(a, false), P.Send(a, false), P.MarkFailed(a, true), P.Reread(a, false)]
      case RefusesThenThrows =>
        [P.ReadRow(a, false), P.Send(a, false), P.MarkFailed(a, true), P.Reread(a, true), P.MarkThrown(a)]
      case Throws => [P.ReadRow(a, true), P.MarkThrown(a)]
  }

  lemma {:induction false} RunConcat(w: P.World, xs: seq<P.Op>, ys: seq<P.Op>)
    ensures P.Run(w, xs + ys) == P.Run(P.Run(w, xs), ys)
    decreases |xs|
  {
    if xs == [] {
      assert xs + ys == ys;
    } else {
      assert (xs + ys)[1..] == xs[1..] + ys;
      RunConcat(P.Step(w, xs[0]), xs[1..], ys);
    }
  }

  lemma RunTwo(w: P.World, x: P.Op, y: P.Op)
    ensures P.Run(w, [x, y]) == P.Step(P.Step(w, x), y)
  {
    assert [x, y][1..] == [y] && [y][1..] == [];
    assert P.Run(P.Step(w, x), [y]) == P.Run(P.Step(P.Step(w, x), y), []);
  }

  lemma RunThree(w: P.World, x: P.Op, y: P.Op, z: P.Op)
    ensures P.Run(w, [x, y, z]) == P.Step(P.Step(P.Step(w, x), y), z)
  {
    assert [x, y, z][1..] == [y, z];
    RunTwo(P.Step(w, x), y, z);
  }

  /** Claimed and about to be read. */
  function Claimed(w: P.World, a: P.AgentId, e: P.EventId): P.World
    requires e in w.rows
  {
    w.(rows := w.rows[e := Claim(w.rows[e], w.now)],
       agents := w.agents[a := P.Starting(e, true, w.rows[e].retryCount, w.now)])
  }

  lemma ClaimRuns(w: P.World, a: P.AgentId, e: P.EventId)
    requires a !in w.agents && e in w.rows && w.rows[e].retryCount >= 0 && Due(w.rows[e], w.now)
    ensures P.Run(w, [P.Fetch(a, e), P.TryClaim(a)]) == Claimed(w, a, e)
  {
    EligibleIsDue(w.rows[e], w.now);
    RunTwo(w, P.Fetch(a, e), P.TryClaim(a));
    var w1 := P.Step(w, P.Fetch(a, e));
    assert w1.agents[a] == P.Fetched(e, w.rows[e].retryCount);
    assert P.Step(w1, P.TryClaim(a)).agents == Claimed(w, a, e).agents;
  }

  /** The row recorded a refusal and the status is about to be read again. */
  function Refused(w: P.World, a: P.AgentId, e: P.EventId): P.World
    requires e in w.rows
  {
    w.(rows := w.rows[e := CountFailure(w.rows[e], w.rows[e].retryCount, w.now)],
       agents := w.agents[a := P.Recounting(e, w.rows[e].retryCount)])
  }

  lemma RefusalRuns(w: P.World, a: P.AgentId, e: P.EventId)
    requires e in w.rows
    ensures P.Run(Claimed(w, a, e), [P.ReadRow(a, false), P.Send(a, false), P.MarkFailed(a, true)]) == Refused(w, a, e)
  {
    var c := Claimed(w, a, e);
    RunThree(c, P.ReadRow(a, false), P.Send(a, false), P.MarkFailed(a, true));
    var c1 := P.Step(c, P.ReadRow(a, false));
    assert c1.agents[a] == P.Sending(e, true, w.rows[e].retryCount, w.now, c.rows[e]);
    var c2 := P.Step(c1, P.Send(a, false));
    assert c2.agents[a] == P.Broken(e, true, w.rows[e].retryCount, w.now, c.rows[e]);
    var c3 := P.Step(c2, P.MarkFailed(a, true));
    assert c3.rows == Refused(w, a, e).rows && c3.agents == Refused(w, a, e).agents;
  }

  /** The world in which the event is handled and the worker gone. */
  function Settled(w: P.World, e: P.EventId, o: Outcome): P.World
    requires e in w.rows
  {
    w.(rows := w.rows[e := Handled(w.rows[e], o, w.now)],
       delivered := if o == Publishes then w.delivered + {e} else w.delivered)
  }

  /** Left alone, the protocol does with a due event what the batch says it does, whatever the outcome. */
  lemma UndisturbedIsHandled(w: P.World, a: P.AgentId, e: P.EventId, o: Outcome)
    requires a !in w.agents && e in w.rows && w.rows[e].retryCount >= 0 && Due(w.rows[e], w.now)
    ensures P.Run(w, Script(a, e, o)) == Settled(w, e, o)
  {
    var c := Claimed(w, a, e);
    ClaimRuns(w, a, e);
    RunConcat(w, [P.Fetch(a, e), P.TryClaim(a)], Script(a, e, o)[2..]);
    assert Script(a, e, o) == [P.Fetch(a, e), P.TryClaim(a)] + Script(a, e, o)[2..];
    if o == Publishes {
      PublishRuns(w, a, e);
    } else if o == Throws {
      ThrowRuns(w, a, e);
    } else {
      RefusalRuns(w, a, e);
      RunConcat(c, [P.ReadRow(a, false), P.Send(a, false), P.MarkFailed(a, true)], Script(a, e, o)[5..]);
      assert Script(a, e, o)[2..] == [P.ReadRow(a, false), P.Send(a, false), P.MarkFailed(a, true)] + Script(a, e, o)[5..];
      RecountRuns(w, a, e, o);
    }
  }

  lemma PublishRuns(w: P.World, a: P.AgentId, e: P.EventId)
    requires a !in w.agents && e in w.rows
    ensures P.Run(Claimed(w, a, e), [P.ReadRow(a, false), P.Send(a, true), P.MarkPublished(a, true)]) == Settled(w, e, Publishes)
  {
    var c := Claimed(w, a, e);
    RunThree(c, P.ReadRow(a, false), P.Send(a, true), P.MarkPublished(a, true));
    var c1 := P.Step(c, P.ReadRow(a, false));
    assert c1.agents[a] == P.Sending(e, true, w.rows[e].retryCount, w.now, c.rows[e]);
    var c2 := P.Step(c1, P.Send(a, true));
    assert c2.agents[a] == P.Sent(e, true, w.rows[e].retryCount, w.now, c.rows[e]);
    var c3 := P.Step(c2, P.MarkPublished(a, true));
    assert c3.rows == Settled(w, e, Publishes).rows && c3.agents == w.agents;
  }

  lemma ThrowRuns(w: P.World, a: P.AgentId, e: P.EventId)
    requires a !in w.agents && e in w.rows
    ensures P.Run(Claimed(w, a, e), [P.ReadRow(a, true), P.MarkThrown(a)]) == Settled(w, e, Throws)
  {
    var c := Claimed(w, a, e);
    RunTwo(c, P.ReadRow(a, true), P.MarkThrown(a));
    var c1 := P.Step(c, P.ReadRow(a, true));
    assert c1.agents[a] == P.Threw(e, true, w.rows[e].retryCount, w.now);
    var c2 := P.Step(c1, P.MarkThrown(a));
    assert c2.rows == Settled(w, e, Throws).rows && c2.agents == w.agents;
  }

  lemma RecountRuns(w: P.World, a: P.AgentId, e: P.EventId, o: Outcome)
    requires a !in w.agents && e in w.rows && (o == Refuses || o == RefusesThenThrows)
    ensures P.Run(Refused(w, a, e), Script(a, e, o)[5..]) == Settled(w, e, o)
  {
    var f := Refused(w, a, e);
    if o == Refuses {
      assert Script(a, e, o)[5..] == [P.Reread(a, false)] && [P.Reread(a, false)][1..] == [];
      assert P.Run(f, [P.Reread(a, false)]) == P.Run(P.Step(f, P.Reread(a, false)), []);
      assert P.Step(f, P.Reread(a, false)).agents == w.agents;
    } else {
      assert Script(a, e, o)[5..] == [P.Reread(a, true), P.MarkThrown(a)];
      RunTwo(f, P.Reread(a, true), P.MarkThrown(a));
      var f1 := P.Step(f, P.Reread(a, true));
      assert f1.agents[a] == P.LateThrew(e, w.rows[e].retryCount);
      var f2 := P.Step(f1, P.MarkThrown(a));
      assert f2.rows == Settled(w, e, o).rows && f2.agents == w.agents;
    }
  }

  /** The direct dispatch after a commit takes no claim; left alone it publishes an event that is not
      published yet, or records the failure. */
  lemma UndisturbedDirectIsHandled(w: P.World, a: P.AgentId, e: P.EventId, ok: bool)
    requires a !in w.agents && e in w.rows && e !in w.dispatched && w.rows[e].status != PUBLISHED
    ensures P.Run(w, [P.Direct(a, e), P.ReadRow(a, false)]
                     + if ok then [P.Send(a, true), P.MarkPublished(a, true)] else [P.Send(a, false), P.MarkFailed(a, true)])
            == Settled(w.(dispatched := w.dispatched + {e}), e, if ok then Publishes else Refuses)
  {
    var last := if ok then [P.Send(a, true), P.MarkPublished(a, true)] else [P.Send(a, false), P.MarkFailed(a, true)];
    RunConcat(w, [P.Direct(a, e), P.ReadRow(a, false)], last);
    RunTwo(w, P.Direct(a, e), P.ReadRow(a, false));
    var w1 := P.Step(w, P.Direct(a, e));
    assert w1.agents[a] == P.Starting(e, false, 0, w.now);
    var w2 := P.Step(w1, P.ReadRow(a, false));
    assert w2.agents == w.agents[a := P.Sending(e, false, 0, w.now, w.rows[e])];
    DirectSends(w2, a, e, ok);
    assert w2.agents - {a} == w.agents;
  }

  lemma DirectSends(w: P.World, a: P.AgentId, e: P.EventId, ok: bool)
    requires a in w.agents && e in w.rows && w.agents[a] == P.Sending(e, false, 0, w.now, w.rows[e])
    ensures P.Run(w, if ok then [P.Send(a, true), P.MarkPublished(a, true)] else [P.Send(a, false), P.MarkFailed(a, true)])
            == Settled(w.(agents := w.agents - {a}), e, if ok then Publishes else Refuses)
  {
    if ok {
      RunTwo(w, P.Send(a, true), P.MarkPublished(a, true));
      assert P.Step(w, P.Send(a, true)).agents[a] == P.Sent(e, false, 0, w.now, w.rows[e]);
    } else {
      RunTwo(w, P.Send(a, false), P.MarkFailed(a, true));
      assert P.Step(w, P.Send(a, false)).agents[a] == P.Broken(e, false, 0, w.now, w.rows[e]);
    }
  }
}
