/** Concrete runs showing that the two limits on extensions are real: a stale recorded end, and a
    neighbour in RETURN_PENDING, each lead to overlapping bookings. */
module ReservationWitnesses {
  import opened Intervals
  import opened Bookings
  import opened Reservations
  import opened ReservationProgress

  const CAR: CarId := 0
  const CLIENT: ClientId := 0

  lemma {:induction false} RunConcat(w: World, a: seq<Op>, b: seq<Op>)
    ensures Run(w, a + b) == Run(Run(w, a), b)
    decreases |a|
  {
    if a == [] {
      assert a + b == b;
    } else {
      assert (a + b)[1..] == a[1..] + b;
      RunConcat(Step(w, a[0]), a[1..], b);
    }
  }

  ghost predicate Quiet(w: World) {
    w.clients == map[] && w.locks == map[]
  }

  lemma OneStep(w: World, op: Op)
    ensures Run(w, [op]) == Step(w, op)
  {
    assert [op][1..] == [];
  }

  /** A world reached by some run from the empty one. */
  ghost predicate Reachable(w: World) {
    exists ops :: Run(Empty, ops) == w
  }

  lemma ReachTransaction(w: World, t: Task, newId: BookingId)
    requires Reachable(w) && Quiet(w) && KnownTask(w, t) && CheckPasses(w, t)
    requires t.Create? ==> newId !in w.bookings
    ensures Reachable(After(w, t, newId)) && Quiet(After(w, t, newId))
  {
    var ops :| Run(Empty, ops) == w;
    RunConcat(Empty, ops, Attempt(CLIENT, t, newId));
    AttemptRuns(w, CLIENT, t, newId);
    assert Run(Empty, ops + Attempt(CLIENT, t, newId)) == After(w, t, newId);
  }

  lemma ReachStep(w: World, op: Op)
    requires Reachable(w)
    ensures Reachable(Step(w, op))
  {
    var ops :| Run(Empty, ops) == w;
    RunConcat(Empty, ops, [op]);
    OneStep(w, op);
    assert Run(Empty, ops + [op]) == Step(w, op);
  }

  /** Creates booking `id` and moves it to ONGOING. */
  lemma ReachOngoing(w: World, id: BookingId, span: Interval) returns (v: World)
    requires Reachable(w) && Quiet(w) && span.Proper() && id !in w.bookings && CheckPasses(w, Create(CAR, span))
    ensures v == w.(bookings := w.bookings[id := Reservation(CAR, span, ONGOING)])
    ensures Reachable(v) && Quiet(v)
  {
    ReachTransaction(w, Create(CAR, span), id);
    var w1 := After(w, Create(CAR, span), id);
    ReachStep(w1, Move(id, CONFIRMED));
    var w2 := Step(w1, Move(id, CONFIRMED));
    ReachStep(w2, Move(id, ONGOING));
    v := Step(w2, Move(id, ONGOING));
    assert v.bookings == w.bookings[id := Reservation(CAR, span, ONGOING)];
  }

  lemma ReachOrder(w: World, e: ExtensionId, b: BookingId, requestedEnd: int) returns (v: World)
    requires Reachable(w) && Quiet(w) && e !in w.extensions && QuotePasses(w, b, requestedEnd)
    ensures v == w.(extensions := w.extensions[e := Extension(b, w.bookings[b].span.end, requestedEnd)])
    ensures Reachable(v) && Quiet(v)
  {
    ReachStep(w, Order(e, b, requestedEnd));
    v := Step(w, Order(e, b, requestedEnd));
  }

  lemma EmptyReachable()
    ensures Reachable(Empty) && Quiet(Empty)
  {
    assert Run(Empty, []) == Empty;
  }

  /** Two extensions ordered early are confirmed out of order: the first to 20, then the second
      shrinks the booking to 12.  A booking takes [13, 18), and a third extension, recorded from 20,
      then claims [0, 30). */
  lemma StaleEndDoubleBooks()
    ensures exists w :: Reachable(w) && !Disjoint(w, BlocksExtension)
  {
    EmptyReachable();
    var w := ReachOngoing(Empty, 0, Interval(0, 10));
    w := ReachOrder(w, 1, 0, 20);
    w := ReachOrder(w, 2, 0, 12);
    ReachTransaction(w, Confirm(1), 0);
    w := After(w, Confirm(1), 0);
    w := ReachOrder(w, 3, 0, 30);
    ReachTransaction(w, Confirm(2), 0);
    w := After(w, Confirm(2), 0);
    ReachTransaction(w, Create(CAR, Interval(13, 18)), 1);
    w := After(w, Create(CAR, Interval(13, 18)), 1);
    ReachTransaction(w, Confirm(3), 0);
    w := After(w, Confirm(3), 0);
    assert w.bookings[0].span == Interval(0, 30) && w.bookings[1].span == Interval(13, 18);
    assert Overlaps(w.bookings[0].span, w.bookings[1].span);
  }

  /** A timely extension still runs into a neighbour in RETURN_PENDING. */
  lemma ReturnPendingDoubleBooks()
    ensures exists w :: Reachable(w) && !Disjoint(w, Reserves)
  {
    EmptyReachable();
    var w := ReachOngoing(Empty, 1, Interval(10, 20));
    ReachStep(w, Move(1, RETURN_PENDING));
    w := Step(w, Move(1, RETURN_PENDING));
    w := ReachOngoing(w, 0, Interval(0, 10));
    w := ReachOrder(w, 1, 0, 15);
    ReachTransaction(w, Confirm(1), 0);
    w := After(w, Confirm(1), 0);
    assert w.bookings[0].span == Interval(0, 15) && w.bookings[1].span == Interval(10, 20);
    assert Overlaps(w.bookings[0].span, w.bookings[1].span);
  }
}
