/** When a reservation succeeds: what one uninterrupted transaction does to the bookings, said
    without its queries. */
module ReservationProgress {
  import opened Intervals
  import opened Bookings
  import opened Reservations

  /** Lock, check, write, commit, with nobody in between. */
  function Attempt(c: ClientId, t: Task, newId: BookingId): seq<Op> {
    [Lock(c, t), Check(c), Write(c), CommitTx(c, newId)]
  }

  lemma RunFour(w: World, a: Op, b: Op, c: Op, d: Op)
    ensures Run(w, [a, b, c, d]) == Step(Step(Step(Step(w, a), b), c), d)
  {
    var ops := [a, b, c, d];
    assert ops[1..] == [b, c, d] && ops[1..][1..] == [c, d] && ops[1..][1..][1..] == [d] && ops[1..][1..][1..][1..] == [];
    var w1, w2, w3 := Step(w, a), Step(Step(w, a), b), Step(Step(Step(w, a), b), c);
    assert Run(w3, [d]) == Run(Step(w3, d), []);
    assert Run(w, ops) == Run(w1, ops[1..]) == Run(w2, ops[1..][1..]) == Run(w3, [d]);
  }

  /** The client is not busy and nobody holds the row it needs. */
  ghost predicate MayLock(w: World, c: ClientId, t: Task) {
    c !in w.clients && KnownTask(w, t) && CarOf(w, t) !in w.locks
  }

  /** What a transaction whose query finds nothing leaves behind. */
  ghost function After(w: World, t: Task, newId: BookingId): World
    requires KnownTask(w, t)
  {
    match t
    case Create(car, span) => w.(bookings := w.bookings[newId := Reservation(car, span, PENDING)])
    case Confirm(e) =>
      var x := w.extensions[e];
      w.(bookings := w.bookings[x.booking := Extended(w.bookings[x.booking], x)])
  }

  lemma RefusedRuns(w: World, c: ClientId, t: Task, newId: BookingId)
    requires MayLock(w, c, t) && !CheckPasses(w, t)
    ensures Run(w, Attempt(c, t, newId)) == w
  {
    RunFour(w, Lock(c, t), Check(c), Write(c), CommitTx(c, newId));
    var w1 := Step(w, Lock(c, t));
    TaskFrame(w, w1, t);
    assert w1.clients - {c} == w.clients && w1.locks - {CarOf(w, t)} == w.locks;
    assert Step(w1, Check(c)) == w;
  }

  function At(w: World, c: ClientId, g: Client): World {
    w.(clients := w.clients[c := g])
  }

  lemma ChecksAndWrites(w: World, c: ClientId, t: Task)
    requires c in w.clients && w.clients[c] == Locked(t) && KnownTask(w, t) && CheckPasses(w, t)
    ensures Step(Step(w, Check(c)), Write(c)) == At(w, c, Written(t))
  {
    assert Step(w, Check(c)) == At(w, c, Checked(t));
    assert w.clients[c := Checked(t)][c := Written(t)] == w.clients[c := Written(t)];
  }

  lemma Commits(w: World, c: ClientId, t: Task, newId: BookingId)
    requires MayLock(w, c, t) && (t.Create? ==> newId !in w.bookings)
    ensures var v := w.(clients := w.clients[c := Written(t)], locks := w.locks[CarOf(w, t) := c]);
            Step(v, CommitTx(c, newId)) == After(w, t, newId)
  {
    var v := w.(clients := w.clients[c := Written(t)], locks := w.locks[CarOf(w, t) := c]);
    assert v.clients - {c} == w.clients && v.locks - {CarOf(w, t)} == w.locks;
    assert Step(v, CommitTx(c, newId)) == CommitTask(v, c, t, newId);
  }

  lemma AcceptedRuns(w: World, c: ClientId, t: Task, newId: BookingId)
    requires MayLock(w, c, t) && CheckPasses(w, t) && (t.Create? ==> newId !in w.bookings)
    ensures Run(w, Attempt(c, t, newId)) == After(w, t, newId)
  {
    RunFour(w, Lock(c, t), Check(c), Write(c), CommitTx(c, newId));
    var w1 := Step(w, Lock(c, t));
    TaskFrame(w, w1, t);
    ChecksAndWrites(w1, c, t);
    assert w1.clients[c := Written(t)] == w.clients[c := Written(t)];
    Commits(w, c, t, newId);
  }

  lemma AttemptRuns(w: World, c: ClientId, t: Task, newId: BookingId)
    requires MayLock(w, c, t) && (t.Create? ==> newId !in w.bookings)
    ensures Run(w, Attempt(c, t, newId)) == if CheckPasses(w, t) then After(w, t, newId) else w
  {
    if CheckPasses(w, t) {
      AcceptedRuns(w, c, t, newId);
    } else {
      RefusedRuns(w, c, t, newId);
    }
  }

  /** The two intervals have an instant in common. */
  ghost predicate Meet(a: Interval, b: Interval) {
    exists t :: a.Contains(t) && b.Contains(t)
  }

  /** No reserving booking of the car shares an instant with the interval. */
  ghost predicate NobodyThere(w: World, car: CarId, span: Interval) {
    forall b :: b in w.bookings && w.bookings[b].car == car
      && w.bookings[b].status in {PENDING, CONFIRMED, HANDOVER_READY, ONGOING, RETURN_PENDING}
      ==> !Meet(w.bookings[b].span, span)
  }

  /** A booking is made exactly when no PENDING, CONFIRMED, HANDOVER_READY, ONGOING or RETURN_PENDING
      booking of the car shares an instant with it; a refused one leaves no trace. */
  lemma CreationExact(w: World, c: ClientId, car: CarId, span: Interval, id: BookingId)
    requires LockInv(w) && c !in w.clients && car !in w.locks && span.Proper() && id !in w.bookings
    ensures Run(w, Attempt(c, Create(car, span), id))
            == if NobodyThere(w, car, span) then w.(bookings := w.bookings[id := Reservation(car, span, PENDING)]) else w
  {
    AttemptRuns(w, c, Create(car, span), id);
    forall b | b in w.bookings ensures Overlaps(w.bookings[b].span, span) <==> Meet(w.bookings[b].span, span) {
      OverlapIsSharedInstant(w.bookings[b].span, span);
    }
  }

  /** An extension is confirmed exactly when no other booking of the car in one of four statuses
      shares an instant with the time between the recorded ends; RETURN_PENDING does not count. */
  lemma ConfirmationRuns(w: World, c: ClientId, e: ExtensionId, id: BookingId)
    requires LockInv(w) && c !in w.clients && e in w.extensions
    requires ExtensionOk(w, w.extensions[e]) && w.bookings[w.extensions[e].booking].car !in w.locks
    ensures var x := w.extensions[e];
            var was := w.bookings[x.booking];
            var confirmed := forall b :: b in w.bookings && b != x.booking && w.bookings[b].car == was.car
                               && w.bookings[b].status in {PENDING, CONFIRMED, HANDOVER_READY, ONGOING}
                               ==> !Meet(w.bookings[b].span, Interval(x.currentEnd, x.requestedEnd));
            Run(w, Attempt(c, Confirm(e), id))
            == if confirmed
               then w.(bookings := w.bookings[x.booking := Reservation(was.car, Interval(was.span.start, x.requestedEnd), was.status)])
               else w
  {
    AttemptRuns(w, c, Confirm(e), id);
    var added := Interval(w.extensions[e].currentEnd, w.extensions[e].requestedEnd);
    forall b | b in w.bookings ensures Overlaps(w.bookings[b].span, added) <==> Meet(w.bookings[b].span, added) {
      OverlapIsSharedInstant(w.bookings[b].span, added);
    }
  }

  /** An extension is ordered exactly for an ONGOING booking and a later end with nothing of those four
      statuses in between. */
  lemma OrderExact(w: World, e: ExtensionId, b: BookingId, requestedEnd: int)
    requires LockInv(w) && b in w.bookings && e !in w.extensions
    ensures var end := w.bookings[b].span.end;
            var ordered := w.bookings[b].status == ONGOING && requestedEnd > end
                           && forall o :: o in w.bookings && o != b && w.bookings[o].car == w.bookings[b].car
                                && w.bookings[o].status in {PENDING, CONFIRMED, HANDOVER_READY, ONGOING}
                                ==> !Meet(w.bookings[o].span, Interval(end, requestedEnd));
            Step(w, Order(e, b, requestedEnd))
            == if ordered then w.(extensions := w.extensions[e := Extension(b, end, requestedEnd)]) else w
  {
    var added := Interval(w.bookings[b].span.end, requestedEnd);
    if added.Proper() {
      forall o | o in w.bookings ensures Overlaps(w.bookings[o].span, added) <==> Meet(w.bookings[o].span, added) {
        OverlapIsSharedInstant(w.bookings[o].span, added);
      }
    }
  }

  /** Where a reserving booking has ended nobody else is. */
  lemma PlaceIsFree(w: World, b: BookingId, next: Status, span: Interval)
    requires Inv(w, Reserves) && b in w.bookings && Reserves(w.bookings[b].status) && span.Proper()
    requires w.bookings[b].span.start <= span.start && span.end <= w.bookings[b].span.end && !Reserves(next)
    ensures NobodyThere(w.(bookings := w.bookings[b := w.bookings[b].(status := next)]), w.bookings[b].car, span)
  {
    forall o, t | o in w.bookings && o != b && w.bookings[o].car == w.bookings[b].car && Reserves(w.bookings[o].status)
                  && w.bookings[o].span.Contains(t)
      ensures !span.Contains(t)
    {
      assert !Overlaps(w.bookings[o].span, w.bookings[b].span);
    }
  }

  lemma TakenTime(w: World, b: BookingId, c: ClientId, span: Interval, id: BookingId)
    requires LockInv(w) && b in w.bookings && id !in w.bookings && span.Proper()
    requires w.bookings[b].status in {PENDING, CONFIRMED, HANDOVER_READY, ONGOING, RETURN_PENDING}
    requires w.bookings[b].span.start <= span.start && span.end <= w.bookings[b].span.end
    requires c !in w.clients && w.bookings[b].car !in w.locks
    ensures Run(w, Attempt(c, Create(w.bookings[b].car, span), id)) == w
  {
    assert w.bookings[b].span.Contains(span.start) && span.Contains(span.start);
    assert Meet(w.bookings[b].span, span);
    CreationExact(w, c, w.bookings[b].car, span, id);
  }

  /** A reserving booking keeps everybody out of its time, and once it is CANCELLED, EXPIRED or
      COMPLETED that time can be booked again. */
  lemma EndedBookingFreesItsTime(w: World, b: BookingId, next: Status, c: ClientId, span: Interval, id: BookingId)
    requires Inv(w, Reserves) && b in w.bookings && id !in w.bookings && span.Proper()
    requires w.bookings[b].status in {PENDING, CONFIRMED, HANDOVER_READY, ONGOING, RETURN_PENDING}
    requires w.bookings[b].span.start <= span.start && span.end <= w.bookings[b].span.end
    requires c !in w.clients && w.bookings[b].car !in w.locks
    requires next in {CANCELLED, EXPIRED, COMPLETED} && Allowed(w.bookings[b].status, next)
    ensures Run(w, Attempt(c, Create(w.bookings[b].car, span), id)) == w
    ensures var v := Step(w, Move(b, next));
            Run(v, Attempt(c, Create(w.bookings[b].car, span), id))
            == v.(bookings := v.bookings[id := Reservation(w.bookings[b].car, span, PENDING)])
  {
    TakenTime(w, b, c, span, id);
    FreedTime(w, b, next, c, span, id);
  }

  lemma FreedTime(w: World, b: BookingId, next: Status, c: ClientId, span: Interval, id: BookingId)
    requires Inv(w, Reserves) && b in w.bookings && id !in w.bookings && span.Proper()
    requires Reserves(w.bookings[b].status) && !Reserves(next) && Allowed(w.bookings[b].status, next)
    requires w.bookings[b].span.start <= span.start && span.end <= w.bookings[b].span.end
    requires c !in w.clients && w.bookings[b].car !in w.locks
    ensures var v := Step(w, Move(b, next));
            Run(v, Attempt(c, Create(w.bookings[b].car, span), id))
            == v.(bookings := v.bookings[id := Reservation(w.bookings[b].car, span, PENDING)])
  {
    var v := Step(w, Move(b, next));
    assert LockInv(v) by {
      TrackedSets();
      MoveKeepsInv(w, b, next, Reserves);
    }
    PlaceIsFree(w, b, next, span);
    CreationExact(v, c, w.bookings[b].car, span, id);
  }
}
