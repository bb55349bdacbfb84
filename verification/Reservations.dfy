/** Concurrent reservations of cars.  Booking creation and extension confirmation each run one
    transaction: lock the car row, check, write, commit and unlock.  Lifecycle moves take no car
    lock.  The Redis lock is not modelled: nothing here relies on it. */
module Reservations {
  import opened Intervals
  import opened Bookings

  type CarId = nat
  type BookingId = nat
  type ClientId = nat
  type ExtensionId = nat

  datatype Reservation = Reservation(car: CarId, span: Interval, status: Status)

  /** The row written when an extension is quoted and ordered. */
  datatype Extension = Extension(booking: BookingId, currentEnd: int, requestedEnd: int)

  datatype Task =
    | Create(car: CarId, span: Interval)
    | Confirm(extension: ExtensionId)

  /** Where a client's transaction stands.  `Written` rows are visible to itself only. */
  datatype Client = Locked(task: Task) | Checked(task: Task) | Written(task: Task)

  datatype World = World(
    bookings: map<BookingId, Reservation>,
    extensions: map<ExtensionId, Extension>,
    locks: map<CarId, ClientId>,
    clients: map<ClientId, Client>)

  datatype Op =
    | Lock(client: ClientId, task: Task)
    | Check(client: ClientId)
    | Write(client: ClientId)
    | CommitTx(client: ClientId, newId: BookingId)
    | Abort(client: ClientId)
    | Move(booking: BookingId, next: Status)
    | Order(extension: ExtensionId, booking: BookingId, requestedEnd: int)

  predicate KnownTask(w: World, t: Task) {
    match t
    case Create(_, span) => span.Proper()
    case Confirm(e) => e in w.extensions && w.extensions[e].booking in w.bookings
  }

  function CarOf(w: World, t: Task): CarId
    requires KnownTask(w, t)
  {
    match t
    case Create(car, _) => car
    case Confirm(e) => w.bookings[w.extensions[e].booking].car
  }

  /** The two collision queries. */
  ghost predicate CheckPasses(w: World, t: Task)
    requires KnownTask(w, t)
  {
    match t
    case Create(car, span) =>
      forall b :: b in w.bookings && w.bookings[b].car == car && Reserves(w.bookings[b].status)
        ==> !Overlaps(w.bookings[b].span, span)
    case Confirm(e) =>
      var x := w.extensions[e];
      FreeOfExtensionBlockers(w, x.booking, Interval(x.currentEnd, x.requestedEnd))
  }

  ghost predicate FreeOfExtensionBlockers(w: World, b: BookingId, span: Interval)
    requires b in w.bookings
  {
    forall o :: o in w.bookings && o != b && w.bookings[o].car == w.bookings[b].car && BlocksExtension(w.bookings[o].status)
      ==> !Overlaps(w.bookings[o].span, span)
  }

  /** `getQuote`: an ongoing booking, a later end, and nothing in between. */
  ghost predicate QuotePasses(w: World, b: BookingId, requestedEnd: int) {
    && b in w.bookings
    && w.bookings[b].status == ONGOING
    && requestedEnd > w.bookings[b].span.end
    && FreeOfExtensionBlockers(w, b, Interval(w.bookings[b].span.end, requestedEnd))
  }

  function Release(w: World, c: ClientId, car: CarId): World {
    w.(clients := w.clients - {c}, locks := w.locks - {car})
  }

  function Extended(r: Reservation, x: Extension): Reservation {
    r.(span := Interval(r.span.start, x.requestedEnd))
  }

  ghost function CommitTask(w: World, c: ClientId, t: Task, newId: BookingId): World
    requires KnownTask(w, t)
  {
    match t
    case Create(car, span) =>
      if newId in w.bookings then w
      else Release(w, c, car).(bookings := w.bookings[newId := Reservation(car, span, PENDING)])
    case Confirm(e) =>
      var x := w.extensions[e];
      Release(w, c, CarOf(w, t)).(bookings := w.bookings[x.booking := Extended(w.bookings[x.booking], x)])
  }

  /** One atomic step; a step that is not enabled changes nothing. */
  ghost function Step(w: World, op: Op): World {
    match op
    case Lock(c, t) =>
      if c !in w.clients && KnownTask(w, t) && CarOf(w, t) !in w.locks
      then w.(clients := w.clients[c := Locked(t)], locks := w.locks[CarOf(w, t) := c])
      else w
    case Check(c) =>
      if c in w.clients && w.clients[c].Locked? && KnownTask(w, w.clients[c].task) then
        var t := w.clients[c].task;
        if CheckPasses(w, t) then w.(clients := w.clients[c := Checked(t)]) else Release(w, c, CarOf(w, t))
      else w
    case Write(c) =>
      if c in w.clients && w.clients[c].Checked? then w.(clients := w.clients[c := Written(w.clients[c].task)]) else w
    case CommitTx(c, newId) =>
      if c in w.clients && w.clients[c].Written? && KnownTask(w, w.clients[c].task)
      then CommitTask(w, c, w.clients[c].task, newId)
      else w
    case Abort(c) =>
      if c in w.clients && KnownTask(w, w.clients[c].task) then Release(w, c, CarOf(w, w.clients[c].task)) else w
    case Move(b, next) =>
      if b in w.bookings && Allowed(w.bookings[b].status, next)
      then w.(bookings := w.bookings[b := w.bookings[b].(status := next)])
      else w
    case Order(e, b, requestedEnd) =>
      if e !in w.extensions && QuotePasses(w, b, requestedEnd)
      then w.(extensions := w.extensions[e := Extension(b, w.bookings[b].span.end, requestedEnd)])
      else w
  }

  ghost function Run(w: World, ops: seq<Op>): World
    decreases |ops|
  {
    if ops == [] then w else Run(Step(w, ops[0]), ops[1..])
  }

  const Empty := World(map[], map[], map[], map[])

  // --------------------------------------------------------- invariants

  /** No two bookings of one car with a status in the set overlap. */
  ghost predicate Disjoint(w: World, inSet: Status -> bool) {
    forall a, b :: a in w.bookings && b in w.bookings && a != b && w.bookings[a].car == w.bookings[b].car
      && inSet(w.bookings[a].status) && inSet(w.bookings[b].status)
      ==> !Overlaps(w.bookings[a].span, w.bookings[b].span)
  }

  ghost predicate ExtensionOk(w: World, x: Extension) {
    x.booking in w.bookings && w.bookings[x.booking].span.start < x.currentEnd < x.requestedEnd
  }

  ghost predicate HoldsRow(w: World, c: ClientId)
    requires c in w.clients
  {
    var t := w.clients[c].task;
    KnownTask(w, t) && CarOf(w, t) in w.locks && w.locks[CarOf(w, t)] == c
  }

  /** A car is locked by exactly the client whose transaction names it, and a passed check stays
      true for as long as that client holds the row. */
  ghost predicate LockInv(w: World) {
    && (forall b :: b in w.bookings ==> w.bookings[b].span.Proper())
    && (forall e :: e in w.extensions ==> ExtensionOk(w, w.extensions[e]))
    && (forall c :: c in w.clients ==> HoldsRow(w, c))
    && (forall c :: c in w.clients && !w.clients[c].Locked? ==> CheckPasses(w, w.clients[c].task))
  }

  ghost predicate Inv(w: World, inSet: Status -> bool) {
    LockInv(w) && Disjoint(w, inSet)
  }

  /** The sets the two theorems are about are left but never entered by lifecycle moves, a new
      booking starts inside them, and creation checks at least against them. */
  ghost predicate Tracked(inSet: Status -> bool) {
    && (forall p, n :: Allowed(p, n) && inSet(n) ==> inSet(p))
    && inSet(PENDING)
    && forall s :: inSet(s) ==> Reserves(s)
  }

  lemma TrackedSets()
    ensures Tracked(Reserves) && Tracked(BlocksExtension)
  {}

  /** When a commit of this step may happen: never for an extension that is not clean. */
  ghost predicate StepSafe(w: World, op: Op, inSet: Status -> bool) {
    op.CommitTx? && op.client in w.clients && w.clients[op.client].Written?
    && w.clients[op.client].task.Confirm? && KnownTask(w, w.clients[op.client].task)
    ==> ConfirmSafe(w, w.extensions[w.clients[op.client].task.extension], inSet)
  }

  /** No booking of the set lies in what the confirmed extension adds. */
  ghost predicate ConfirmSafe(w: World, x: Extension, inSet: Status -> bool)
    requires x.booking in w.bookings
  {
    inSet(w.bookings[x.booking].status) ==>
      forall b :: b in w.bookings && b != x.booking && w.bookings[b].car == w.bookings[x.booking].car
        && inSet(w.bookings[b].status)
        ==> !Overlaps(w.bookings[b].span, Extended(w.bookings[x.booking], x).span)
  }

  lemma MoveKeepsInv(w: World, b: BookingId, next: Status, inSet: Status -> bool)
    requires Inv(w, inSet) && Tracked(inSet)
    ensures Inv(Step(w, Move(b, next)), inSet)
  {
    var v := Step(w, Move(b, next));
    TrackedSets();
    forall c | c in v.clients && !v.clients[c].Locked? ensures CheckPasses(v, v.clients[c].task) {
      assert CheckPasses(w, w.clients[c].task);
    }
  }

  /** A commit on one car leaves the passed checks of other cars alone. */
  lemma CommitKeepsLocks(w: World, c: ClientId, newId: BookingId)
    requires LockInv(w) && c in w.clients && w.clients[c].Written?
    ensures LockInv(CommitTask(w, c, w.clients[c].task, newId))
  {
    var t := w.clients[c].task;
    var v := CommitTask(w, c, t, newId);
    forall d | d in v.clients
      ensures HoldsRow(v, d) && (!v.clients[d].Locked? ==> CheckPasses(v, v.clients[d].task))
    {
      assert HoldsRow(w, d);
      if v != w {
        assert CarOf(w, w.clients[d].task) != CarOf(w, t);
        if !w.clients[d].Locked? { assert CheckPasses(w, w.clients[d].task); }
      }
    }
  }

  lemma CreateKeepsDisjoint(w: World, c: ClientId, newId: BookingId, inSet: Status -> bool)
    requires Inv(w, inSet) && Tracked(inSet)
    requires c in w.clients && w.clients[c].Written? && w.clients[c].task.Create?
    ensures Disjoint(CommitTask(w, c, w.clients[c].task, newId), inSet)
  {
    assert CheckPasses(w, w.clients[c].task);
  }

  lemma ConfirmKeepsDisjoint(w: World, c: ClientId, newId: BookingId, inSet: Status -> bool)
    requires Inv(w, inSet)
    requires c in w.clients && w.clients[c].Written? && w.clients[c].task.Confirm?
    requires ConfirmSafe(w, w.extensions[w.clients[c].task.extension], inSet)
    ensures Disjoint(CommitTask(w, c, w.clients[c].task, newId), inSet)
  {}

  lemma StepKeepsInv(w: World, op: Op, inSet: Status -> bool)
    requires Inv(w, inSet) && Tracked(inSet) && StepSafe(w, op, inSet)
    ensures Inv(Step(w, op), inSet)
  {
    match op
    case Move(b, next) => MoveKeepsInv(w, b, next, inSet);
    case CommitTx(c, newId) =>
      if c in w.clients && w.clients[c].Written? {
        CommitKeepsLocks(w, c, newId);
        if w.clients[c].task.Create? {
          CreateKeepsDisjoint(w, c, newId, inSet);
        } else {
          ConfirmKeepsDisjoint(w, c, newId, inSet);
        }
      }
    case Order(e, b, requestedEnd) => OrderKeepsInv(w, e, b, requestedEnd, inSet);
    case Lock(c, t) => LockKeepsInv(w, c, t, inSet);
    case _ => LocalKeepsInv(w, op, inSet);
  }

  lemma OrderKeepsInv(w: World, e: ExtensionId, b: BookingId, requestedEnd: int, inSet: Status -> bool)
    requires Inv(w, inSet)
    ensures Inv(Step(w, Order(e, b, requestedEnd)), inSet)
  {
    var v := Step(w, Order(e, b, requestedEnd));
    forall c | c in v.clients && !v.clients[c].Locked? ensures CheckPasses(v, v.clients[c].task) {
      assert CheckPasses(w, w.clients[c].task);
    }
  }

  /** Tasks read bookings and extensions only. */
  lemma TaskFrame(w: World, v: World, t: Task)
    requires v.bookings == w.bookings && v.extensions == w.extensions
    ensures KnownTask(v, t) <==> KnownTask(w, t)
    ensures KnownTask(w, t) ==> CarOf(v, t) == CarOf(w, t) && (CheckPasses(v, t) <==> CheckPasses(w, t))
  {}

  lemma ReleaseKeepsInv(w: World, c: ClientId, inSet: Status -> bool)
    requires Inv(w, inSet) && c in w.clients
    ensures KnownTask(w, w.clients[c].task)
    ensures Inv(Release(w, c, CarOf(w, w.clients[c].task)), inSet)
  {
    assert HoldsRow(w, c);
    var v := Release(w, c, CarOf(w, w.clients[c].task));
    forall d | d in v.clients
      ensures HoldsRow(v, d) && (!v.clients[d].Locked? ==> CheckPasses(v, v.clients[d].task))
    {
      assert HoldsRow(w, d);
      TaskFrame(w, v, w.clients[d].task);
    }
  }

  /** Moving one client on keeps the row locks, if its check is known to pass. */
  lemma AdvanceKeepsInv(w: World, c: ClientId, next: Client, inSet: Status -> bool)
    requires Inv(w, inSet) && c in w.clients && next.task == w.clients[c].task
    requires KnownTask(w, next.task) && CheckPasses(w, next.task)
    ensures Inv(w.(clients := w.clients[c := next]), inSet)
  {
    var v := w.(clients := w.clients[c := next]);
    forall d | d in v.clients
      ensures HoldsRow(v, d) && (!v.clients[d].Locked? ==> CheckPasses(v, v.clients[d].task))
    {
      assert HoldsRow(w, d);
      TaskFrame(w, v, w.clients[d].task);
    }
  }

  lemma LockKeepsInv(w: World, c: ClientId, t: Task, inSet: Status -> bool)
    requires Inv(w, inSet)
    ensures Inv(Step(w, Lock(c, t)), inSet)
  {
    var v := Step(w, Lock(c, t));
    if v != w {
      forall d | d in v.clients
        ensures HoldsRow(v, d) && (!v.clients[d].Locked? ==> CheckPasses(v, v.clients[d].task))
      {
        TaskFrame(w, v, v.clients[d].task);
        if d != c { assert HoldsRow(w, d); }
      }
    }
  }

  lemma LocalKeepsInv(w: World, op: Op, inSet: Status -> bool)
    requires Inv(w, inSet) && (op.Check? || op.Write? || op.Abort?)
    ensures Inv(Step(w, op), inSet)
  {
    if op.client in w.clients {
      var cl := w.clients[op.client];
      assert HoldsRow(w, op.client);
      ReleaseKeepsInv(w, op.client, inSet);
      if op.Check? && cl.Locked? && CheckPasses(w, cl.task) {
        AdvanceKeepsInv(w, op.client, Checked(cl.task), inSet);
      } else if op.Write? && cl.Checked? {
        AdvanceKeepsInv(w, op.client, Written(cl.task), inSet);
      }
    }
  }

  // --------------------------------------------------------- whole runs

  /** The extension's recorded end is not past the booking's end when it is confirmed. */
  ghost predicate Timely(w: World, op: Op) {
    op.CommitTx? && op.client in w.clients && w.clients[op.client].Written?
    && w.clients[op.client].task.Confirm? && KnownTask(w, w.clients[op.client].task)
    ==> var x := w.extensions[w.clients[op.client].task.extension];
        x.currentEnd <= w.bookings[x.booking].span.end
  }

  ghost predicate TimelyRun(w: World, ops: seq<Op>)
    decreases |ops|
  {
    ops == [] || (Timely(w, ops[0]) && TimelyRun(Step(w, ops[0]), ops[1..]))
  }

  /** Old interval and re-checked interval together cover what a timely extension claims. */
  lemma TimelyIsSafe(w: World, op: Op)
    requires Inv(w, BlocksExtension) && Timely(w, op)
    ensures StepSafe(w, op, BlocksExtension)
  {}

  lemma {:induction false} TimelyRunKeepsInv(w: World, ops: seq<Op>)
    requires Inv(w, BlocksExtension) && TimelyRun(w, ops)
    ensures Inv(Run(w, ops), BlocksExtension)
    decreases |ops|
  {
    if ops != [] {
      TrackedSets();
      TimelyIsSafe(w, ops[0]);
      StepKeepsInv(w, ops[0], BlocksExtension);
      TimelyRunKeepsInv(Step(w, ops[0]), ops[1..]);
    }
  }

  /** Creations, extensions and lifecycle moves of any number of clients in any interleaving: as
      long as extensions are confirmed timely, the four statuses an extension looks at stay
      pairwise disjoint on every car. */
  lemma ExtensionsKeepFourDisjoint(ops: seq<Op>)
    requires TimelyRun(Empty, ops)
    ensures Disjoint(Run(Empty, ops), BlocksExtension)
  {
    TimelyRunKeepsInv(Empty, ops);
  }

  lemma {:induction false} CreationRunKeepsInv(w: World, ops: seq<Op>)
    requires Inv(w, Reserves) && w.extensions == map[] && forall op :: op in ops ==> !op.Order?
    ensures Inv(Run(w, ops), Reserves)
    decreases |ops|
  {
    if ops != [] {
      TrackedSets();
      assert ops[0] in ops;
      assert StepSafe(w, ops[0], Reserves);
      StepKeepsInv(w, ops[0], Reserves);
      CreationRunKeepsInv(Step(w, ops[0]), ops[1..]);
    }
  }

  /** Without extensions all five reserving statuses stay pairwise disjoint on every car, in every
      interleaving of creations and lifecycle moves: no double booking. */
  lemma NoDoubleBooking(ops: seq<Op>)
    requires forall op :: op in ops ==> !op.Order?
    ensures Disjoint(Run(Empty, ops), Reserves)
  {
    CreationRunKeepsInv(Empty, ops);
  }

  // --------------------------------------------------------- exact conditions

  /** The confirmation of `x` about to be committed by `c`. */
  ghost predicate AboutToConfirm(w: World, c: ClientId, x: Extension) {
    && c in w.clients && w.clients[c].Written? && w.clients[c].task.Confirm?
    && KnownTask(w, w.clients[c].task) && w.extensions[w.clients[c].task.extension] == x
  }

  /** A confirmation keeps the four statuses disjoint exactly when no booking of the four lies in
      the gap between the booking's present end and the end the extension recorded. */
  lemma ConfirmationExact(w: World, c: ClientId, x: Extension)
    requires Inv(w, BlocksExtension) && AboutToConfirm(w, c, x) && BlocksExtension(w.bookings[x.booking].status)
    ensures Disjoint(CommitTask(w, c, w.clients[c].task, 0), BlocksExtension)
            <==> FreeOfExtensionBlockers(w, x.booking, Interval(w.bookings[x.booking].span.end, x.currentEnd))
  {
    assert CheckPasses(w, w.clients[c].task) && HoldsRow(w, c);
    var v := CommitTask(w, c, w.clients[c].task, 0);
    var mine := w.bookings[x.booking];
    forall b | b in w.bookings && b != x.booking && w.bookings[b].car == mine.car && BlocksExtension(w.bookings[b].status)
      ensures Overlaps(w.bookings[b].span, Extended(mine, x).span)
              <==> Overlaps(w.bookings[b].span, Interval(mine.span.end, x.currentEnd))
    {
      assert ExtensionOk(w, x);
      assert !Overlaps(w.bookings[b].span, mine.span);
    }
    if Disjoint(v, BlocksExtension) {
      forall b | b in w.bookings && b != x.booking && w.bookings[b].car == mine.car && BlocksExtension(w.bookings[b].status)
        ensures !Overlaps(w.bookings[b].span, Interval(mine.span.end, x.currentEnd))
      {
        assert v.bookings[b] == w.bookings[b] && v.bookings[x.booking] == Extended(mine, x);
      }
    }
  }

  /** A timely confirmation keeps all five statuses disjoint exactly when no booking in
      RETURN_PENDING, which the check leaves out, lies in the re-checked interval. */
  lemma ConfirmationExactForFive(w: World, c: ClientId, x: Extension)
    requires Inv(w, Reserves) && AboutToConfirm(w, c, x)
    requires Reserves(w.bookings[x.booking].status) && x.currentEnd <= w.bookings[x.booking].span.end
    ensures Disjoint(CommitTask(w, c, w.clients[c].task, 0), Reserves)
            <==> forall b :: b in w.bookings && b != x.booking && w.bookings[b].car == w.bookings[x.booking].car
                   && w.bookings[b].status == RETURN_PENDING
                   ==> !Overlaps(w.bookings[b].span, Interval(x.currentEnd, x.requestedEnd))
  {
    assert CheckPasses(w, w.clients[c].task) && HoldsRow(w, c);
    var v := CommitTask(w, c, w.clients[c].task, 0);
    var mine := w.bookings[x.booking];
    forall b | b in w.bookings && b != x.booking && w.bookings[b].car == mine.car && Reserves(w.bookings[b].status)
      ensures Overlaps(w.bookings[b].span, Extended(mine, x).span)
              <==> w.bookings[b].status == RETURN_PENDING && Overlaps(w.bookings[b].span, Interval(x.currentEnd, x.requestedEnd))
    {
      assert ExtensionOk(w, x);
      assert !Overlaps(w.bookings[b].span, mine.span);
    }
    if Disjoint(v, Reserves) {
      forall b | b in w.bookings && b != x.booking && w.bookings[b].car == mine.car && w.bookings[b].status == RETURN_PENDING
        ensures !Overlaps(w.bookings[b].span, Interval(x.currentEnd, x.requestedEnd))
      {
        assert v.bookings[b] == w.bookings[b] && v.bookings[x.booking] == Extended(mine, x);
      }
    }
  }
}
