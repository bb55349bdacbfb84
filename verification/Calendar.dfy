/** Holds, blocks and bookings of the fleet.  Every operation below runs under the lock of its
    car, so each is one step; time only moves forward. */
module Calendar {
  import opened Intervals
  import opened Bookings
  import opened Options

  type CarId = nat
  type UserId = nat
  type BlockId = nat

  datatype HoldStatus = ACTIVE | RELEASED | EXPIRED | CONVERTED

  /** `eligible` stands for the static checks: listed, operational, verified, vendor verified. */
  datatype Car = Car(vendor: UserId, eligible: bool, blockedDates: seq<int>)
  datatype Booking = Booking(car: CarId, customer: UserId, span: Interval, status: Status)
  datatype Block = Block(id: BlockId, car: CarId, vendor: UserId, span: Interval)
  datatype Hold = Hold(car: CarId, customer: UserId, span: Interval, expiresAt: int, status: HoldStatus, key: Option<nat>)

  datatype Conflict = ByBooking(index: nat) | ByBlock(id: BlockId) | ByHold(index: nat) | ByBlockedDate

  datatype Snapshot = Snapshot(
    now: int,
    cars: map<CarId, Car>,
    bookings: seq<Booking>,
    blocks: seq<Block>,
    holds: seq<Hold>)

  const SAFETY_HOLD_MS := 7 * 24 * 60 * 60 * 1000

  // ------------------------------------------------------------ predicates

  predicate Live(h: Hold, now: int) {
    h.status == ACTIVE && h.expiresAt > now
  }

  predicate BookingClash(b: Booking, car: CarId, span: Interval) {
    b.car == car && Reserves(b.status) && Overlaps(b.span, span)
  }

  predicate BlockClash(k: Block, car: CarId, span: Interval) {
    k.car == car && Overlaps(k.span, span)
  }

  /** A live hold stands in the way of everybody but its owner. */
  predicate HoldClash(h: Hold, now: int, car: CarId, span: Interval, actor: Option<UserId>) {
    h.car == car && Live(h, now) && Overlaps(h.span, span) && actor != Some(h.customer)
  }

  /** Blocked dates count with both ends of the interval included. */
  predicate DateClash(dates: seq<int>, span: Interval) {
    exists d :: d in dates && span.start <= d <= span.end
  }

  ghost predicate Clear(s: Snapshot, car: CarId, span: Interval, actor: Option<UserId>)
    requires car in s.cars
  {
    && (forall b :: b in s.bookings ==> !BookingClash(b, car, span))
    && (forall k :: k in s.blocks ==> !BlockClash(k, car, span))
    && (forall h :: h in s.holds ==> !HoldClash(h, s.now, car, span, actor))
    && !DateClash(s.cars[car].blockedDates, span)
  }

  /** The same without any of the queries: a booking of five statuses, a block, a live hold of
      somebody else ends before the interval starts or starts when it has ended, and a blocked date is
      not in it, both ends included. */
  ghost predicate Free(s: Snapshot, car: CarId, span: Interval, actor: Option<UserId>)
    requires car in s.cars
  {
    && (forall b :: b in s.bookings && b.car == car
          && (b.status == PENDING || b.status == CONFIRMED || b.status == HANDOVER_READY || b.status == ONGOING
              || b.status == RETURN_PENDING)
          ==> b.span.end <= span.start || span.end <= b.span.start)
    && (forall k :: k in s.blocks && k.car == car ==> k.span.end <= span.start || span.end <= k.span.start)
    && (forall h :: h in s.holds && h.car == car && h.status == ACTIVE && s.now < h.expiresAt
          && (actor.None? || h.customer != actor.value)
          ==> h.span.end <= span.start || span.end <= h.span.start)
    && DatesOutside(s.cars[car].blockedDates, span)
  }

  predicate DatesOutside(dates: seq<int>, span: Interval) {
    forall d :: d in dates ==> d < span.start || d > span.end
  }

  /** What the four deciders query is what keeps the car free. */
  lemma ClearIsFree(s: Snapshot, car: CarId, span: Interval, actor: Option<UserId>)
    requires car in s.cars
    ensures Clear(s, car, span, actor) <==> Free(s, car, span, actor)
  {
    if Clear(s, car, span, actor) {
      forall b | b in s.bookings && b.car == car && Reserves(b.status)
        ensures b.span.end <= span.start || span.end <= b.span.start
      {
        assert !BookingClash(b, car, span);
      }
      forall k | k in s.blocks && k.car == car ensures k.span.end <= span.start || span.end <= k.span.start {
        assert !BlockClash(k, car, span);
      }
      forall h | h in s.holds && h.car == car && Live(h, s.now) && actor != Some(h.customer)
        ensures h.span.end <= span.start || span.end <= h.span.start
      {
        assert !HoldClash(h, s.now, car, span, actor);
      }
    }
  }

  lemma ClashOrOutside(dates: seq<int>, span: Interval)
    ensures DateClash(dates, span) <==> !DatesOutside(dates, span)
  {}

  /** Time that is free is free in every part: a longer interval never clears a clash. */
  lemma PartsAreFree(s: Snapshot, car: CarId, span: Interval, part: Interval, actor: Option<UserId>)
    requires car in s.cars && Clear(s, car, span, actor)
    requires span.start <= part.start && part.end <= span.end
    ensures Clear(s, car, part, actor)
  {
    ClearIsFree(s, car, span, actor);
    ClearIsFree(s, car, part, actor);
  }

  /** Searching without a customer differs from deciding for a customer in one thing only: the
      customer's own live holds. */
  lemma SearchAndCheckAgree(s: Snapshot, car: CarId, span: Interval, customer: UserId)
    requires car in s.cars
    ensures Clear(s, car, span, None)
            <==> Clear(s, car, span, Some(customer))
                 && forall h :: h in s.holds && h.customer == customer && h.car == car && Live(h, s.now)
                      ==> !Overlaps(h.span, span)
  {}

  // ------------------------------------------------------------ invariant

  ghost predicate BookingsDisjoint(bookings: seq<Booking>) {
    forall i, j :: 0 <= i < j < |bookings| && Reserves(bookings[i].status)
      ==> !BookingClash(bookings[j], bookings[i].car, bookings[i].span)
  }

  ghost predicate HoldsDisjoint(holds: seq<Hold>, now: int) {
    forall g, h :: g in holds && h in holds && Live(g, now)
      ==> !HoldClash(h, now, g.car, g.span, Some(g.customer))
  }

  ghost predicate BookingsClearOfHolds(bookings: seq<Booking>, holds: seq<Hold>, now: int) {
    forall b, h :: b in bookings && h in holds && Live(h, now) ==> !BookingClash(b, h.car, h.span)
  }

  ghost predicate BookingsClearOfBlocks(bookings: seq<Booking>, blocks: seq<Block>) {
    forall b, k :: b in bookings && k in blocks ==> !BookingClash(b, k.car, k.span)
  }

  ghost predicate KeysUnique(holds: seq<Hold>) {
    forall i, j :: 0 <= i < j < |holds| && holds[i].key.Some? ==> holds[i].key != holds[j].key
  }

  ghost predicate Safe(s: Snapshot) {
    && BookingsDisjoint(s.bookings)
    && HoldsDisjoint(s.holds, s.now)
    && BookingsClearOfHolds(s.bookings, s.holds, s.now)
    && BookingsClearOfBlocks(s.bookings, s.blocks)
    && KeysUnique(s.holds)
  }

  // ------------------------------------------------------------ row changes

  function Converted(h: Hold, car: CarId, customer: UserId): Hold {
    if h.car == car && h.customer == customer && h.status == ACTIVE then h.(status := CONVERTED) else h
  }

  /** `updateMany`: every ACTIVE hold of the customer on the car. */
  function ConvertHolds(holds: seq<Hold>, car: CarId, customer: UserId): (r: seq<Hold>)
    ensures |r| == |holds| && forall i :: 0 <= i < |r| ==> r[i] == Converted(holds[i], car, customer)
  {
    seq(|holds|, i requires 0 <= i < |holds| => Converted(holds[i], car, customer))
  }

  function WithoutBlock(blocks: seq<Block>, id: BlockId): (r: seq<Block>)
    ensures forall k :: k in r <==> k in blocks && k.id != id
  {
    if blocks == [] then []
    else if blocks[0].id == id then WithoutBlock(blocks[1..], id)
    else [blocks[0]] + WithoutBlock(blocks[1..], id)
  }

  ghost predicate UniqueIds(blocks: seq<Block>) {
    forall i, j :: 0 <= i < j < |blocks| ==> blocks[i].id != blocks[j].id
  }

  lemma PrependUnique(k: Block, rest: seq<Block>)
    requires UniqueIds(rest) && forall x :: x in rest ==> x.id != k.id
    ensures UniqueIds([k] + rest)
  {
    var more := [k] + rest;
    forall i, j | 0 <= i < j < |more| ensures more[i].id != more[j].id {
      assert more[j] == rest[j - 1] && rest[j - 1] in rest;
      assert i > 0 ==> more[i] == rest[i - 1];
    }
  }

  lemma TailUnique(blocks: seq<Block>)
    requires blocks != [] && UniqueIds(blocks)
    ensures UniqueIds(blocks[1..]) && forall x :: x in blocks[1..] ==> x.id != blocks[0].id
  {
    forall i, j | 0 <= i < j < |blocks| - 1 ensures blocks[1..][i].id != blocks[1..][j].id {
      assert blocks[i + 1].id != blocks[j + 1].id;
    }
    forall x | x in blocks[1..] ensures x.id != blocks[0].id {
      var i :| 0 <= i < |blocks[1..]| && blocks[1..][i] == x;
      assert blocks[i + 1] == x;
    }
  }

  lemma {:induction false} WithoutBlockUnique(blocks: seq<Block>, id: BlockId)
    requires UniqueIds(blocks)
    ensures UniqueIds(WithoutBlock(blocks, id))
  {
    if blocks != [] {
      TailUnique(blocks);
      WithoutBlockUnique(blocks[1..], id);
      if blocks[0].id != id {
        PrependUnique(blocks[0], WithoutBlock(blocks[1..], id));
      }
    }
  }

  lemma RemoveBlockSafe(s: Snapshot, id: BlockId)
    requires Safe(s) && AllProper(s)
    ensures Safe(s.(blocks := WithoutBlock(s.blocks, id))) && AllProper(s.(blocks := WithoutBlock(s.blocks, id)))
  {}

  lemma IdNamesOne(blocks: seq<Block>, i: int)
    requires UniqueIds(blocks) && 0 <= i < |blocks|
    ensures forall k :: k in blocks && k.id == blocks[i].id ==> k == blocks[i]
  {
    forall k | k in blocks && k.id == blocks[i].id ensures k == blocks[i] {
      var j :| 0 <= j < |blocks| && blocks[j] == k;
    }
  }

  lemma AddBookingSafe(s: Snapshot, b: Booking)
    requires Safe(s) && b.car in s.cars && Clear(s, b.car, b.span, Some(b.customer))
    ensures Safe(s.(bookings := s.bookings + [b], holds := ConvertHolds(s.holds, b.car, b.customer)))
  {
    var holds := ConvertHolds(s.holds, b.car, b.customer);
    forall h | h in holds && Live(h, s.now)
      ensures h in s.holds && !(h.car == b.car && h.customer == b.customer)
    {
      var i :| 0 <= i < |holds| && holds[i] == h;
      assert s.holds[i] == h;
    }
    forall x, h | x in s.bookings + [b] && h in holds && Live(h, s.now) ensures !BookingClash(x, h.car, h.span) {
      if x == b && h.car == b.car {
        assert !HoldClash(h, s.now, b.car, b.span, Some(b.customer));
      }
    }
    var more := s.bookings + [b];
    forall i, j | 0 <= i < j < |more| && Reserves(more[i].status) ensures !BookingClash(more[j], more[i].car, more[i].span) {
      if j == |s.bookings| {
        assert s.bookings[i] in s.bookings;
        assert !BookingClash(s.bookings[i], b.car, b.span);
      }
    }
    forall i, j | 0 <= i < j < |holds| && holds[i].key.Some? ensures holds[i].key != holds[j].key {
      assert s.holds[i].key == holds[i].key && s.holds[j].key == holds[j].key;
    }
  }

  lemma AddHoldSafe(s: Snapshot, h: Hold)
    requires Safe(s) && h.car in s.cars && Clear(s, h.car, h.span, Some(h.customer))
    requires h.key.Some? ==> forall g :: g in s.holds ==> g.key != h.key
    ensures Safe(s.(holds := s.holds + [h]))
  {}

  lemma LaterStillSafe(s: Snapshot, later: int)
    requires Safe(s) && s.now <= later
    ensures Safe(s.(now := later))
  {}

  /** Giving a hold a final status keeps everything safe. */
  lemma EndHoldSafe(s: Snapshot, i: int, status: HoldStatus)
    requires Safe(s) && 0 <= i < |s.holds| && status != ACTIVE
    ensures Safe(s.(holds := s.holds[i := s.holds[i].(status := status)]))
  {
    var holds := s.holds[i := s.holds[i].(status := status)];
    forall h | h in holds && Live(h, s.now) ensures h in s.holds {}
    forall g, h | g in holds && h in holds && Live(g, s.now)
      ensures !HoldClash(h, s.now, g.car, g.span, Some(g.customer))
    {
      if Live(h, s.now) { assert !HoldClash(h, s.now, g.car, g.span, Some(g.customer)); }
    }
  }

  lemma MoveSafe(s: Snapshot, i: int, next: Status)
    requires Safe(s) && 0 <= i < |s.bookings| && Allowed(s.bookings[i].status, next)
    ensures Safe(s.(bookings := s.bookings[i := s.bookings[i].(status := next)]))
  {
    var moved := s.bookings[i := s.bookings[i].(status := next)];
    assert Reserves(next) ==> Reserves(s.bookings[i].status);
    assert s.bookings[i] in s.bookings;
    forall b | b in moved ensures b in s.bookings || b == moved[i] {}
    forall a, b | 0 <= a < b < |moved| && Reserves(moved[a].status)
      ensures !BookingClash(moved[b], moved[a].car, moved[a].span)
    {
      assert !BookingClash(s.bookings[b], s.bookings[a].car, s.bookings[a].span);
    }
    forall car, span | !BookingClash(s.bookings[i], car, span) ensures !BookingClash(moved[i], car, span) {}
  }

  /** A block may be added exactly when no reserving booking meets it. */
  lemma AddBlockExact(s: Snapshot, k: Block)
    requires Safe(s)
    ensures Safe(s.(blocks := s.blocks + [k])) <==> forall b :: b in s.bookings ==> !BookingClash(b, k.car, k.span)
  {
    assert k in s.blocks + [k];
  }

  /** Completing a trip with damage blocks the car for seven days without looking at bookings.  It
      is safe exactly when no other reserving booking of the car meets those days. */
  lemma DamagedCompletionExact(s: Snapshot, i: int, id: BlockId, vendor: UserId)
    requires Safe(s) && 0 <= i < |s.bookings| && Allowed(s.bookings[i].status, COMPLETED)
    ensures var hold := Interval(s.now, s.now + SAFETY_HOLD_MS);
            var done := s.bookings[i := s.bookings[i].(status := COMPLETED)];
            Safe(s.(bookings := done, blocks := s.blocks + [Block(id, s.bookings[i].car, vendor, hold)]))
            <==> forall j :: 0 <= j < |s.bookings| && j != i ==> !BookingClash(s.bookings[j], s.bookings[i].car, hold)
  {
    var hold := Interval(s.now, s.now + SAFETY_HOLD_MS);
    var t := s.(bookings := s.bookings[i := s.bookings[i].(status := COMPLETED)]);
    MoveSafe(s, i, COMPLETED);
    AddBlockExact(t, Block(id, s.bookings[i].car, vendor, hold));
    assert forall j :: 0 <= j < |s.bookings| && j != i ==> t.bookings[j] == s.bookings[j];
    assert forall j :: 0 <= j < |s.bookings| && j != i ==> t.bookings[j] in t.bookings;
  }

  /** `startMaintenance` looks at three of the five reserving statuses.  When its own check passes
      without an override, the block is safe exactly when no PENDING or RETURN_PENDING booking
      meets the window. */
  lemma MaintenanceBlockExact(s: Snapshot, k: Block)
    requires Safe(s)
    requires forall b :: b in s.bookings && b.status in {CONFIRMED, HANDOVER_READY, ONGOING} ==> !BookingClash(b, k.car, k.span)
    ensures Safe(s.(blocks := s.blocks + [k]))
            <==> forall b :: b in s.bookings && b.status in {PENDING, RETURN_PENDING} ==> !BookingClash(b, k.car, k.span)
  {
    AddBlockExact(s, k);
  }

  /** Whether a block begins in what an extension to `newEnd` adds to a booking.  One that ends before
      it begins, as a maintenance with a return date in the past leaves it, counts only while it ends
      after the booking's start. */
  predicate BlockInWay(k: Block, b: Booking, newEnd: int) {
    k.car == b.car && b.span.end <= k.span.start < newEnd && b.span.start < k.span.end
  }

  /** Of a proper block clear of the booking, that is to meet the added part. */
  lemma ProperBlockInWay(k: Block, b: Booking, newEnd: int)
    requires b.span.Proper() && k.span.Proper() && !BlockClash(k, b.car, b.span)
    ensures BlockInWay(k, b, newEnd) <==> BlockClash(k, b.car, Interval(b.span.end, newEnd))
  {}

  /** Whether what an extension to `newEnd` adds to booking `i` meets anything that reserves the car:
      another booking of the five statuses, a block, or a live hold. */
  ghost predicate RoomToExtend(s: Snapshot, i: int, newEnd: int)
    requires 0 <= i < |s.bookings|
  {
    var b := s.bookings[i];
    var added := Interval(b.span.end, newEnd);
    && (forall j :: 0 <= j < |s.bookings| && j != i ==> !BookingClash(s.bookings[j], b.car, added))
    && (forall k :: k in s.blocks ==> !BlockInWay(k, b, newEnd))
    && (forall h :: h in s.holds && Live(h, s.now) && h.car == b.car ==> !Overlaps(h.span, added))
  }

  /** Bookings and holds are checked for the order of their dates, maintenance blocks are not. */
  ghost predicate AllProper(s: Snapshot) {
    && (forall b :: b in s.bookings ==> b.span.Proper())
    && (forall h :: h in s.holds ==> h.span.Proper())
  }

  function WithEnd(b: Booking, newEnd: int): Booking {
    b.(span := Interval(b.span.start, newEnd))
  }

  /** A longer booking meets what the old one met and what the added part meets. */
  lemma LongerSpan(span: Interval, newEnd: int, x: Interval)
    requires span.Proper() && x.Proper() && !Overlaps(span, x)
    ensures Overlaps(Interval(span.start, newEnd), x) <==> Overlaps(Interval(span.end, newEnd), x)
  {}

  /** Confirming an extension moves the end of a booking after looking at four statuses only.  On a
      reserving booking it is safe exactly when there is room for what it adds. */
  lemma ExtendedExact(s: Snapshot, i: int, newEnd: int)
    requires Safe(s) && AllProper(s) && 0 <= i < |s.bookings| && Reserves(s.bookings[i].status)
    ensures Safe(s.(bookings := s.bookings[i := WithEnd(s.bookings[i], newEnd)])) <==> RoomToExtend(s, i, newEnd)
  {
    var b, longer := s.bookings[i], WithEnd(s.bookings[i], newEnd);
    var t := s.(bookings := s.bookings[i := longer]);
    assert b in s.bookings && t.bookings[i] == longer && longer in t.bookings;
    ExtendedBookings(s, i, newEnd);
    forall k | k in s.blocks && k.car == b.car
      ensures BookingClash(longer, k.car, k.span) <==> BlockInWay(k, b, newEnd)
    {
      assert !BookingClash(b, k.car, k.span);
    }
    forall h | h in s.holds && Live(h, s.now) && h.car == b.car
      ensures BookingClash(longer, h.car, h.span) <==> Overlaps(h.span, Interval(b.span.end, newEnd))
    {
      assert !BookingClash(b, h.car, h.span);
      LongerSpan(b.span, newEnd, h.span);
    }
    forall x | x in t.bookings ensures x == longer || x in s.bookings {}
  }

  /** A booking that reserves nothing may end whenever it likes. */
  lemma ExtendedInactive(s: Snapshot, i: int, newEnd: int)
    requires Safe(s) && 0 <= i < |s.bookings| && !Reserves(s.bookings[i].status)
    ensures Safe(s.(bookings := s.bookings[i := WithEnd(s.bookings[i], newEnd)]))
  {
    var longer := WithEnd(s.bookings[i], newEnd);
    var after := s.bookings[i := longer];
    forall x | x in after ensures x == longer || x in s.bookings {}
    forall j, k | 0 <= j < k < |after| && Reserves(after[j].status) ensures !BookingClash(after[k], after[j].car, after[j].span) {
      assert after[j] == s.bookings[j] && (k != i ==> after[k] == s.bookings[k]);
    }
  }

  lemma ExtendedBookings(s: Snapshot, i: int, newEnd: int)
    requires BookingsDisjoint(s.bookings) && AllProper(s) && 0 <= i < |s.bookings| && Reserves(s.bookings[i].status)
    ensures BookingsDisjoint(s.bookings[i := WithEnd(s.bookings[i], newEnd)])
            <==> forall j :: 0 <= j < |s.bookings| && j != i
                   ==> !BookingClash(s.bookings[j], s.bookings[i].car, Interval(s.bookings[i].span.end, newEnd))
  {
    var b, longer := s.bookings[i], WithEnd(s.bookings[i], newEnd);
    var after := s.bookings[i := longer];
    forall j | 0 <= j < |s.bookings| && j != i
      ensures BookingClash(s.bookings[j], b.car, longer.span)
              <==> BookingClash(s.bookings[j], b.car, Interval(b.span.end, newEnd))
    {
      var x := s.bookings[j];
      assert x in s.bookings && b in s.bookings;
      if Reserves(x.status) && x.car == b.car {
        if j < i { assert !BookingClash(b, x.car, x.span); } else { assert !BookingClash(x, b.car, b.span); }
        LongerSpan(b.span, newEnd, x.span);
      }
    }
    if BookingsDisjoint(after) {
      forall j | 0 <= j < |s.bookings| && j != i ensures !BookingClash(s.bookings[j], b.car, longer.span) {
        assert after[j] == s.bookings[j] && after[i] == longer;
        if j < i && Reserves(after[j].status) {
          assert !BookingClash(after[i], after[j].car, after[j].span);
        } else if i < j {
          assert !BookingClash(after[j], after[i].car, after[i].span);
        }
      }
    }
  }

  // ------------------------------------------------------------ the service

  datatype Availability = InvalidInterval | UnknownCar | NotEligible | Conflicts(list: seq<Conflict>)
  datatype HoldOutcome = BadInterval | Existing(index: nat) | Unavailable | KeyTaken | Held(index: nat)
  datatype BookingOutcome = BadDates | CarNotFound | CarNotEligible | Refused | Booked(index: nat)
  datatype BlockOutcome = BadWindow | BlockForbidden | BlockCarNotFound | BlockConflict | Blocked

  class Fleet {
    var now: int
    var cars: map<CarId, Car>
    var bookings: seq<Booking>
    var blocks: seq<Block>
    var holds: seq<Hold>
    var nextBlock: BlockId

    ghost function Snap(): Snapshot
      reads this
    {
      Snapshot(now, cars, bookings, blocks, holds)
    }

    ghost predicate BlockIds()
      reads this
    {
      (forall k :: k in blocks ==> k.id < nextBlock) && UniqueIds(blocks)
    }

    /** Rows are well formed, whether or not they are safe. */
    ghost predicate Stored()
      reads this
    {
      AllProper(Snap()) && BlockIds()
    }

    ghost predicate Valid()
      reads this
    {
      Safe(Snap()) && Stored()
    }

    constructor (now: int, cars: map<CarId, Car>)
      ensures Valid() && Snap() == Snapshot(now, cars, [], [], [])
    {
      this.now, this.cars := now, cars;
      bookings, blocks, holds, nextBlock := [], [], [], 0;
    }

    /** `checkAvailability`: the conflict list, table by table. */
    method CheckAvailability(car: CarId, span: Interval, actor: Option<UserId>, exclude: Option<nat>) returns (r: Availability)
      ensures r == InvalidInterval <==> span.start >= span.end
      ensures r == UnknownCar <==> span.Proper() && car !in cars
      ensures r == NotEligible <==> span.Proper() && car in cars && !cars[car].eligible
      ensures r.Conflicts? ==>
        && (forall i: nat :: ByBooking(i) in r.list <==> i < |bookings| && BookingClash(bookings[i], car, span) && exclude != Some(i))
        && (forall id :: ByBlock(id) in r.list <==> exists k :: k in blocks && BlockClash(k, car, span) && k.id == id)
        && (forall i: nat :: ByHold(i) in r.list <==> i < |holds| && HoldClash(holds[i], now, car, span, actor))
        && (ByBlockedDate in r.list <==> exists d :: d in cars[car].blockedDates && span.start <= d <= span.end)
      ensures r.Conflicts? && exclude.None? ==> (r.list == [] <==> Clear(Snap(), car, span, actor))
      ensures r.Conflicts? && exclude.None? ==> (r.list == [] <==> Free(Snap(), car, span, actor))
    {
      if span.start >= span.end {
        return InvalidInterval;
      }
      if car !in cars {
        return UnknownCar;
      }
      if !cars[car].eligible {
        return NotEligible;
      }
      var byBooking := BookingConflicts(car, span, exclude);
      var byBlock := BlockConflicts(car, span);
      var byHold := HoldConflicts(car, span, actor);
      var conflicts := byBooking + byBlock + byHold;
      if DateClash(cars[car].blockedDates, span) {
        conflicts := conflicts + [ByBlockedDate];
      }
      ClearIsFree(Snap(), car, span, actor);
      if exclude.None? {
        if conflicts == [] {
          forall b | b in bookings ensures !BookingClash(b, car, span) {
            var i :| 0 <= i < |bookings| && bookings[i] == b;
            assert ByBooking(i) !in byBooking;
          }
          forall k | k in blocks ensures !BlockClash(k, car, span) {
            assert ByBlock(k.id) !in byBlock;
          }
          forall h | h in holds ensures !HoldClash(h, now, car, span, actor) {
            var i :| 0 <= i < |holds| && holds[i] == h;
            assert ByHold(i) !in byHold;
          }
        } else {
          var c := conflicts[0];
          assert c in conflicts;
        }
      }
      return Conflicts(conflicts);
    }

    method BookingConflicts(car: CarId, span: Interval, exclude: Option<nat>) returns (list: seq<Conflict>)
      ensures forall c :: c in list ==> c.ByBooking?
      ensures forall i: nat :: ByBooking(i) in list <==> i < |bookings| && BookingClash(bookings[i], car, span) && exclude != Some(i)
    {
      list := [];
      var i := 0;
      while i < |bookings|
        invariant 0 <= i <= |bookings|
        invariant forall c :: c in list ==> c.ByBooking?
        invariant forall k: nat :: ByBooking(k) in list <==> k < i && BookingClash(bookings[k], car, span) && exclude != Some(k)
      {
        if BookingClash(bookings[i], car, span) && exclude != Some(i) {
          list := list + [ByBooking(i)];
        }
        i := i + 1;
      }
    }

    method BlockConflicts(car: CarId, span: Interval) returns (list: seq<Conflict>)
      ensures forall c :: c in list ==> c.ByBlock?
      ensures forall id :: ByBlock(id) in list <==> exists k :: k in blocks && BlockClash(k, car, span) && k.id == id
    {
      list := [];
      var i := 0;
      while i < |blocks|
        invariant 0 <= i <= |blocks|
        invariant forall c :: c in list ==> c.ByBlock?
        invariant forall id :: ByBlock(id) in list <==> exists k :: k in blocks[..i] && BlockClash(k, car, span) && k.id == id
      {
        assert blocks[..i + 1] == blocks[..i] + [blocks[i]];
        if BlockClash(blocks[i], car, span) {
          list := list + [ByBlock(blocks[i].id)];
        }
        i := i + 1;
      }
      assert blocks[..i] == blocks;
    }

    method HoldConflicts(car: CarId, span: Interval, actor: Option<UserId>) returns (list: seq<Conflict>)
      ensures forall c :: c in list ==> c.ByHold?
      ensures forall i: nat :: ByHold(i) in list <==> i < |holds| && HoldClash(holds[i], now, car, span, actor)
    {
      list := [];
      var i := 0;
      while i < |holds|
        invariant 0 <= i <= |holds|
        invariant forall c :: c in list ==> c.ByHold?
        invariant forall k: nat :: ByHold(k) in list <==> k < i && HoldClash(holds[k], now, car, span, actor)
      {
        if holds[i].car == car && Live(holds[i], now) && Overlaps(holds[i].span, span) {
          if actor != Some(holds[i].customer) {
            list := list + [ByHold(i)];
          }
        }
        i := i + 1;
      }
    }

    /** The date part of `searchCars`: collect excluded ids, then filter by blocked dates. */
    method Search(span: Interval) returns (available: set<CarId>)
      ensures available == set c | c in cars && cars[c].eligible && Clear(Snap(), c, span, None)
      ensures forall c :: c in available <==> c in cars && cars[c].eligible && Free(Snap(), c, span, None)
    {
      var excluded: set<CarId> := {};
      var i := 0;
      while i < |bookings|
        invariant 0 <= i <= |bookings|
        invariant forall c :: c in excluded <==> exists j :: 0 <= j < i && BookingClash(bookings[j], c, span)
      {
        if Reserves(bookings[i].status) && Overlaps(bookings[i].span, span) {
          excluded := excluded + {bookings[i].car};
        }
        i := i + 1;
      }
      ghost var afterBookings := excluded;
      i := 0;
      while i < |blocks|
        invariant 0 <= i <= |blocks|
        invariant forall c :: c in excluded <==> c in afterBookings || exists j :: 0 <= j < i && BlockClash(blocks[j], c, span)
      {
        if Overlaps(blocks[i].span, span) {
          excluded := excluded + {blocks[i].car};
        }
        i := i + 1;
      }
      ghost var afterBlocks := excluded;
      i := 0;
      while i < |holds|
        invariant 0 <= i <= |holds|
        invariant forall c :: c in excluded <==> c in afterBlocks || exists j :: 0 <= j < i && HoldClash(holds[j], now, c, span, None)
      {
        if Live(holds[i], now) && Overlaps(holds[i].span, span) {
          excluded := excluded + {holds[i].car};
        }
        i := i + 1;
      }
      available := set c | c in cars && cars[c].eligible && c !in excluded && !DateClash(cars[c].blockedDates, span);
      forall c | c in cars ensures Clear(Snap(), c, span, None) <==> Free(Snap(), c, span, None) {
        ClearIsFree(Snap(), c, span, None);
      }
    }

    method CreateHold(car: CarId, customer: UserId, span: Interval, ttlSeconds: int, key: Option<nat>) returns (r: HoldOutcome)
      requires Valid()
      modifies this`holds
      ensures Valid()
      ensures r == BadInterval <==> !span.Proper()
      ensures r.Existing? ==> r.index < |old(holds)| && key.Some? && old(holds)[r.index].key == key && Live(old(holds)[r.index], now)
      ensures r.Held? <==>
        && span.Proper() && car in cars && cars[car].eligible
        && (key.Some? ==> forall h :: h in old(holds) ==> h.key != key)
        && Clear(old(Snap()), car, span, Some(customer))
      ensures r.Held? <==>
        && span.Proper() && car in cars && cars[car].eligible
        && (key.Some? ==> forall h :: h in old(holds) ==> h.key != key)
        && Free(old(Snap()), car, span, Some(customer))
      ensures holds ==
        if r.Held? then old(holds) + [Hold(car, customer, span, now + ttlSeconds * 1000, ACTIVE, key)] else old(holds)
    {
      if span.start >= span.end {
        return BadInterval;
      }
      var taken := false;
      if key.Some? {
        var i := 0;
        while i < |holds|
          invariant 0 <= i <= |holds|
          invariant taken <==> exists k :: 0 <= k < i && holds[k].key == key
        {
          if holds[i].key == key {
            taken := true;
            if Live(holds[i], now) {
              return Existing(i);
            }
          }
          i := i + 1;
        }
      }
      if car in cars {
        ClearIsFree(Snap(), car, span, Some(customer));
      }
      var check := CheckAvailability(car, span, Some(customer), None);
      if !check.Conflicts? || check.list != [] {
        return Unavailable;
      }
      if taken {
        return KeyTaken;
      }
      var hold := Hold(car, customer, span, now + ttlSeconds * 1000, ACTIVE, key);
      AddHoldSafe(Snap(), hold);
      holds := holds + [hold];
      return Held(|holds| - 1);
    }

    /** Any hold may be released, whatever its status. */
    method ReleaseHold(index: nat, customer: Option<UserId>) returns (done: bool)
      requires Valid()
      modifies this`holds
      ensures Valid()
      ensures done <==> index < |old(holds)| && (customer.None? || customer == Some(old(holds)[index].customer))
      ensures holds == if done then old(holds)[index := old(holds)[index].(status := RELEASED)] else old(holds)
    {
      if index >= |holds| || (customer.Some? && holds[index].customer != customer.value) {
        return false;
      }
      EndHoldSafe(Snap(), index, RELEASED);
      holds := holds[index := holds[index].(status := RELEASED)];
      return true;
    }

    method ExpireHold(index: nat)
      requires Valid()
      modifies this`holds
      ensures Valid()
      ensures holds ==
        if index < |old(holds)| && old(holds)[index].status == ACTIVE
        then old(holds)[index := old(holds)[index].(status := HoldStatus.EXPIRED)]
        else old(holds)
    {
      if index < |holds| && holds[index].status == ACTIVE {
        EndHoldSafe(Snap(), index, HoldStatus.EXPIRED);
        holds := holds[index := holds[index].(status := HoldStatus.EXPIRED)];
      }
    }

    /** `createBooking` without its pricing: dates, car, blocked dates, then the three queries of
        the transaction, the insert, and the conversion of the customer's holds. */
    method CreateBooking(car: CarId, customer: UserId, span: Interval) returns (r: BookingOutcome)
      requires Valid()
      modifies this`bookings, this`holds
      ensures Valid()
      ensures r.Booked? <==>
        && span.Proper() && span.start >= now && car in cars && cars[car].eligible
        && Clear(old(Snap()), car, span, Some(customer))
      ensures r.Booked? <==>
        && span.Proper() && span.start >= now && car in cars && cars[car].eligible
        && Free(old(Snap()), car, span, Some(customer))
      ensures r == BadDates <==> !span.Proper() || span.start < now
      ensures r.Booked? ==>
        && bookings == old(bookings) + [Booking(car, customer, span, PENDING)]
        && holds == ConvertHolds(old(holds), car, customer)
      ensures r.Booked? ==> |holds| == |old(holds)| && forall i :: 0 <= i < |holds| ==>
        var h := old(holds)[i];
        holds[i] == if h.car == car && h.customer == customer && h.status == ACTIVE then h.(status := CONVERTED) else h
      ensures !r.Booked? ==> bookings == old(bookings) && holds == old(holds)
    {
      if span.start >= span.end || span.start < now {
        return BadDates;
      }
      if car !in cars {
        return CarNotFound;
      }
      if !cars[car].eligible {
        return CarNotEligible;
      }
      ClearIsFree(Snap(), car, span, Some(customer));
      if DateClash(cars[car].blockedDates, span) {
        return Refused;
      }
      if exists b :: b in bookings && BookingClash(b, car, span) {
        return Refused;
      }
      if exists k :: k in blocks && BlockClash(k, car, span) {
        return Refused;
      }
      if exists h :: h in holds && HoldClash(h, now, car, span, Some(customer)) {
        return Refused;
      }
      var booking := Booking(car, customer, span, PENDING);
      AddBookingSafe(Snap(), booking);
      bookings := bookings + [booking];
      holds := ConvertHolds(holds, car, customer);
      return Booked(|bookings| - 1);
    }

    method BlockVehicle(car: CarId, vendor: UserId, span: Interval, role: Role) returns (r: BlockOutcome)
      requires Valid()
      modifies this`blocks, this`nextBlock
      ensures Valid()
      ensures r == Blocked <==>
        && span.Proper() && role != Role.Customer && car in cars
        && (role == Role.Vendor ==> cars[car].vendor == vendor)
        && forall b :: b in bookings ==> !BookingClash(b, car, span)
      ensures blocks == if r == Blocked then old(blocks) + [Block(old(nextBlock), car, cars[car].vendor, span)] else old(blocks)
    {
      if span.start >= span.end {
        return BadWindow;
      }
      if role == Role.Customer {
        return BlockForbidden;
      }
      if car !in cars {
        return BlockCarNotFound;
      }
      if role == Role.Vendor && cars[car].vendor != vendor {
        return BlockForbidden;
      }
      if exists b :: b in bookings && BookingClash(b, car, span) {
        return BlockConflict;
      }
      AddBlockExact(Snap(), Block(nextBlock, car, cars[car].vendor, span));
      AddBlock(car, cars[car].vendor, span);
      return Blocked;
    }

    /** The insert: a new id, nothing else. */
    method AddBlock(car: CarId, vendor: UserId, span: Interval)
      requires Stored()
      modifies this`blocks, this`nextBlock
      ensures Stored() && blocks == old(blocks) + [Block(old(nextBlock), car, vendor, span)]
    {
      blocks := blocks + [Block(nextBlock, car, vendor, span)];
      nextBlock := nextBlock + 1;
    }

    /** Vendors may only remove blocks on their own fleet. */
    method UnblockVehicle(id: BlockId, role: Role, vendor: Option<UserId>) returns (done: bool)
      requires Valid()
      modifies this`blocks
      ensures Valid()
      ensures done <==> exists k :: k in old(blocks) && k.id == id
                          && (role == Role.Vendor && vendor.Some? ==> k.vendor == vendor.value)
      ensures done ==> forall k :: k in blocks <==> k in old(blocks) && k.id != id
      ensures !done ==> blocks == old(blocks)
    {
      var i := FindBlock(id);
      if i == |blocks| {
        return false;
      }
      IdNamesOne(blocks, i);
      if role == Role.Vendor && vendor.Some? && blocks[i].vendor != vendor.value {
        return false;
      }
      assert blocks[i] in blocks;
      WithoutBlockUnique(blocks, id);
      RemoveBlockSafe(Snap(), id);
      blocks := WithoutBlock(blocks, id);
      return true;
    }

    method FindBlock(id: BlockId) returns (i: nat)
      ensures i <= |blocks| && (i < |blocks| ==> blocks[i].id == id)
      ensures i == |blocks| ==> forall k :: k in blocks ==> k.id != id
    {
      i := 0;
      while i < |blocks| && blocks[i].id != id
        invariant 0 <= i <= |blocks|
        invariant forall j :: 0 <= j < i ==> blocks[j].id != id
      {
        i := i + 1;
      }
    }

    /** A lifecycle move without damage. */
    method MoveBooking(index: nat, next: Status) returns (moved: bool)
      requires Valid()
      modifies this`bookings
      ensures Valid()
      ensures moved <==> index < |old(bookings)| && Allowed(old(bookings)[index].status, next)
      ensures bookings == if moved then old(bookings)[index := old(bookings)[index].(status := next)] else old(bookings)
    {
      moved := index < |bookings| && Allowed(bookings[index].status, next);
      if moved {
        MoveSafe(Snap(), index, next);
        bookings := bookings[index := bookings[index].(status := next)];
      }
    }

    /** The completion of a trip with damage: a safety hold of seven days, whatever is booked. */
    method CompleteWithDamage(index: nat, vendor: UserId) returns (done: bool)
      requires Valid()
      modifies this`bookings, this`blocks, this`nextBlock
      ensures Stored()
      ensures done <==> index < |old(bookings)| && Allowed(old(bookings)[index].status, COMPLETED)
      ensures !done ==> Valid() && bookings == old(bookings) && blocks == old(blocks)
      ensures done ==>
        && bookings == old(bookings)[index := old(bookings)[index].(status := COMPLETED)]
        && blocks == old(blocks) + [Block(old(nextBlock), old(bookings)[index].car, vendor, Interval(now, now + 604800000))]
      ensures done ==>
        (Valid() <==> forall j :: 0 <= j < |old(bookings)| && j != index
                        ==> !BookingClash(old(bookings)[j], old(bookings)[index].car, Interval(now, now + SAFETY_HOLD_MS)))
    {
      done := index < |bookings| && Allowed(bookings[index].status, COMPLETED);
      if done {
        DamagedCompletionExact(Snap(), index, nextBlock, vendor);
        var car := bookings[index].car;
        bookings := bookings[index := bookings[index].(status := COMPLETED)];
        AddBlock(car, vendor, Interval(now, now + SAFETY_HOLD_MS));
      }
    }

    /** The block of `startMaintenance`: CONFIRMED and HANDOVER_READY bookings may be overridden,
        PENDING and RETURN_PENDING ones are not looked at, nor is the order of the two dates. */
    method BlockForMaintenance(car: CarId, vendor: UserId, until: int, override: bool) returns (done: bool)
      requires Valid()
      modifies this`blocks, this`nextBlock
      ensures Stored()
      ensures !done ==> Valid()
      ensures done <==>
        && (forall b :: b in bookings && b.status == ONGOING ==> !BookingClash(b, car, Interval(now, until)))
        && (override || forall b :: b in bookings && b.status in {CONFIRMED, HANDOVER_READY} ==> !BookingClash(b, car, Interval(now, until)))
      ensures blocks == if done then old(blocks) + [Block(old(nextBlock), car, vendor, Interval(now, until))] else old(blocks)
      ensures done ==> (Valid() <==> forall b :: b in bookings ==> !BookingClash(b, car, Interval(now, until)))
    {
      var span := Interval(now, until);
      if exists b :: b in bookings && b.status == ONGOING && BookingClash(b, car, span) {
        return false;
      }
      if !override && exists b :: b in bookings && b.status in {CONFIRMED, HANDOVER_READY} && BookingClash(b, car, span) {
        return false;
      }
      AddBlockExact(Snap(), Block(nextBlock, car, vendor, span));
      AddBlock(car, vendor, span);
      return true;
    }

    /** The collision check and the write of `verifyExtensionPayment`. */
    method ConfirmExtension(index: nat, currentEnd: int, requestedEnd: int) returns (done: bool)
      requires Valid() && index < |bookings| && bookings[index].span.start < requestedEnd
      modifies this`bookings
      ensures Stored()
      ensures done <==> forall j :: 0 <= j < |old(bookings)| && j != index && BlocksExtension(old(bookings)[j].status)
                          ==> !BookingClash(old(bookings)[j], old(bookings)[index].car, Interval(currentEnd, requestedEnd))
      ensures bookings == if done then old(bookings)[index := WithEnd(old(bookings)[index], requestedEnd)] else old(bookings)
      ensures done ==> (Valid() <==> (Reserves(old(bookings)[index].status) ==> RoomToExtend(old(Snap()), index, requestedEnd)))
    {
      var span := Interval(currentEnd, requestedEnd);
      if exists j :: 0 <= j < |bookings| && j != index && BlocksExtension(bookings[j].status)
                     && BookingClash(bookings[j], bookings[index].car, span) {
        return false;
      }
      if Reserves(bookings[index].status) {
        ExtendedExact(Snap(), index, requestedEnd);
      } else {
        ExtendedInactive(Snap(), index, requestedEnd);
      }
      bookings := bookings[index := WithEnd(bookings[index], requestedEnd)];
      return true;
    }

    method Tick(later: int)
      requires Valid() && now <= later
      modifies this`now
      ensures Valid() && now == later
    {
      LaterStillSafe(Snap(), later);
      now := later;
    }
  }
  // ------------------------------------------------------------ runs that leave the calendar unsafe

  const TRIP_DAY := 24 * 60 * 60 * 1000

  /** A fleet of one car with one booking. */
  method OneBooking(span: Interval) returns (fleet: Fleet)
    requires span.Proper() && span.start >= 0
    ensures fresh(fleet) && fleet.Valid() && fleet.now == 0 && fleet.cars == map[1 := Car(7, true, [])]
    ensures fleet.bookings == [Booking(1, 20, span, PENDING)] && fleet.blocks == [] && fleet.holds == []
  {
    fleet := new Fleet(0, map[1 := Car(7, true, [])]);
    var first := fleet.CreateBooking(1, 20, span);
  }

  /** The same, with the trip under way. */
  method OneTrip(span: Interval) returns (fleet: Fleet)
    requires span.Proper() && span.start >= 0
    ensures fresh(fleet) && fleet.Valid() && fleet.now == 0 && fleet.cars == map[1 := Car(7, true, [])]
    ensures fleet.bookings == [Booking(1, 20, span, ONGOING)] && fleet.blocks == [] && fleet.holds == []
  {
    fleet := OneBooking(span);
    var confirmed := fleet.MoveBooking(0, CONFIRMED);
    var started := fleet.MoveBooking(0, ONGOING);
  }

  /** A car returned with damage while its next booking is a day away. */
  method DamagedReturnBeforeNextTrip() returns (fleet: Fleet)
    ensures fleet.Stored() && !Safe(fleet.Snap())
  {
    fleet := OneTrip(Interval(0, TRIP_DAY));
    var next := fleet.CreateBooking(1, 21, Interval(2 * TRIP_DAY, 3 * TRIP_DAY));
    assert fleet.bookings[1] == Booking(1, 21, Interval(2 * TRIP_DAY, 3 * TRIP_DAY), PENDING);
    fleet.Tick(TRIP_DAY);
    assert BookingClash(fleet.bookings[1], 1, Interval(TRIP_DAY, TRIP_DAY + SAFETY_HOLD_MS));
    var completed := fleet.CompleteWithDamage(0, 7);
  }

  /** Maintenance started over a booking that still waits for confirmation. */
  method MaintenanceOverPendingBooking() returns (fleet: Fleet)
    ensures fleet.Stored() && !Safe(fleet.Snap())
  {
    fleet := OneBooking(Interval(1000, 2000));
    assert BookingClash(fleet.bookings[0], 1, Interval(0, 5000));
    var blocked := fleet.BlockForMaintenance(1, 7, 5000, false);
  }

  /** An extension into a time the vendor has blocked. */
  method ExtensionIntoBlock() returns (fleet: Fleet)
    ensures fleet.Stored() && !Safe(fleet.Snap())
  {
    fleet := OneTrip(Interval(0, 1000));
    var blocked := fleet.BlockVehicle(1, 7, Interval(1500, 3000), Role.Vendor);
    assert BlockInWay(fleet.blocks[0], fleet.bookings[0], 2000);
    var extended := fleet.ConfirmExtension(0, 1000, 2000);
  }
}
