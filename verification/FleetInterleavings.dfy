/** The fleet operations statement by statement.  Each reads the car, and writes it later without
    asking whether it is still what it read; the car lock guards one of them only, so nothing here
    relies on it.  Any number of calls may be under way on a car. */
module FleetInterleavings {
  import opened Bookings
  import opened Options
  import opened FleetRules

  type CallId = nat

  /** How far a call has come.  `previous` and `found` are the status it read. */
  datatype Stage =
    | Deciding(target: Operational, actor: Actor, reasonLength: nat, skipCheck: bool)
    | Assessing(previous: Operational, target: Operational, actor: Actor)
    | Moving(previous: Operational, target: Operational, actor: Actor)
    | Resetting(actor: Actor)
    | Blocking(previous: Operational, actor: Actor, reason: string, expectedReturn: Option<int>, startedAt: int)
    | Parking(actor: Actor)
    | Closing(actor: Actor)
    | Approving(found: Operational, autoActivate: bool)
    | Approved(found: Operational, autoActivate: bool)
    | Rejecting(found: Operational)
    | Releasing(found: Operational, damaged: bool)

  datatype World = World(car: Car, calls: map<CallId, Stage>)

  datatype Event =
    | Begin(id: CallId, op: Op, facts: Facts)
    | Go(id: CallId, facts: Facts)
    | Stop(id: CallId)

  /** The first read of a call and the checks on it. */
  function First(c: Car, op: Op, f: Facts): Option<Stage> {
    match op
    case Move(target, actor, reasonLength, skipCheck) => Some(Deciding(target, actor, reasonLength, skipCheck))
    case Submit(actor) =>
      if Foreign(actor) || c.status != DRAFT || !f.hasPlateAndPhoto then None else Some(Resetting(actor))
    case StartMaintenance(actor, reason, expectedReturn, override) =>
      if MayStartMaintenance(c, actor, f, override) then Some(Blocking(c.status, actor, reason, expectedReturn, f.now)) else None
    case CompleteMaintenance(actor) =>
      if Foreign(actor) || c.status != MAINTENANCE then None else Some(Parking(actor))
    case Verify(autoActivate) => Some(Approving(c.status, autoActivate))
    case Reject => Some(Rejecting(c.status))
    case Suspend(reasonLength) => Some(Deciding(SUSPENDED, PLATFORM, reasonLength, false))
    case Retire(reasonLength) =>
      if f.handoverReady || f.ongoing then None else Some(Deciding(RETIRED, PLATFORM, reasonLength, false))
    case FinishRental(damaged) => Some(Releasing(c.status, damaged))
  }

  /** The car after the next statement of a call. */
  function Written(c: Car, g: Stage): Car {
    match g
    case Moving(previous, target, _) =>
      c.(status := target, isAvailable := target == ACTIVE,
         maintenance := if target == ACTIVE then None else c.maintenance,
         audit := c.audit + [Audit(Some(previous), target)])
    case Resetting(_) => c.(verification := Unreviewed)
    case Blocking(previous, _, reason, expectedReturn, startedAt) =>
      InMaintenance(c, reason, expectedReturn, startedAt).(audit := c.audit + [Audit(Some(previous), MAINTENANCE)])
    case Parking(_) => Parked(c)
    case Approving(found, _) => c.(verification := Verified, audit := c.audit + [Audit(Some(found), found)])
    case Rejecting(found) => Rejected(c).(audit := c.audit + [Audit(Some(found), DRAFT)])
    case Releasing(found, damaged) =>
      Finished(c, damaged).(audit := c.audit + [Audit(Some(found), if damaged then INACTIVE else ACTIVE)])
    case _ => c
  }

  /** Where the call goes from there, after what it reads now; it may be over. */
  function Continued(c: Car, g: Stage, f: Facts): Option<Stage> {
    match g
    case Deciding(target, actor, reasonLength, skipCheck) =>
      if !MayMove(c, target, actor, f, reasonLength, true) then None
      else if target == ACTIVE && !skipCheck then Some(Assessing(c.status, target, actor))
      else Some(Moving(c.status, target, actor))
    case Assessing(previous, target, actor) => if Eligible(c, f) then Some(Moving(previous, target, actor)) else None
    case Resetting(actor) => Some(Deciding(PENDING_VERIFICATION, actor, 50, false))
    case Parking(actor) => Some(Closing(actor))
    case Closing(actor) => Some(Deciding(if Eligible(c, f) then ACTIVE else INACTIVE, actor, 0, true))
    case Approving(found, autoActivate) => Some(Approved(found, autoActivate))
    case Approved(found, autoActivate) =>
      if autoActivate && Eligible(c, f) then Some(Deciding(ACTIVE, PLATFORM, 50, false))
      else if found == PENDING_VERIFICATION then Some(Deciding(INACTIVE, PLATFORM, 50, false))
      else None
    case _ => None
  }

  function Placed(calls: map<CallId, Stage>, id: CallId, g: Option<Stage>): map<CallId, Stage> {
    if g.Some? then calls[id := g.value] else calls - {id}
  }

  /** One statement of one call; one that is not enabled changes nothing. */
  function Step(w: World, e: Event): World {
    match e
    case Begin(id, op, f) => if id in w.calls then w else w.(calls := Placed(w.calls, id, First(w.car, op, f)))
    case Go(id, f) =>
      if id in w.calls then World(Written(w.car, w.calls[id]), Placed(w.calls, id, Continued(w.car, w.calls[id], f))) else w
    case Stop(id) => w.(calls := w.calls - {id})
  }

  function Run(w: World, events: seq<Event>): World
    decreases |events|
  {
    if events == [] then w else Run(Step(w, events[0]), events[1..])
  }

  function Start(): World {
    World(NewCar(), map[])
  }

  // ---------------------------------------------- left alone, a call is its rule

  function Left(g: Stage): nat {
    match g
    case Moving(_, _, _) => 1
    case Assessing(_, _, _) => 2
    case Deciding(_, _, _, _) => 3
    case Resetting(_) => 4
    case Closing(_) => 4
    case Parking(_) => 5
    case Approved(_, _) => 4
    case Approving(_, _) => 5
    case _ => 1
  }

  /** The rest of a call with nobody in between. */
  function Finish(c: Car, g: Option<Stage>, f: Facts): Car
    decreases if g.Some? then Left(g.value) else 0
  {
    if g.None? then c else Finish(Written(c, g.value), Continued(c, g.value, f), f)
  }

  lemma DecidingIsTransition(c: Car, target: Operational, actor: Actor, f: Facts, reasonLength: nat, skipCheck: bool)
    ensures Finish(c, Some(Deciding(target, actor, reasonLength, skipCheck)), f)
         == Transition(c, target, actor, f, reasonLength, skipCheck)
  {
    var g := Continued(c, Deciding(target, actor, reasonLength, skipCheck), f);
    if g.Some? {
      var h := Moving(c.status, target, actor);
      assert Finish(c, Some(h), f) == Finish(Moved(c, target), None, f);
      if g.value.Assessing? {
        assert Finish(c, g, f) == Finish(c, Continued(c, g.value, f), f);
      }
    }
  }

  /** The statements of a call, one after the other, do what `FleetRules` says the call does. */
  lemma UninterruptedIsApply(c: Car, op: Op, f: Facts)
    ensures Finish(c, First(c, op, f), f) == Apply(c, op, f)
  {
    match op {
      case Move(target, actor, reasonLength, skipCheck) =>
        DecidingIsTransition(c, target, actor, f, reasonLength, skipCheck);
      case Submit(actor) =>
        DecidingIsTransition(c.(verification := Unreviewed), PENDING_VERIFICATION, actor, f, 50, false);
      case CompleteMaintenance(actor) =>
        if First(c, op, f).Some? {
          var p := Parked(c);
          DecidingIsTransition(p, if Eligible(p, f) then ACTIVE else INACTIVE, actor, f, 0, true);
          assert Finish(c, Some(Parking(actor)), f) == Finish(p, Some(Closing(actor)), f);
        }
      case Verify(autoActivate) =>
        var v := VerifiedByAdmin(c);
        DecidingIsTransition(v, ACTIVE, PLATFORM, f, 50, false);
        DecidingIsTransition(v, INACTIVE, PLATFORM, f, 50, false);
        assert Finish(c, Some(Approving(c.status, autoActivate)), f) == Finish(v, Some(Approved(c.status, autoActivate)), f);
      case Suspend(reasonLength) => DecidingIsTransition(c, SUSPENDED, PLATFORM, f, reasonLength, false);
      case Retire(reasonLength) => DecidingIsTransition(c, RETIRED, PLATFORM, f, reasonLength, false);
      case StartMaintenance(_, _, _, _) =>
      case Reject =>
      case FinishRental(_) =>
    }
  }

  // ---------------------------------------------- the availability flag

  predicate NeverHidden(c: Car) {
    c.status == ACTIVE ==> c.isAvailable
  }

  lemma {:induction false} RunKeepsNeverHidden(w: World, events: seq<Event>)
    requires NeverHidden(w.car)
    ensures NeverHidden(Run(w, events).car)
    decreases |events|
  {
    if events != [] {
      RunKeepsNeverHidden(Step(w, events[0]), events[1..]);
    }
  }

  /** In every interleaving, a car in service is available. */
  lemma ActiveIsAvailable(events: seq<Event>)
    ensures Run(Start(), events).car.status == ACTIVE ==> Run(Start(), events).car.isAvailable
  {
    RunKeepsNeverHidden(Start(), events);
  }

  /** The parking write of completeMaintenance hits a car that went back into service meanwhile. */
  predicate ParksActive(w: World, e: Event) {
    e.Go? && e.id in w.calls && w.calls[e.id].Parking? && w.car.status == ACTIVE
  }

  /** It is the one write that changes the status and not the flag, so it is the one that can leave
      a car out of service available. */
  lemma FlagBreaksExactly(w: World, e: Event)
    requires FlagMatches(w.car)
    ensures FlagMatches(Step(w, e).car) <==> !ParksActive(w, e)
  {}

  ghost predicate FlagThroughout(w: World, events: seq<Event>)
    decreases |events|
  {
    FlagMatches(w.car) && (events == [] || FlagThroughout(Step(w, events[0]), events[1..]))
  }

  ghost predicate NeverParksActive(w: World, events: seq<Event>)
    decreases |events|
  {
    events == [] || (!ParksActive(w, events[0]) && NeverParksActive(Step(w, events[0]), events[1..]))
  }

  /** In every interleaving, the flag says throughout whether the car is ACTIVE exactly when no
      maintenance is closed on a car that is back in service already. */
  lemma {:induction false} FlagThroughoutExactly(w: World, events: seq<Event>)
    requires FlagMatches(w.car)
    ensures FlagThroughout(w, events) <==> NeverParksActive(w, events)
    decreases |events|
  {
    if events != [] {
      FlagBreaksExactly(w, events[0]);
      if !ParksActive(w, events[0]) {
        FlagThroughoutExactly(Step(w, events[0]), events[1..]);
      }
    }
  }

  // ---------------------------------------------- what a vendor can do

  predicate ByVendorCall(g: Stage) {
    (g.Deciding? || g.Assessing? || g.Moving? || g.Resetting? || g.Blocking? || g.Parking? || g.Closing?)
    && g.actor.role == Role.Vendor
  }

  /** A vendor call past its last check: its next statement writes the status. */
  predicate AboutToWrite(g: Stage) {
    ByVendorCall(g) && (g.Moving? || g.Blocking? || g.Parking?)
  }

  ghost predicate VendorEvent(w: World, e: Event) {
    match e
    case Begin(_, op, _) => ByVendor(op)
    case Go(id, _) => id in w.calls ==> ByVendorCall(w.calls[id])
    case Stop(_) => true
  }

  ghost predicate VendorRun(w: World, events: seq<Event>)
    decreases |events|
  {
    events == [] || (VendorEvent(w, events[0]) && VendorRun(Step(w, events[0]), events[1..]))
  }

  /** Vendors are never about to suspend or retire a car. */
  ghost predicate VendorTargets(w: World) {
    forall id :: id in w.calls && ByVendorCall(w.calls[id]) && w.calls[id].Moving?
      ==> w.calls[id].target != SUSPENDED && w.calls[id].target != RETIRED
  }

  lemma {:induction false} RunKeepsVendorTargets(w: World, events: seq<Event>)
    requires VendorTargets(w) && AssessedTargets(w)
    ensures VendorTargets(Run(w, events)) && AssessedTargets(Run(w, events))
    decreases |events|
  {
    if events != [] {
      RunKeepsVendorTargets(Step(w, events[0]), events[1..]);
    }
  }

  ghost predicate AssessedTargets(w: World) {
    forall id :: id in w.calls && w.calls[id].Assessing? ==> w.calls[id].target == ACTIVE
  }

  ghost predicate VendorPastChecks(w: World) {
    exists id :: id in w.calls && AboutToWrite(w.calls[id])
  }

  ghost predicate StatusStays(w: World) {
    forall events :: VendorRun(w, events) ==> Run(w, events).car.status == w.car.status
  }

  lemma {:induction false} VendorsCannotLift(w: World, events: seq<Event>)
    requires (w.car.status == SUSPENDED || w.car.status == RETIRED) && !VendorPastChecks(w) && VendorRun(w, events)
    ensures Run(w, events).car.status == w.car.status
    decreases |events|
  {
    if events != [] {
      VendorStepCannotLift(w, events[0]);
      VendorsCannotLift(Step(w, events[0]), events[1..]);
    }
  }

  lemma VendorStepCannotLift(w: World, e: Event)
    requires (w.car.status == SUSPENDED || w.car.status == RETIRED) && !VendorPastChecks(w) && VendorEvent(w, e)
    ensures Step(w, e).car.status == w.car.status && !VendorPastChecks(Step(w, e))
  {
    var v := Step(w, e);
    forall id | id in v.calls ensures !AboutToWrite(v.calls[id]) {
      if id in w.calls { assert !AboutToWrite(w.calls[id]); }
    }
    if e.Go? && e.id in w.calls { assert !AboutToWrite(w.calls[e.id]); }
  }

  const NO_FACTS := Facts(false, false, false, false, 0, false, false, false, 0)

  /** No sequence of vendor statements changes the status of a suspended or retired car, exactly when
      no vendor call is already past its checks. */
  lemma VendorCannotLiftExactly(w: World)
    requires (w.car.status == SUSPENDED || w.car.status == RETIRED) && VendorTargets(w)
    ensures StatusStays(w) <==> !VendorPastChecks(w)
  {
    if VendorPastChecks(w) {
      var id :| id in w.calls && AboutToWrite(w.calls[id]);
      var events := [Go(id, NO_FACTS)];
      assert events[1..] == [] && VendorRun(Step(w, events[0]), []);
      assert VendorRun(w, events) && Run(w, events) == Run(Step(w, events[0]), []);
      assert Run(w, events).car.status != w.car.status;
    } else {
      forall events | VendorRun(w, events) ensures Run(w, events).car.status == w.car.status {
        VendorsCannotLift(w, events);
      }
    }
  }

  // ---------------------------------------------- leaving RETIRED

  /** A call whose next statement writes a status other than RETIRED, whatever the car is by then. */
  predicate WritesOver(g: Stage) {
    match g
    case Moving(_, target, _) => target != RETIRED
    case Blocking(_, _, _, _, _) => true
    case Parking(_) => true
    case Rejecting(_) => true
    case Releasing(_, _) => true
    case _ => false
  }

  ghost predicate NothingWritesOver(w: World) {
    forall id :: id in w.calls ==> !WritesOver(w.calls[id])
  }

  /** Anybody may call anything but a rejection or the completion of a rental. */
  ghost predicate NoRevival(events: seq<Event>) {
    forall k :: 0 <= k < |events| ==> !(events[k].Begin? && Revives(events[k].op))
  }

  lemma StepKeepsRetired(w: World, e: Event)
    requires w.car.status == RETIRED && NothingWritesOver(w) && !(e.Begin? && Revives(e.op))
    ensures Step(w, e).car.status == RETIRED && NothingWritesOver(Step(w, e))
  {
    if e.Go? && e.id in w.calls { assert !WritesOver(w.calls[e.id]); }
  }

  lemma {:induction false} RunKeepsRetired(w: World, events: seq<Event>)
    requires w.car.status == RETIRED && NothingWritesOver(w) && NoRevival(events)
    ensures Run(w, events).car.status == RETIRED
    decreases |events|
  {
    if events != [] {
      StepKeepsRetired(w, events[0]);
      assert forall k :: 0 <= k < |events| - 1 ==> events[1..][k] == events[k + 1];
      RunKeepsRetired(Step(w, events[0]), events[1..]);
    }
  }

  /** In every interleaving of everybody's calls, without new rejections and rental completions, a
      retired car stays retired exactly when no call is already past its checks. */
  lemma RetiredStaysExactly(w: World)
    requires w.car.status == RETIRED
    ensures (forall events :: NoRevival(events) ==> Run(w, events).car.status == RETIRED) <==> NothingWritesOver(w)
  {
    if NothingWritesOver(w) {
      forall events | NoRevival(events) ensures Run(w, events).car.status == RETIRED {
        RunKeepsRetired(w, events);
      }
    } else {
      var id :| id in w.calls && WritesOver(w.calls[id]);
      var events := [Go(id, NO_FACTS)];
      assert events[1..] == [] && Run(w, events) == Run(Step(w, events[0]), []);
      assert NoRevival(events) && Run(w, events).car.status != RETIRED;
    }
  }

  // ---------------------------------------------- unverified cars

  /** A vendor call on its way to put the car into service without another look at it. */
  predicate HeadsForService(g: Stage) {
    ByVendorCall(g) && ((g.Moving? && g.target == ACTIVE) || (g.Deciding? && g.target == ACTIVE && g.skipCheck))
  }

  ghost predicate VerificationRequired(events: seq<Event>) {
    forall k :: 0 <= k < |events| && !events[k].Stop? ==> events[k].facts.verificationRequired
  }

  /** Where verification is required, no interleaving of vendor statements puts an unverified car into
      service, unless a vendor call was heading there already. */
  lemma {:induction false} VendorsCannotActivateUnverified(w: World, events: seq<Event>)
    requires w.car.status != ACTIVE && w.car.verification != Verified
    requires forall id :: id in w.calls ==> !HeadsForService(w.calls[id])
    requires VendorRun(w, events) && VerificationRequired(events)
    ensures Run(w, events).car.status != ACTIVE
    decreases |events|
  {
    if events != [] {
      var v := Step(w, events[0]);
      assert !events[0].Stop? ==> events[0].facts.verificationRequired;
      if events[0].Go? && events[0].id in w.calls { assert !HeadsForService(w.calls[events[0].id]); }
      forall id | id in v.calls ensures !HeadsForService(v.calls[id]) {
        if id in w.calls { assert !HeadsForService(w.calls[id]); }
      }
      assert forall k :: 0 <= k < |events| - 1 ==> events[1..][k] == events[k + 1];
      VendorsCannotActivateUnverified(v, events[1..]);
    }
  }

  // ---------------------------------------------- two runs

  ghost predicate Reachable(w: World) {
    exists events :: Run(Start(), events) == w
  }

  lemma {:induction false} OneMore(w: World, events: seq<Event>, e: Event)
    ensures Run(w, events + [e]) == Step(Run(w, events), e)
    decreases |events|
  {
    if events == [] {
      assert ([] + [e])[1..] == [] && ([] + [e])[0] == e;
      assert Run(w, [] + [e]) == Run(Step(w, e), []);
    } else {
      assert (events + [e])[1..] == events[1..] + [e];
      OneMore(Step(w, events[0]), events[1..], e);
    }
  }

  lemma ReachStep(w: World, e: Event)
    requires Reachable(w)
    ensures Reachable(Step(w, e))
  {
    var events :| Run(Start(), events) == w;
    OneMore(Start(), events, e);
  }

  const ADMIN := Actor(Role.Admin, false)
  const OWNER := Actor(Role.Vendor, true)
  const QUIET := NO_FACTS.(lockFree := true)

  function InService(): Car {
    Moved(NewCar(), ACTIVE)
  }

  lemma ReachInService()
    ensures Reachable(World(InService(), map[]))
  {
    assert Run(Start(), []) == Start();
    ReachStep(Start(), Begin(0, Move(ACTIVE, ADMIN, 0, true), QUIET));
    ReachStep(World(NewCar(), map[0 := Deciding(ACTIVE, ADMIN, 0, true)]), Go(0, QUIET));
    ReachStep(World(NewCar(), map[0 := Moving(DRAFT, ACTIVE, ADMIN)]), Go(0, QUIET));
    assert map[0 := Moving(DRAFT, ACTIVE, ADMIN)] - {0} == map[];
  }

  const BRAKES := StartMaintenance(OWNER, "brakes", None, false)
  const CHECKED: Stage := Blocking(ACTIVE, OWNER, "brakes", None, 0)

  lemma ReachChecked()
    ensures Reachable(World(InService(), map[1 := CHECKED]))
  {
    ReachInService();
    ReachStep(World(InService(), map[]), Begin(1, BRAKES, QUIET));
  }

  function InWorkshop(): Car {
    InMaintenance(InService(), "brakes", None, 0)
  }

  lemma ReachWorkshop()
    ensures Reachable(World(InWorkshop(), map[]))
  {
    ReachChecked();
    ReachStep(World(InService(), map[1 := CHECKED]), Go(1, QUIET));
    assert map[1 := CHECKED] - {1} == map[];
  }

  lemma ReachReturned()
    ensures Reachable(World(Finished(InWorkshop(), false), map[1 := Parking(OWNER)]))
  {
    ReachWorkshop();
    ReachStep(World(InWorkshop(), map[]), Begin(1, CompleteMaintenance(OWNER), QUIET));
    ReachStep(World(InWorkshop(), map[1 := Parking(OWNER)]), Begin(2, FinishRental(false), QUIET));
    var both: map<CallId, Stage> := map[1 := Parking(OWNER), 2 := Releasing(MAINTENANCE, false)];
    ReachStep(World(InWorkshop(), both), Go(2, QUIET));
    assert both - {2} == map[1 := Parking(OWNER)];
  }

  lemma ReachParked()
    ensures Reachable(World(Parked(Finished(InWorkshop(), false)), map[1 := Deciding(INACTIVE, OWNER, 0, true)]))
  {
    ReachReturned();
    var busy := Finished(InWorkshop(), false);
    ReachStep(World(busy, map[1 := Parking(OWNER)]), Go(1, QUIET));
    ReachStep(World(Parked(busy), map[1 := Closing(OWNER)]), Go(1, QUIET));
  }

  /** A maintenance is completed while a rental of the car ends: out of service, and available, with
      no call left to correct it. */
  lemma ParkedCarStaysAvailable()
    ensures exists w :: Reachable(w) && w.calls == map[] && w.car.status == INACTIVE && w.car.isAvailable
  {
    ReachParked();
    var w := World(Parked(Finished(InWorkshop(), false)), map[1 := Deciding(INACTIVE, OWNER, 0, true)]);
    ReachStep(w, Go(1, QUIET));
    assert w.calls - {1} == map[];
    assert Reachable(World(w.car, map[]));
  }

  lemma ReachRetired()
    ensures Reachable(World(Moved(InService(), RETIRED), map[1 := CHECKED]))
  {
    ReachChecked();
    ReachStep(World(InService(), map[1 := CHECKED]), Begin(2, Retire(50), QUIET));
    ReachStep(World(InService(), map[1 := CHECKED, 2 := Deciding(RETIRED, PLATFORM, 50, false)]), Go(2, QUIET));
    var both: map<CallId, Stage> := map[1 := CHECKED, 2 := Moving(ACTIVE, RETIRED, PLATFORM)];
    ReachStep(World(InService(), both), Go(2, QUIET));
    assert both - {2} == map[1 := CHECKED];
  }

  /** A vendor's maintenance, checked before the car was retired, takes it out of RETIRED. */
  lemma MaintenanceOverwritesRetired()
    ensures exists w :: Reachable(w) && w.car.status == RETIRED && VendorEvent(w, Go(1, QUIET))
                        && Step(w, Go(1, QUIET)).car.status == MAINTENANCE
  {
    ReachRetired();
  }
}
