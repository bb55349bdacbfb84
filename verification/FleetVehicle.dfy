/** A car row, its maintenance blocks and its audit log, written field by field as the fleet and
    lifecycle services do.  Every method is the rule of the same call in `FleetRules`. */
module FleetVehicle {
  import opened Bookings
  import opened Options
  import opened FleetRules

  class Vehicle {
    var operationalStatus: Operational
    var isAvailable: bool
    var verificationStatus: Verification
    var maintenance: Option<Maintenance>
    var blocks: seq<Block>
    var audit: seq<Audit>

    function State(): Car
      reads this
    {
      Car(operationalStatus, isAvailable, verificationStatus, maintenance, blocks, audit)
    }

    /** `createVehicle` */
    constructor ()
      ensures State() == NewCar()
      ensures FlagMatches(State()) && RecordClosed(State()) && Seamless(audit, operationalStatus)
    {
      operationalStatus, isAvailable, verificationStatus := DRAFT, false, Unreviewed;
      maintenance, blocks := None, [];
      audit := [Audit(None, DRAFT)];
    }

    /** `transitionStatus`; `ok` is false when it throws. */
    method TransitionStatus(target: Operational, actor: Actor, f: Facts, reasonLength: nat, skipCheck: bool) returns (ok: bool)
      modifies this
      ensures State() == Transition(old(State()), target, actor, f, reasonLength, skipCheck)
      ensures ok ==> operationalStatus == target
      ensures ok <==> (f.lockFree && !Foreign(actor) && old(operationalStatus) == target)
                      || MayMove(old(State()), target, actor, f, reasonLength, skipCheck)
    {
      if !f.lockFree {
        return false;
      }
      if actor.role == Role.Vendor && !actor.ownsCar {
        return false;
      }
      var current := operationalStatus;
      if current == target {
        return true;
      }
      if target !in NextStatuses(current) {
        return false;
      }
      var isAdmin := actor.role == Role.Admin || actor.role == SupportAgent;
      if current == SUSPENDED && !isAdmin {
        return false;
      }
      if (target == SUSPENDED || target == RETIRED) && !isAdmin {
        return false;
      }
      if (current == DRAFT || current == PENDING_VERIFICATION) && target == ACTIVE && !isAdmin {
        return false;
      }
      if target in {INACTIVE, MAINTENANCE, SUSPENDED, RETIRED} && f.ongoing {
        if target == INACTIVE || target == MAINTENANCE {
          return false;
        }
        if reasonLength < 10 {
          return false;
        }
      }
      if target == ACTIVE && !skipCheck {
        if !Eligible(State(), f) {
          return false;
        }
      }
      operationalStatus := target;
      isAvailable := target == ACTIVE;
      if target == ACTIVE {
        maintenance := None;
      }
      audit := audit + [Audit(Some(current), target)];
      return true;
    }

    method SubmitForVerification(actor: Actor, f: Facts) returns (ok: bool)
      modifies this
      ensures State() == Apply(old(State()), Submit(actor), f)
    {
      if actor.role == Role.Vendor && !actor.ownsCar {
        return false;
      }
      if operationalStatus != DRAFT || !f.hasPlateAndPhoto {
        return false;
      }
      verificationStatus := Unreviewed;
      ok := TransitionStatus(PENDING_VERIFICATION, actor, f, 50, false);
    }

    method BeginMaintenance(actor: Actor, reason: string, expectedReturn: Option<int>, override: bool, f: Facts)
      returns (ok: bool)
      modifies this
      ensures State() == Apply(old(State()), StartMaintenance(actor, reason, expectedReturn, override), f)
      ensures ok ==> !isAvailable && |blocks| == old(|blocks|) + 1
      ensures !ok ==> State() == old(State())
    {
      if actor.role == Role.Vendor && !actor.ownsCar {
        return false;
      }
      if operationalStatus == RETIRED || operationalStatus == SUSPENDED {
        return false;
      }
      var returnDate := f.now + DEFAULT_MAINTENANCE_MS;
      if expectedReturn.Some? {
        returnDate := expectedReturn.value;
      }
      if f.ongoingInWindow {
        return false;
      }
      if f.bookingsInWindow > 0 && !override {
        return false;
      }
      blocks := blocks + [Block(f.now, returnDate)];
      maintenance := Some(Maintenance(reason, f.now, expectedReturn));
      isAvailable := false;
      audit := audit + [Audit(Some(operationalStatus), MAINTENANCE)];
      operationalStatus := MAINTENANCE;
      return true;
    }

    /** Whatever the closing transition answers, the blocks are gone and the car is parked or back
        in service. */
    method FinishMaintenance(actor: Actor, f: Facts) returns (ok: bool)
      modifies this
      ensures State() == Apply(old(State()), CompleteMaintenance(actor), f)
      ensures old(FlagMatches(State())) ==> FlagMatches(State())
      ensures ok ==> blocks == [] && maintenance == None && operationalStatus in {ACTIVE, INACTIVE}
    {
      if actor.role == Role.Vendor && !actor.ownsCar {
        return false;
      }
      if operationalStatus != MAINTENANCE {
        return false;
      }
      blocks := [];
      operationalStatus := INACTIVE;
      maintenance := None;
      var target := INACTIVE;
      if Eligible(State(), f) {
        target := ACTIVE;
      }
      ok := TransitionStatus(target, actor, f, 0, true);
    }

    method AdminVerify(autoActivate: bool, f: Facts) returns (ok: bool)
      modifies this
      ensures State() == Apply(old(State()), Verify(autoActivate), f)
      ensures verificationStatus == Verified
    {
      var found := operationalStatus;
      verificationStatus := Verified;
      audit := audit + [Audit(Some(found), found)];
      ok := true;
      if autoActivate && Eligible(State(), f) {
        ok := TransitionStatus(ACTIVE, PLATFORM, f, 50, false);
      } else if found == PENDING_VERIFICATION {
        ok := TransitionStatus(INACTIVE, PLATFORM, f, 50, false);
      }
    }

    method AdminReject()
      modifies this
      ensures forall f :: State() == Apply(old(State()), Reject, f)
      ensures !isAvailable && operationalStatus == DRAFT
    {
      audit := audit + [Audit(Some(operationalStatus), DRAFT)];
      verificationStatus, operationalStatus, isAvailable := Refused, DRAFT, false;
    }

    method AdminSuspend(reasonLength: nat, f: Facts) returns (ok: bool)
      modifies this
      ensures State() == Apply(old(State()), Suspend(reasonLength), f)
    {
      ok := TransitionStatus(SUSPENDED, PLATFORM, f, reasonLength, false);
    }

    method AdminRetire(reasonLength: nat, f: Facts) returns (ok: bool)
      modifies this
      ensures State() == Apply(old(State()), Retire(reasonLength), f)
      ensures ok ==> operationalStatus == RETIRED && !f.ongoing && !f.handoverReady
    {
      if f.handoverReady || f.ongoing {
        return false;
      }
      ok := TransitionStatus(RETIRED, PLATFORM, f, reasonLength, false);
    }

    /** What the completion of a booking does to its car. */
    method CompleteRental(damaged: bool)
      modifies this
      ensures forall f :: State() == Apply(old(State()), FinishRental(damaged), f)
      ensures isAvailable == !damaged
    {
      var found := operationalStatus;
      if damaged {
        operationalStatus, isAvailable := INACTIVE, false;
        audit := audit + [Audit(Some(found), INACTIVE)];
      } else {
        operationalStatus, isAvailable := ACTIVE, true;
        audit := audit + [Audit(Some(found), ACTIVE)];
      }
    }
  }
}
