/** The vehicle status machine as rules on values: the transition matrix, who may move a vehicle,
    the readiness check, and what each fleet operation does to a vehicle. */
module FleetRules {
  import opened Bookings
  import opened Options

  datatype Operational = DRAFT | PENDING_VERIFICATION | ACTIVE | INACTIVE | MAINTENANCE | SUSPENDED | RETIRED

  datatype Verification = Unreviewed | Verified | Refused

  datatype Maintenance = Maintenance(reason: string, startedAt: int, expectedReturn: Option<int>)

  /** `previous` is absent for the entry written at creation. */
  datatype Audit = Audit(previous: Option<Operational>, next: Operational)

  datatype Block = Block(from: int, to: int)

  datatype Car = Car(
    status: Operational,
    isAvailable: bool,
    verification: Verification,
    maintenance: Option<Maintenance>,
    blocks: seq<Block>,
    audit: seq<Audit>)

  datatype Actor = Actor(role: Role, ownsCar: bool)

  /** What a call finds elsewhere: the car lock, the bookings of the car, the other readiness rules. */
  datatype Facts = Facts(
    lockFree: bool,
    ongoing: bool,
    handoverReady: bool,
    ongoingInWindow: bool,
    bookingsInWindow: nat,
    otherwiseReady: bool,
    verificationRequired: bool,
    hasPlateAndPhoto: bool,
    now: int)

  datatype Op =
    | Move(target: Operational, actor: Actor, reasonLength: nat, skipCheck: bool)
    | Submit(actor: Actor)
    | StartMaintenance(actor: Actor, reason: string, expectedReturn: Option<int>, override: bool)
    | CompleteMaintenance(actor: Actor)
    | Verify(autoActivate: bool)
    | Reject
    | Suspend(reasonLength: nat)
    | Retire(reasonLength: nat)
    | FinishRental(damaged: bool)

  const DEFAULT_MAINTENANCE_MS := 30 * 24 * 60 * 60 * 1000

  function NextStatuses(s: Operational): set<Operational> {
    match s
    case DRAFT => {PENDING_VERIFICATION, ACTIVE, RETIRED}
    case PENDING_VERIFICATION => {ACTIVE, INACTIVE, DRAFT, RETIRED}
    case ACTIVE => {INACTIVE, MAINTENANCE, SUSPENDED, RETIRED}
    case INACTIVE => {ACTIVE, MAINTENANCE, SUSPENDED, RETIRED}
    case MAINTENANCE => {ACTIVE, INACTIVE, SUSPENDED, RETIRED}
    case SUSPENDED => {ACTIVE, INACTIVE, RETIRED}
    case RETIRED => {}
  }

  predicate IsAdmin(role: Role) {
    role == Role.Admin || role == SupportAgent
  }

  /** The vendor may touch only its own cars. */
  predicate Foreign(actor: Actor) {
    actor.role == Role.Vendor && !actor.ownsCar
  }

  /** Steps that only an administrator may take. */
  predicate NeedsAdmin(from: Operational, to: Operational) {
    || from == SUSPENDED
    || to == SUSPENDED || to == RETIRED
    || ((from == DRAFT || from == PENDING_VERIFICATION) && to == ACTIVE)
  }

  /** A running rental forbids parking the car and asks for a reason to suspend or retire it. */
  predicate RentalAllows(to: Operational, f: Facts, reasonLength: nat) {
    if !f.ongoing || to !in {INACTIVE, MAINTENANCE, SUSPENDED, RETIRED} then true
    else to !in {INACTIVE, MAINTENANCE} && reasonLength >= 10
  }

  predicate Eligible(c: Car, f: Facts) {
    && f.otherwiseReady
    && (f.verificationRequired ==> c.verification == Verified)
    && c.status !in {MAINTENANCE, SUSPENDED, RETIRED}
  }

  /** Whether `transitionStatus` moves the car. */
  predicate MayMove(c: Car, target: Operational, actor: Actor, f: Facts, reasonLength: nat, skipCheck: bool) {
    && f.lockFree
    && !Foreign(actor)
    && target in NextStatuses(c.status)
    && (NeedsAdmin(c.status, target) ==> IsAdmin(actor.role))
    && RentalAllows(target, f, reasonLength)
    && (target == ACTIVE && !skipCheck ==> Eligible(c, f))
  }

  function Moved(c: Car, target: Operational): Car {
    c.(status := target, isAvailable := target == ACTIVE,
       maintenance := if target == ACTIVE then None else c.maintenance,
       audit := c.audit + [Audit(Some(c.status), target)])
  }

  function Transition(c: Car, target: Operational, actor: Actor, f: Facts, reasonLength: nat, skipCheck: bool): Car {
    if MayMove(c, target, actor, f, reasonLength, skipCheck) then Moved(c, target) else c
  }

  function Submitted(c: Car, actor: Actor, f: Facts): Car {
    if Foreign(actor) || c.status != DRAFT || !f.hasPlateAndPhoto then c
    else Transition(c.(verification := Unreviewed), PENDING_VERIFICATION, actor, f, 50, false)
  }

  predicate MayStartMaintenance(c: Car, actor: Actor, f: Facts, override: bool) {
    && !Foreign(actor) && c.status != RETIRED && c.status != SUSPENDED
    && !f.ongoingInWindow && (f.bookingsInWindow > 0 ==> override)
  }

  function InMaintenance(c: Car, reason: string, expectedReturn: Option<int>, now: int): Car {
    c.(status := MAINTENANCE, isAvailable := false,
       maintenance := Some(Maintenance(reason, now, expectedReturn)),
       blocks := c.blocks + [Block(now, if expectedReturn.Some? then expectedReturn.value else now + DEFAULT_MAINTENANCE_MS)],
       audit := c.audit + [Audit(Some(c.status), MAINTENANCE)])
  }

  /** Parked INACTIVE, without an audit entry. */
  function Parked(c: Car): Car {
    c.(status := INACTIVE, maintenance := None, blocks := [])
  }

  function MaintenanceCompleted(c: Car, actor: Actor, f: Facts): Car {
    if Foreign(actor) || c.status != MAINTENANCE then c
    else Transition(Parked(c), if Eligible(Parked(c), f) then ACTIVE else INACTIVE, actor, f, 0, true)
  }

  const PLATFORM := Actor(Role.Admin, false)

  function VerifiedByAdmin(c: Car): Car {
    c.(verification := Verified, audit := c.audit + [Audit(Some(c.status), c.status)])
  }

  function AfterVerify(c: Car, autoActivate: bool, f: Facts): Car {
    var v := VerifiedByAdmin(c);
    if autoActivate && Eligible(v, f) then Transition(v, ACTIVE, PLATFORM, f, 50, false)
    else if c.status == PENDING_VERIFICATION then Transition(v, INACTIVE, PLATFORM, f, 50, false)
    else v
  }

  function Rejected(c: Car): Car {
    c.(status := DRAFT, isAvailable := false, verification := Refused, audit := c.audit + [Audit(Some(c.status), DRAFT)])
  }

  /** Completion of a booking puts the car back into service, or holds it when damage was found. */
  function Finished(c: Car, damaged: bool): Car {
    var next := if damaged then INACTIVE else ACTIVE;
    c.(status := next, isAvailable := !damaged, audit := c.audit + [Audit(Some(c.status), next)])
  }

  function Apply(c: Car, op: Op, f: Facts): Car {
    match op
    case Move(target, actor, reasonLength, skipCheck) => Transition(c, target, actor, f, reasonLength, skipCheck)
    case Submit(actor) => Submitted(c, actor, f)
    case StartMaintenance(actor, reason, expectedReturn, override) =>
      if MayStartMaintenance(c, actor, f, override) then InMaintenance(c, reason, expectedReturn, f.now) else c
    case CompleteMaintenance(actor) => MaintenanceCompleted(c, actor, f)
    case Verify(autoActivate) => AfterVerify(c, autoActivate, f)
    case Reject => Rejected(c)
    case Suspend(reasonLength) => Transition(c, SUSPENDED, PLATFORM, f, reasonLength, false)
    case Retire(reasonLength) =>
      if f.handoverReady || f.ongoing then c else Transition(c, RETIRED, PLATFORM, f, reasonLength, false)
    case FinishRental(damaged) => Finished(c, damaged)
  }

  function NewCar(): Car {
    Car(DRAFT, false, Unreviewed, None, [], [Audit(None, DRAFT)])
  }

  datatype Call = Call(op: Op, facts: Facts)

  function Run(c: Car, calls: seq<Call>): Car
    decreases |calls|
  {
    if calls == [] then c else Run(Apply(c, calls[0].op, calls[0].facts), calls[1..])
  }

  // ---------------------------------------------- availability

  predicate FlagMatches(c: Car) {
    c.isAvailable <==> c.status == ACTIVE
  }

  lemma {:induction false} RunKeepsFlag(c: Car, calls: seq<Call>)
    requires FlagMatches(c)
    ensures FlagMatches(Run(c, calls))
    decreases |calls|
  {
    if calls != [] {
      RunKeepsFlag(Apply(c, calls[0].op, calls[0].facts), calls[1..]);
    }
  }

  /** From creation on, whatever is called: the legacy flag says exactly that the car is ACTIVE. */
  lemma AvailableExactlyWhenActive(calls: seq<Call>)
    ensures Run(NewCar(), calls).isAvailable <==> Run(NewCar(), calls).status == ACTIVE
  {
    RunKeepsFlag(NewCar(), calls);
  }

  // ---------------------------------------------- what a vendor can do

  ghost predicate ByVendor(op: Op) {
    match op
    case Move(_, actor, _, skipCheck) => actor.role == Role.Vendor && !skipCheck
    case Submit(actor) => actor.role == Role.Vendor
    case StartMaintenance(actor, _, _, _) => actor.role == Role.Vendor
    case CompleteMaintenance(actor) => actor.role == Role.Vendor
    case _ => false
  }

  ghost predicate VendorCalls(calls: seq<Call>) {
    forall k :: 0 <= k < |calls| ==> ByVendor(calls[k].op)
  }

  /** No sequence of vendor calls changes anything about a suspended or retired car. */
  lemma {:induction false} VendorCannotLift(c: Car, calls: seq<Call>)
    requires c.status == SUSPENDED || c.status == RETIRED
    requires VendorCalls(calls)
    ensures Run(c, calls) == c
    decreases |calls|
  {
    if calls != [] {
      assert ByVendor(calls[0].op);
      assert Apply(c, calls[0].op, calls[0].facts) == c;
      VendorCannotLift(c, calls[1..]);
    }
  }

  /** Where verification is required, vendor calls alone never put an unverified car into service. */
  lemma {:induction false} VendorCannotActivateUnverified(c: Car, calls: seq<Call>)
    requires c.status != ACTIVE && c.verification != Verified
    requires VendorCalls(calls) && forall k :: 0 <= k < |calls| ==> calls[k].facts.verificationRequired
    ensures Run(c, calls).status != ACTIVE && !(Run(c, calls).verification == Verified)
    decreases |calls|
  {
    if calls != [] {
      assert ByVendor(calls[0].op) && calls[0].facts.verificationRequired;
      VendorCannotActivateUnverified(Apply(c, calls[0].op, calls[0].facts), calls[1..]);
    }
  }

  // ---------------------------------------------- leaving RETIRED

  /** The matrix calls RETIRED terminal; a call takes a car out of it exactly when it is a
      rejection or the completion of a booking, neither of which asks the matrix. */
  lemma RetiredLeftExactly(c: Car, op: Op, f: Facts)
    requires c.status == RETIRED
    ensures Apply(c, op, f).status != RETIRED <==> op.Reject? || op.FinishRental?
  {}

  ghost predicate RetiredThroughout(c: Car, calls: seq<Call>)
    decreases |calls|
  {
    c.status == RETIRED && (calls == [] || RetiredThroughout(Apply(c, calls[0].op, calls[0].facts), calls[1..]))
  }

  ghost predicate Revives(op: Op) {
    op.Reject? || op.FinishRental?
  }

  /** Over whole runs: a retired car stays retired throughout exactly if neither is ever called. */
  lemma {:induction false} RetiredStaysExactly(c: Car, calls: seq<Call>)
    requires c.status == RETIRED
    ensures RetiredThroughout(c, calls) <==> forall k :: 0 <= k < |calls| ==> !Revives(calls[k].op)
    decreases |calls|
  {
    if calls != [] {
      var next := Apply(c, calls[0].op, calls[0].facts);
      RetiredLeftExactly(c, calls[0].op, calls[0].facts);
      assert forall k :: 1 <= k < |calls| ==> calls[k] == calls[1..][k - 1];
      assert forall k :: 0 <= k < |calls| - 1 ==> calls[1..][k] == calls[k + 1];
      if next.status == RETIRED {
        RetiredStaysExactly(next, calls[1..]);
      } else {
        assert Revives(calls[0].op);
      }
    }
  }

  // ---------------------------------------------- entering ACTIVE

  /** A car enters service exactly in four ways: a permitted move that passed the readiness check
      or skipped it, a completed maintenance after which the car is ready, an automatic
      activation on verification, or the undamaged end of a rental. */
  lemma ActivatedExactly(c: Car, op: Op, f: Facts)
    requires c.status != ACTIVE
    ensures Apply(c, op, f).status == ACTIVE
      <==> match op
           case Move(target, actor, _, skipCheck) =>
             target == ACTIVE && f.lockFree && !Foreign(actor) && c.status != RETIRED
             && (c.status in {DRAFT, PENDING_VERIFICATION, SUSPENDED} ==> IsAdmin(actor.role))
             && (skipCheck || (f.otherwiseReady && c.status !in {MAINTENANCE, SUSPENDED}
                               && (f.verificationRequired ==> c.verification == Verified)))
           case CompleteMaintenance(actor) =>
             c.status == MAINTENANCE && !Foreign(actor) && f.lockFree && f.otherwiseReady
             && (f.verificationRequired ==> c.verification == Verified)
           case Verify(autoActivate) =>
             autoActivate && f.lockFree && f.otherwiseReady && c.status in {DRAFT, PENDING_VERIFICATION, INACTIVE}
           case FinishRental(damaged) => !damaged
           case _ => false
  {}

  // ---------------------------------------------- leaving service

  /** When a call to move a car goes through, target by target: the statuses it may come from, what needs
      an administrator or support, and what a running rental forbids. */
  lemma MovedExactly(c: Car, target: Operational, actor: Actor, reasonLength: nat, skipCheck: bool, f: Facts)
    requires c.status != target && target != ACTIVE
    ensures var staff := actor.role == Role.Admin || actor.role == SupportAgent;
            Apply(c, Move(target, actor, reasonLength, skipCheck), f).status == target
            <==> && f.lockFree && (actor.role == Role.Vendor ==> actor.ownsCar)
                 && match target
                    case DRAFT => c.status == PENDING_VERIFICATION
                    case PENDING_VERIFICATION => c.status == DRAFT
                    case INACTIVE =>
                      && c.status in {PENDING_VERIFICATION, ACTIVE, MAINTENANCE, SUSPENDED}
                      && (c.status == SUSPENDED ==> staff) && !f.ongoing
                    case MAINTENANCE => c.status in {ACTIVE, INACTIVE} && !f.ongoing
                    case SUSPENDED =>
                      c.status in {ACTIVE, INACTIVE, MAINTENANCE} && staff && (f.ongoing ==> reasonLength >= 10)
                    case RETIRED => staff && (f.ongoing ==> reasonLength >= 10)
    ensures Apply(c, Move(target, actor, reasonLength, skipCheck), f) != c
            ==> Apply(c, Move(target, actor, reasonLength, skipCheck), f)
                == c.(status := target, isAvailable := false, audit := c.audit + [Audit(Some(c.status), target)])
  {}

  /** When the other calls park, suspend or retire a car. */
  lemma TakenOutExactly(c: Car, op: Op, f: Facts)
    requires c.status == ACTIVE && !op.Move?
    ensures Apply(c, op, f).status != ACTIVE
      <==> match op
           case StartMaintenance(actor, _, _, override) =>
             && (actor.role == Role.Vendor ==> actor.ownsCar)
             && !f.ongoingInWindow && (f.bookingsInWindow == 0 || override)
           case Reject => true
           case Suspend(reasonLength) => f.lockFree && (f.ongoing ==> reasonLength >= 10)
           case Retire(_) => f.lockFree && !f.handoverReady && !f.ongoing
           case FinishRental(damaged) => damaged
           case _ => false
  {}

  /** A started maintenance blocks the car until the expected return, or for thirty days. */
  lemma MaintenanceExactly(c: Car, actor: Actor, reason: string, expectedReturn: Option<int>, override: bool, f: Facts)
    ensures var v := Apply(c, StartMaintenance(actor, reason, expectedReturn, override), f);
            var until := if expectedReturn.Some? then expectedReturn.value else f.now + 2592000000;
            if (actor.role == Role.Vendor && !actor.ownsCar) || c.status == RETIRED || c.status == SUSPENDED
               || f.ongoingInWindow || (f.bookingsInWindow > 0 && !override)
            then v == c
            else v == Car(MAINTENANCE, false, c.verification, Some(Maintenance(reason, f.now, expectedReturn)),
                          c.blocks + [Block(f.now, until)], c.audit + [Audit(Some(c.status), MAINTENANCE)])
  {}

  /** What a trip protects from: everything but an administrator's reasoned suspension or retirement, a
      rejection, and the end of the rental. */
  ghost predicate Protected(call: Call) {
    && call.facts.ongoing && call.facts.ongoingInWindow
    && match call.op
       case Move(target, actor, reasonLength, _) =>
         target in {SUSPENDED, RETIRED} && IsAdmin(actor.role) ==> reasonLength < 10
       case Suspend(reasonLength) => reasonLength < 10
       case Reject => false
       case FinishRental(_) => false
       case _ => true
  }

  /** While a customer is driving it, no sequence of such calls takes a car out of service. */
  lemma {:induction false} OnTripStaysInService(c: Car, calls: seq<Call>)
    requires c.status == ACTIVE && forall k :: 0 <= k < |calls| ==> Protected(calls[k])
    ensures Run(c, calls).status == ACTIVE
    decreases |calls|
  {
    if calls != [] {
      var op, f := calls[0].op, calls[0].facts;
      assert Protected(calls[0]);
      if op.Move? {
        if op.target != ACTIVE {
          MovedExactly(c, op.target, op.actor, op.reasonLength, op.skipCheck, f);
        }
      } else {
        TakenOutExactly(c, op, f);
      }
      assert forall k :: 0 <= k < |calls| - 1 ==> calls[1..][k] == calls[k + 1];
      OnTripStaysInService(Apply(c, op, f), calls[1..]);
    }
  }

  // ---------------------------------------------- verification

  /** Only a draft with plate and photo is submitted, by anybody but a stranger; its review starts over even
      when the status then cannot be moved. */
  lemma SubmittedExactly(c: Car, actor: Actor, f: Facts)
    ensures var v := Apply(c, Submit(actor), f);
            if c.status != DRAFT || !f.hasPlateAndPhoto || (actor.role == Role.Vendor && !actor.ownsCar) then v == c
            else v.verification == Unreviewed && (v.status == PENDING_VERIFICATION <==> f.lockFree)
                 && (!f.lockFree ==> v.status == DRAFT)
  {}

  /** A verified car that was waiting for it and is not put into service is parked, if nothing stands in
      the way. */
  lemma VerifiedExactly(c: Car, autoActivate: bool, f: Facts)
    ensures var v := Apply(c, Verify(autoActivate), f);
            && v.verification == Verified
            && (c.status == PENDING_VERIFICATION ==>
                  v.status == if !f.lockFree then PENDING_VERIFICATION
                              else if autoActivate && f.otherwiseReady then ACTIVE
                              else if f.ongoing then PENDING_VERIFICATION
                              else INACTIVE)
            && (c.status in {ACTIVE, MAINTENANCE, SUSPENDED, RETIRED} ==> v.status == c.status)
  {}

  /** Closing a maintenance clears its blocks and its record, and leaves the car in service or parked. */
  lemma ClosedExactly(c: Car, actor: Actor, f: Facts)
    ensures var v := Apply(c, CompleteMaintenance(actor), f);
            if c.status != MAINTENANCE || (actor.role == Role.Vendor && !actor.ownsCar) then v == c
            else && v.blocks == [] && v.maintenance == None && v.verification == c.verification
                 && v.status == if f.lockFree && f.otherwiseReady && (f.verificationRequired ==> c.verification == Verified)
                                then ACTIVE else INACTIVE
  {}

  // ---------------------------------------------- maintenance records

  /** A car in service has no open maintenance record. */
  predicate RecordClosed(c: Car) {
    c.status == ACTIVE ==> c.maintenance == None
  }

  /** The end of a rental does not look at the record, so it is the one call that can break this:
      exactly when the rental ends undamaged on a car whose record is open. */
  lemma RecordClosedExactly(c: Car, op: Op, f: Facts)
    requires RecordClosed(c)
    ensures RecordClosed(Apply(c, op, f)) <==> !(op == FinishRental(false) && c.maintenance.Some?)
  {}

  // ---------------------------------------------- the audit trail

  /** An entry starts where the one before it ended; only the parking at the end of a maintenance
      is not logged. */
  predicate Follows(last: Operational, next: Operational) {
    next == last || (last == MAINTENANCE && next == INACTIVE)
  }

  ghost predicate Explained(audit: seq<Audit>, status: Operational) {
    && audit != [] && audit[0] == Audit(None, DRAFT)
    && (forall k :: 0 < k < |audit| ==> audit[k].previous.Some? && Follows(audit[k - 1].next, audit[k].previous.value))
    && Follows(audit[|audit| - 1].next, status)
  }

  /** The same, without the exception. */
  ghost predicate Seamless(audit: seq<Audit>, status: Operational) {
    && audit != [] && audit[0] == Audit(None, DRAFT)
    && (forall k :: 0 < k < |audit| ==> audit[k].previous == Some(audit[k - 1].next))
    && audit[|audit| - 1].next == status
  }

  lemma CallKeepsExplained(c: Car, op: Op, f: Facts)
    requires Explained(c.audit, c.status)
    ensures Explained(Apply(c, op, f).audit, Apply(c, op, f).status)
  {}

  lemma CallKeepsSeamless(c: Car, op: Op, f: Facts)
    requires Seamless(c.audit, c.status)
    ensures Seamless(Apply(c, op, f).audit, Apply(c, op, f).status)
            <==> !(op.CompleteMaintenance? && !Foreign(op.actor) && c.status == MAINTENANCE)
  {
    var v, n := Apply(c, op, f), |c.audit|;
    if op.CompleteMaintenance? && |v.audit| > n {
      assert v.audit[n].previous == Some(INACTIVE) && v.audit[n - 1].next == MAINTENANCE;
    }
  }

  /** The audit log of every car is a path from DRAFT to its present status, but for the unlogged
      parking; without a completed maintenance it has no gap at all. */
  lemma {:induction false} AuditExplainsStatus(c: Car, calls: seq<Call>)
    requires Explained(c.audit, c.status)
    ensures Explained(Run(c, calls).audit, Run(c, calls).status)
    ensures Seamless(c.audit, c.status) && (forall k :: 0 <= k < |calls| ==> !calls[k].op.CompleteMaintenance?)
            ==> Seamless(Run(c, calls).audit, Run(c, calls).status)
    decreases |calls|
  {
    if calls != [] {
      CallKeepsExplained(c, calls[0].op, calls[0].facts);
      if Seamless(c.audit, c.status) {
        CallKeepsSeamless(c, calls[0].op, calls[0].facts);
      }
      AuditExplainsStatus(Apply(c, calls[0].op, calls[0].facts), calls[1..]);
    }
  }
}
