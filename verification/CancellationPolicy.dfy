/** `CancellationPolicyService.calculateCancellation` and the configuration check that guards
    the matrices administrators may store. */
module CancellationPolicy {
  import opened Money
  import opened Options
  import opened SortedTiers
  import opened Bookings

  datatype Tier = Tier(minHoursBeforePickup: real, feePercent: real, name: string)

  /** `None` stands for a field that is absent or of the wrong type. */
  datatype Matrix = Matrix(
    tiers: Option<seq<Tier>>,
    afterStartFeePercent: Option<real>,
    afterStartTier: Option<string>)

  /** Times in milliseconds, amounts in paise. */
  datatype Request = Request(
    startDate: int,
    cancellationTime: int,
    amountPaid: int,
    depositAmount: int,
    actorRole: Role,
    isAdminOverride: bool,
    isPendingConfirmation: bool,
    matrix: Matrix)

  datatype Decision = Decision(tier: string, feePercent: real, cancellationFee: int, refundAmount: int)

  const DEFAULT_TIERS: seq<Tier> := [
    Tier(24.0, 0.0, "FULL_REFUND_FREE_CANCELLATION"),
    Tier(6.0, 25.0, "MODERATE_CANCELLATION"),
    Tier(0.0, 50.0, "LATE_CANCELLATION")]

  const DEFAULT_MATRIX := Matrix(Some(DEFAULT_TIERS), Some(100.0), Some("NO_REFUND_AFTER_START"))

  /** Hours to pickup, rounded to two decimals: hundredths of an hour, 36000 ms each. */
  function CentiHours(diffMs: int): int {
    HalfAway(diffMs as real / 36000.0)
  }

  function TierKey(t: Tier): real {
    t.minHoursBeforePickup
  }

  /** The 24-hour mark is exclusive, every other mark is inclusive. */
  function TierMatches(centiHours: int): Tier -> bool {
    (t: Tier) =>
      var hours := centiHours as real / 100.0;
      if t.minHoursBeforePickup == 24.0 then hours > 24.0 else hours >= t.minHoursBeforePickup
  }

  function AfterStartFee(m: Matrix): real {
    if m.afterStartFeePercent.Some? then m.afterStartFeePercent.value else 100.0
  }

  function AfterStartTier(m: Matrix): string {
    if m.afterStartTier.Some? && m.afterStartTier.value != "" then m.afterStartTier.value else "NO_REFUND_AFTER_START"
  }

  function TiersOf(m: Matrix): seq<Tier> {
    if m.tiers.Some? then m.tiers.value else DEFAULT_TIERS
  }

  /** The time-based part of the decision. */
  function TimeBased(m: Matrix, centiHours: int): (string, real) {
    if centiHours < 0 then (AfterStartTier(m), AfterStartFee(m))
    else
      var matched := Select(TiersOf(m), TierKey, TierMatches(centiHours));
      if matched.Some? then (matched.value.name, matched.value.feePercent)
      else (AfterStartTier(m), AfterStartFee(m))
  }

  /** Hosts, pending bookings and administrative overrides cancel free of charge. */
  predicate FullRefund(r: Request) {
    r.isPendingConfirmation || r.actorRole == Role.Vendor || (r.actorRole == Role.Admin && r.isAdminOverride)
  }

  function TierAndFee(r: Request): (string, real) {
    if r.isPendingConfirmation then ("PENDING_CONFIRMATION_FULL_REFUND", 0.0)
    else if r.actorRole == Role.Vendor then ("VENDOR_CANCELLED", 0.0)
    else if r.actorRole == Role.Admin && r.isAdminOverride then ("ADMIN_OVERRIDE_FULL_REFUND", 0.0)
    else TimeBased(r.matrix, CentiHours(r.startDate - r.cancellationTime))
  }

  function FarePaid(r: Request): int {
    if r.amountPaid - r.depositAmount > 0 then r.amountPaid - r.depositAmount else 0
  }

  function FeeOf(fare: int, feePercent: real): int {
    HalfAway(fare as real * feePercent / 100.0)
  }

  ghost function Decide(r: Request): Decision {
    var (tier, pct) := TierAndFee(r);
    Decision(tier, pct, FeeOf(FarePaid(r), pct), r.amountPaid - FeeOf(FarePaid(r), pct))
  }

  method CalculateCancellation(r: Request) returns (d: Decision)
    ensures d == Decide(r)
  {
    var fareNumber := FarePaid(r);
    var hoursRemaining := CentiHours(r.startDate - r.cancellationTime);
    var tier: string, feePercent: real;
    if r.isPendingConfirmation {
      tier, feePercent := "PENDING_CONFIRMATION_FULL_REFUND", 0.0;
    } else if r.actorRole == Role.Vendor {
      tier, feePercent := "VENDOR_CANCELLED", 0.0;
    } else if r.actorRole == Role.Admin && r.isAdminOverride {
      tier, feePercent := "ADMIN_OVERRIDE_FULL_REFUND", 0.0;
    } else if hoursRemaining < 0 {
      tier, feePercent := AfterStartTier(r.matrix), AfterStartFee(r.matrix);
    } else {
      var matched := SelectByLoop(TiersOf(r.matrix), TierKey, TierMatches(hoursRemaining));
      if matched.Some? {
        tier, feePercent := matched.value.name, matched.value.feePercent;
      } else {
        tier, feePercent := AfterStartTier(r.matrix), AfterStartFee(r.matrix);
      }
    }
    var fee := FeeOf(fareNumber, feePercent);
    d := Decision(tier, feePercent, fee, r.amountPaid - fee);
  }

  /** Fees do not fall as pickup nears, and none exceeds the fee after the start. */
  ghost predicate WellTiered(m: Matrix) {
    && (forall t, u :: t in TiersOf(m) && u in TiersOf(m) && TierKey(t) >= TierKey(u)
          ==> t.feePercent <= u.feePercent)
    && forall t :: t in TiersOf(m) ==> t.feePercent <= AfterStartFee(m)
  }

  ghost predicate PercentRange(m: Matrix) {
    && 0.0 <= AfterStartFee(m) <= 100.0
    && forall t :: t in TiersOf(m) ==> 0.0 <= t.feePercent <= 100.0
  }

  lemma FeePercentRisesWithDelay(m: Matrix, early: int, late: int)
    requires WellTiered(m) && late <= early
    ensures TimeBased(m, early).1 <= TimeBased(m, late).1
  {
    if late >= 0 {
      var tiers := TiersOf(m);
      SelectIsTopMatch(tiers, TierKey, TierMatches(early));
      SelectIsTopMatch(tiers, TierKey, TierMatches(late));
      assert forall t: Tier :: TierMatches(late)(t) ==> TierMatches(early)(t);
    } else if early >= 0 {
      SelectIsTopMatch(TiersOf(m), TierKey, TierMatches(early));
    }
  }

  lemma HoursFall(late: int, early: int)
    requires late <= early
    ensures CentiHours(late) <= CentiHours(early)
  {
    HalfAwayMonotone(late as real / 36000.0, early as real / 36000.0);
  }

  /** Cancelling later never costs less and never refunds more. */
  lemma LaterCancellationCostsMore(r: Request, later: int)
    requires WellTiered(r.matrix) && r.cancellationTime <= later
    ensures var e, l := Decide(r), Decide(r.(cancellationTime := later));
            e.cancellationFee <= l.cancellationFee && e.refundAmount >= l.refundAmount
  {
    if !FullRefund(r) {
      var early, late := CentiHours(r.startDate - r.cancellationTime), CentiHours(r.startDate - later);
      HoursFall(r.startDate - later, r.startDate - r.cancellationTime);
      FeeRisesWithDelay(r.matrix, FarePaid(r), early, late);
      TimedFee(r);
      TimedFee(r.(cancellationTime := later));
    } else {
      FreeOfCharge(r);
      FreeOfCharge(r.(cancellationTime := later));
    }
  }

  lemma FeeRisesWithDelay(m: Matrix, fare: int, early: int, late: int)
    requires WellTiered(m) && late <= early && fare >= 0
    ensures FeeOf(fare, TimeBased(m, early).1) <= FeeOf(fare, TimeBased(m, late).1)
  {
    FeePercentRisesWithDelay(m, early, late);
    FeeMonotone(fare, TimeBased(m, early).1, TimeBased(m, late).1);
  }

  lemma TimedFee(r: Request)
    requires !FullRefund(r)
    ensures var fee := FeeOf(FarePaid(r), TimeBased(r.matrix, CentiHours(r.startDate - r.cancellationTime)).1);
            Decide(r).cancellationFee == fee && Decide(r).refundAmount == r.amountPaid - fee
  {}

  lemma FeeMonotone(fare: int, p: real, q: real)
    requires fare >= 0 && p <= q
    ensures FeeOf(fare, p) <= FeeOf(fare, q)
  {
    assert (q - p) * fare as real >= 0.0;
    HalfAwayMonotone(fare as real * p / 100.0, fare as real * q / 100.0);
  }

  /** Fee and refund split what was paid, and the deposit is never touched by the fee. */
  lemma FeeWithinFare(r: Request)
    requires PercentRange(r.matrix) && 0 <= r.depositAmount <= r.amountPaid
    ensures var d := Decide(r);
            && 0 <= d.cancellationFee <= FarePaid(r)
            && d.refundAmount == r.amountPaid - d.cancellationFee
            && d.refundAmount >= r.depositAmount
  {
    var pct := TierAndFee(r).1;
    var hours := CentiHours(r.startDate - r.cancellationTime);
    SelectIsTopMatch(TiersOf(r.matrix), TierKey, TierMatches(hours));
    assert 0.0 <= pct <= 100.0;
    FeeMonotone(FarePaid(r), 0.0, pct);
    FeeMonotone(FarePaid(r), pct, 100.0);
  }

  /** The schedule of the default matrix, boundary cases included. */
  lemma DefaultSchedule(centiHours: int)
    ensures TimeBased(DEFAULT_MATRIX, centiHours).1 ==
            if centiHours < 0 then 100.0
            else if centiHours < 600 then 50.0
            else if centiHours <= 2400 then 25.0
            else 0.0
  {
    SelectIsTopMatch(DEFAULT_TIERS, TierKey, TierMatches(centiHours));
    assert DEFAULT_TIERS[0] in DEFAULT_TIERS && DEFAULT_TIERS[1] in DEFAULT_TIERS && DEFAULT_TIERS[2] in DEFAULT_TIERS;
  }

  // ------------------------------------------------ on the clock

  /** Hosts, customers of a booking nobody confirmed yet, and administrators who override the policy
      get everything back, at any time and under any matrix; the name of the tier says why. */
  lemma FreeOfCharge(r: Request)
    requires r.isPendingConfirmation || r.actorRole == Role.Vendor || (r.actorRole == Role.Admin && r.isAdminOverride)
    ensures Decide(r).cancellationFee == 0 && Decide(r).refundAmount == r.amountPaid && Decide(r).feePercent == 0.0
    ensures Decide(r).tier == if r.isPendingConfirmation then "PENDING_CONFIRMATION_FULL_REFUND"
                              else if r.actorRole == Role.Vendor then "VENDOR_CANCELLED"
                              else "ADMIN_OVERRIDE_FULL_REFUND"
  {}

  /** Everybody else is asked for the time. */
  predicate OnTheClock(r: Request) {
    && !r.isPendingConfirmation && r.actorRole != Role.Vendor
    && (r.actorRole == Role.Admin ==> !r.isAdminOverride)
  }

  /** The default fee in paise of a fare, so many milliseconds before pickup: nothing from 24 hours and
      18 seconds on, a quarter down to 18 seconds short of six hours, half until 18 seconds past the
      pickup, all of it from then on.  The 18 seconds are the rounding of the hours. */
  function DefaultFee(msToPickup: int, fare: nat): nat {
    if msToPickup >= 86418000 then 0
    else if msToPickup >= 21582000 then (25 * fare + 50) / 100
    else if msToPickup > -18000 then (fare + 1) / 2
    else fare
  }

  lemma QuarterAndHalf(fare: nat)
    ensures FeeOf(fare, 0.0) == 0 && FeeOf(fare, 100.0) == fare
    ensures FeeOf(fare, 25.0) == (25 * fare + 50) / 100
    ensures FeeOf(fare, 50.0) == (fare + 1) / 2
  {
    assert fare as real * 25.0 / 100.0 + 0.5 == (25 * fare + 50) as real / 100.0;
    assert fare as real * 50.0 / 100.0 + 0.5 == (fare + 1) as real / 2.0;
    FloorIsQuotient(25 * fare + 50, 100);
    FloorIsQuotient(fare + 1, 2);
  }

  lemma FloorIsQuotient(a: nat, b: nat)
    requires b > 0
    ensures (a as real / b as real).Floor == a / b
  {
    var q, rest := a / b, a % b;
    assert a == b * q + rest;
    assert a as real == b as real * q as real + rest as real;
    assert a as real / b as real == q as real + rest as real / b as real;
    assert 0.0 <= rest as real / b as real < 1.0;
  }

  lemma MarksInMs(diffMs: int)
    ensures CentiHours(diffMs) > 2400 <==> diffMs >= 86418000
    ensures CentiHours(diffMs) >= 600 <==> diffMs >= 21582000
    ensures CentiHours(diffMs) >= 0 <==> diffMs > -18000
  {}

  lemma DefaultNames(centiHours: int)
    ensures TimeBased(DEFAULT_MATRIX, centiHours).0 ==
            if centiHours < 0 then "NO_REFUND_AFTER_START"
            else if centiHours < 600 then "LATE_CANCELLATION"
            else if centiHours <= 2400 then "MODERATE_CANCELLATION"
            else "FULL_REFUND_FREE_CANCELLATION"
  {
    SelectIsTopMatch(DEFAULT_TIERS, TierKey, TierMatches(centiHours));
    assert DEFAULT_TIERS[0] in DEFAULT_TIERS && DEFAULT_TIERS[1] in DEFAULT_TIERS && DEFAULT_TIERS[2] in DEFAULT_TIERS;
  }

  /** What the default matrix costs, from the two timestamps to the paise. */
  lemma DefaultFeeInMs(r: Request)
    requires OnTheClock(r) && r.matrix == DEFAULT_MATRIX
    ensures var fare := if r.amountPaid > r.depositAmount then r.amountPaid - r.depositAmount else 0;
            && Decide(r).cancellationFee == DefaultFee(r.startDate - r.cancellationTime, fare)
            && Decide(r).refundAmount == r.amountPaid - DefaultFee(r.startDate - r.cancellationTime, fare)
    ensures var ms := r.startDate - r.cancellationTime;
            Decide(r).tier == if ms >= 86418000 then "FULL_REFUND_FREE_CANCELLATION"
                              else if ms >= 21582000 then "MODERATE_CANCELLATION"
                              else if ms > -18000 then "LATE_CANCELLATION"
                              else "NO_REFUND_AFTER_START"
  {
    var ms := r.startDate - r.cancellationTime;
    MarksInMs(ms);
    DefaultSchedule(CentiHours(ms));
    DefaultNames(CentiHours(ms));
    QuarterAndHalf(FarePaid(r));
  }

  /** The hours are the nearest hundredth of an hour to the time left. */
  lemma HoursAreNearest(diffMs: int)
    ensures -18000 <= diffMs - 36000 * CentiHours(diffMs) <= 18000
  {}

  /** A mark is reached when at least its hours are left, and the mark of 24 hours when more are. */
  ghost predicate Reached(t: Tier, hours: real) {
    if t.minHoursBeforePickup == 24.0 then hours > 24.0 else hours >= t.minHoursBeforePickup
  }

  /** Of the reached marks the one with the most hours. */
  ghost predicate Furthest(t: Tier, tiers: seq<Tier>, hours: real) {
    t in tiers && Reached(t, hours) && forall u :: u in tiers && Reached(u, hours) ==> u.minHoursBeforePickup <= t.minHoursBeforePickup
  }

  ghost predicate NoneReached(tiers: seq<Tier>, hours: real) {
    forall t :: t in tiers ==> !Reached(t, hours)
  }

  lemma FurthestIsSelected(tiers: seq<Tier>, centiHours: int)
    ensures var hours, chosen := centiHours as real / 100.0, Select(tiers, TierKey, TierMatches(centiHours));
            if chosen.Some? then Furthest(chosen.value, tiers, hours) else NoneReached(tiers, hours)
  {
    SelectIsTopMatch(tiers, TierKey, TierMatches(centiHours));
  }

  /** Under any matrix the fee is that of the reached mark with the most hours, and the fee after the
      start when none is reached or the pickup has passed. */
  lemma FeeOfFurthestMark(r: Request)
    requires OnTheClock(r)
    ensures var hours := CentiHours(r.startDate - r.cancellationTime) as real / 100.0;
            var tiers := if r.matrix.tiers.Some? then r.matrix.tiers.value else DEFAULT_TIERS;
            if hours >= 0.0 && !NoneReached(tiers, hours)
            then exists t :: Furthest(t, tiers, hours) && Decide(r).feePercent == t.feePercent && Decide(r).tier == t.name
            else && Decide(r).feePercent == (if r.matrix.afterStartFeePercent.Some? then r.matrix.afterStartFeePercent.value else 100.0)
                 && (r.matrix.afterStartTier.Some? && |r.matrix.afterStartTier.value| > 0
                     ==> Decide(r).tier == r.matrix.afterStartTier.value)
  {
    FurthestIsSelected(TiersOf(r.matrix), CentiHours(r.startDate - r.cancellationTime));
  }

  /** And that percentage of the fare, to the nearest paisa with ties up, is what it costs. */
  lemma FeeIsNearest(r: Request)
    requires Decide(r).feePercent >= 0.0
    ensures var fare := if r.amountPaid > r.depositAmount then r.amountPaid - r.depositAmount else 0;
            var fee := Decide(r).cancellationFee;
            && fee as real - 0.5 <= fare as real * Decide(r).feePercent / 100.0 < fee as real + 0.5
            && Decide(r).refundAmount == r.amountPaid - fee
  {
    ScaleMonotone(0.0, Decide(r).feePercent, FarePaid(r) as real);
  }

  /** A matrix without any field behaves like the default one. */
  lemma MissingFieldsAreDefaults(r: Request)
    ensures Decide(r.(matrix := Matrix(None, None, None))) == Decide(r.(matrix := DEFAULT_MATRIX))
    ensures Decide(r.(matrix := Matrix(None, None, Some("")))) == Decide(r.(matrix := DEFAULT_MATRIX))
  {}

  // ------------------------------------------------ configuration check

  /** What the configuration validator tests: ranges, no duplicate mark, neighbours of the
      sorted list in order, and the after-start fee not below any tier. */
  ghost predicate ValidatorAccepts(tiers: seq<Tier>, afterStartFee: real) {
    var sorted := SortDesc(tiers, TierKey);
    && tiers != []
    && (forall t :: t in tiers ==> t.minHoursBeforePickup >= 0.0 && 0.0 <= t.feePercent <= 100.0)
    && (forall i, j :: 0 <= i < j < |tiers| ==> tiers[i].minHoursBeforePickup != tiers[j].minHoursBeforePickup)
    && (forall i :: 0 < i < |sorted| ==> sorted[i - 1].feePercent <= sorted[i].feePercent)
    && 0.0 <= afterStartFee <= 100.0
    && forall t :: t in tiers ==> t.feePercent <= afterStartFee
  }

  lemma {:induction false} NeighboursToPairs(sorted: seq<Tier>, i: int, j: int)
    requires forall k :: 0 < k < |sorted| ==> sorted[k - 1].feePercent <= sorted[k].feePercent
    requires 0 <= i <= j < |sorted|
    ensures sorted[i].feePercent <= sorted[j].feePercent
    decreases j
  {
    if i < j {
      NeighboursToPairs(sorted, i, j - 1);
    }
  }

  lemma SortedPair(tiers: seq<Tier>, afterStartFee: real, p: int, q: int)
    requires ValidatorAccepts(tiers, afterStartFee)
    requires 0 <= p < |tiers| && 0 <= q < |tiers| && TierKey(tiers[p]) >= TierKey(tiers[q])
    ensures tiers[p].feePercent <= tiers[q].feePercent
  {
    if p != q {
      var sorted := SortDesc(tiers, TierKey);
      SortDescSorted(tiers, TierKey);
      SortDescMembers(tiers, TierKey, tiers[p]);
      SortDescMembers(tiers, TierKey, tiers[q]);
      var i :| 0 <= i < |sorted| && sorted[i] == tiers[p];
      var j :| 0 <= j < |sorted| && sorted[j] == tiers[q];
      assert TierKey(tiers[p]) != TierKey(tiers[q]);
      NeighboursToPairs(sorted, i, j);
    }
  }

  /** Checking neighbours of the sorted list is enough: every stored matrix is well tiered. */
  lemma AcceptedMatrixIsWellTiered(tiers: seq<Tier>, afterStartFee: real)
    requires ValidatorAccepts(tiers, afterStartFee)
    ensures WellTiered(Matrix(Some(tiers), Some(afterStartFee), None))
    ensures PercentRange(Matrix(Some(tiers), Some(afterStartFee), None))
  {
    forall p, q | 0 <= p < |tiers| && 0 <= q < |tiers| && TierKey(tiers[p]) >= TierKey(tiers[q])
      ensures tiers[p].feePercent <= tiers[q].feePercent
    {
      SortedPair(tiers, afterStartFee, p, q);
    }
  }

  /** And no more than is needed: the check accepts exactly the lists of distinct marks within range
      that are well tiered. */
  lemma AcceptedExactly(tiers: seq<Tier>, afterStartFee: real)
    ensures ValidatorAccepts(tiers, afterStartFee)
      <==> && tiers != []
           && (forall t :: t in tiers ==> t.minHoursBeforePickup >= 0.0)
           && (forall i, j :: 0 <= i < j < |tiers| ==> tiers[i].minHoursBeforePickup != tiers[j].minHoursBeforePickup)
           && PercentRange(Matrix(Some(tiers), Some(afterStartFee), None))
           && WellTiered(Matrix(Some(tiers), Some(afterStartFee), None))
  {
    if ValidatorAccepts(tiers, afterStartFee) {
      AcceptedMatrixIsWellTiered(tiers, afterStartFee);
    } else if WellTiered(Matrix(Some(tiers), Some(afterStartFee), None)) {
      var sorted := SortDesc(tiers, TierKey);
      SortDescSorted(tiers, TierKey);
      forall i | 0 < i < |sorted| ensures sorted[i - 1].feePercent <= sorted[i].feePercent {
        SortDescMembers(tiers, TierKey, sorted[i - 1]);
        SortDescMembers(tiers, TierKey, sorted[i]);
      }
    }
  }
}
