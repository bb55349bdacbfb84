/** The settlement arithmetic of a vehicle return: extra kilometres, fuel, late hours and damage,
    and the split of the security deposit.  Charges are whole rupees, the deposit is exact. */
module ReturnSettlement {
  import opened Bookings
  import opened Money
  import opened Options

  const HOUR_MS := 3600000
  const DAY_MS := 24 * HOUR_MS
  const GRACE_MS := 45 * 60 * 1000

  datatype Handover = Handover(odometer: real, fuelPercent: int)

  /** What was agreed and recorded before the trip. */
  datatype Trip = Trip(
    start: int,
    end: int,
    includedKmTotal: Option<int>,
    extraKmRate: Option<real>,
    pricePerKm: Option<real>,
    pricePerHour: Option<real>,
    preTrip: Option<Handover>)

  /** What is observed when the car comes back. */
  datatype Return = Return(odometer: real, fuelPercent: real, time: int, damageCost: Option<real>)

  datatype Charges = Charges(extraKm: int, fuel: int, late: int, damage: int)

  function MaxReal(x: real, y: real): real {
    if x >= y then x else y
  }

  function Or(o: Option<real>, default: real): real {
    if o.Some? then o.value else default
  }

  function StartOdometer(t: Trip): real {
    if t.preTrip.Some? then t.preTrip.value.odometer else 0.0
  }

  function StartFuel(t: Trip): real {
    if t.preTrip.Some? then t.preTrip.value.fuelPercent as real else 100.0
  }

  function DurationDays(t: Trip): int {
    var days := Ceil((t.end - t.start) as real / DAY_MS as real);
    if days >= 1 then days else 1
  }

  /** A package of zero kilometres counts as no package. */
  function IncludedKm(t: Trip): int {
    if t.includedKmTotal.Some? && t.includedKmTotal.value != 0 then t.includedKmTotal.value else DurationDays(t) * 300
  }

  function ExtraKm(t: Trip, r: Return): real {
    MaxReal(0.0, r.odometer - StartOdometer(t) - IncludedKm(t) as real)
  }

  function KmRate(t: Trip): real {
    Or(t.extraKmRate, Or(t.pricePerKm, 12.0))
  }

  function FuelDeficit(t: Trip, r: Return): real {
    MaxReal(0.0, StartFuel(t) - r.fuelPercent)
  }

  predicate IsLate(t: Trip, r: Return) {
    r.time > t.end + GRACE_MS
  }

  function LateHours(t: Trip, r: Return): int {
    if IsLate(t, r) then Ceil((r.time - t.end) as real / HOUR_MS as real) else 0
  }

  /** One and a half times the hourly price. */
  function LateRate(t: Trip): real {
    Or(t.pricePerHour, 150.0) * 1.5
  }

  function KmAmount(t: Trip, r: Return): real {
    ExtraKm(t, r) * KmRate(t)
  }

  function KmCharge(t: Trip, r: Return): int {
    HalfUp(KmAmount(t, r))
  }

  function FuelCharge(t: Trip, r: Return): int {
    if FuelDeficit(t, r) > 5.0 then HalfUp(FuelDeficit(t, r) * 15.0) else 0
  }

  function LateAmount(t: Trip, r: Return): real {
    LateHours(t, r) as real * LateRate(t)
  }

  function LateCharge(t: Trip, r: Return): int {
    if IsLate(t, r) then HalfUp(LateAmount(t, r)) else 0
  }

  function ChargesFor(t: Trip, r: Return): Charges {
    Charges(KmCharge(t, r), FuelCharge(t, r), LateCharge(t, r), HalfUp(Or(r.damageCost, 0.0)))
  }

  function Total(c: Charges): int {
    c.extraKm + c.fuel + c.late + c.damage
  }

  /** Prices and the damage estimate are amounts. */
  predicate Sensible(t: Trip, r: Return) {
    && Or(t.extraKmRate, 0.0) >= 0.0 && Or(t.pricePerKm, 0.0) >= 0.0 && Or(t.pricePerHour, 0.0) >= 0.0
    && Or(r.damageCost, 0.0) >= 0.0
  }

  // ---------------------------------------------- charges

  /** A late hour that has begun is charged in full, from the scheduled end on: the grace period
      decides whether there is a charge, not how long it runs. */
  lemma LateHoursCover(t: Trip, r: Return)
    ensures IsLate(t, r) ==> LateHours(t, r) >= 1
    ensures IsLate(t, r) ==> (LateHours(t, r) - 1) * HOUR_MS < r.time - t.end <= LateHours(t, r) * HOUR_MS
    ensures !IsLate(t, r) ==> LateHours(t, r) == 0
  {
    if IsLate(t, r) {
      var late := (r.time - t.end) as real / HOUR_MS as real;
      assert late * HOUR_MS as real == (r.time - t.end) as real;
      assert late <= LateHours(t, r) as real < late + 1.0;
    }
  }

  lemma RoundedAmount(x: real)
    requires x >= 0.0
    ensures HalfUp(x) >= 0 && (HalfUp(x) == 0 <==> x < 0.5)
  {}

  lemma KmMonotone(t: Trip, r: Return, worse: Return)
    requires KmRate(t) >= 0.0 && r.odometer <= worse.odometer
    ensures KmCharge(t, r) <= KmCharge(t, worse)
    ensures 0 <= KmCharge(t, r) && (KmCharge(t, r) == 0 <==> KmAmount(t, r) < 0.5)
  {
    ScaleMonotone(ExtraKm(t, r), ExtraKm(t, worse), KmRate(t));
    assert 0.0 <= KmAmount(t, r) <= KmAmount(t, worse);
    HalfUpMonotone(KmAmount(t, r), KmAmount(t, worse));
    RoundedAmount(KmAmount(t, r));
  }

  lemma FuelMonotone(t: Trip, r: Return, worse: Return)
    requires r.fuelPercent >= worse.fuelPercent
    ensures FuelCharge(t, r) <= FuelCharge(t, worse)
    ensures 0 <= FuelCharge(t, r) && (FuelCharge(t, r) == 0 <==> FuelDeficit(t, r) <= 5.0)
  {
    var x, y := FuelDeficit(t, r) * 15.0, FuelDeficit(t, worse) * 15.0;
    HalfUpMonotone(x, y);
    RoundedAmount(x);
    RoundedAmount(y);
  }

  lemma LateHoursMonotone(t: Trip, r: Return, worse: Return)
    requires r.time <= worse.time
    ensures 0 <= LateHours(t, r) <= LateHours(t, worse)
  {
    LateHoursCover(t, r);
    LateHoursCover(t, worse);
    if IsLate(t, r) {
      CeilMonotone((r.time - t.end) as real / HOUR_MS as real, (worse.time - t.end) as real / HOUR_MS as real);
    }
  }

  lemma LateMonotone(t: Trip, r: Return, worse: Return)
    requires LateRate(t) >= 0.0 && r.time <= worse.time
    ensures LateCharge(t, r) <= LateCharge(t, worse)
    ensures 0 <= LateCharge(t, r)
    ensures LateCharge(t, r) == 0 <==> (IsLate(t, r) ==> LateAmount(t, r) < 0.5)
  {
    LateHoursMonotone(t, r, worse);
    ScaleMonotone(LateHours(t, r) as real, LateHours(t, worse) as real, LateRate(t));
    assert 0.0 <= LateAmount(t, r) <= LateAmount(t, worse);
    HalfUpMonotone(LateAmount(t, r), LateAmount(t, worse));
    RoundedAmount(LateAmount(t, r));
    RoundedAmount(LateAmount(t, worse));
  }

  /** Each charge is an amount, and there is none exactly when nothing worth half a rupee was
      driven, damaged or overstayed and at most five per cent of fuel is missing. */
  lemma ChargesAreAmounts(t: Trip, r: Return)
    requires Sensible(t, r)
    ensures var c := ChargesFor(t, r); c.extraKm >= 0 && c.fuel >= 0 && c.late >= 0 && c.damage >= 0
    ensures Total(ChargesFor(t, r)) == 0
      <==> KmAmount(t, r) < 0.5 && FuelDeficit(t, r) <= 5.0 && Or(r.damageCost, 0.0) < 0.5
           && (IsLate(t, r) ==> LateAmount(t, r) < 0.5)
  {
    KmMonotone(t, r, r);
    FuelMonotone(t, r, r);
    LateMonotone(t, r, r);
    RoundedAmount(Or(r.damageCost, 0.0));
  }

  /** Driving further, returning later, with less fuel or more damage never costs less. */
  lemma ChargesMonotone(t: Trip, r: Return, worse: Return)
    requires Sensible(t, r) && Sensible(t, worse)
    requires r.odometer <= worse.odometer && r.time <= worse.time && r.fuelPercent >= worse.fuelPercent
    requires Or(r.damageCost, 0.0) <= Or(worse.damageCost, 0.0)
    ensures Total(ChargesFor(t, r)) <= Total(ChargesFor(t, worse))
  {
    KmMonotone(t, r, worse);
    FuelMonotone(t, r, worse);
    LateMonotone(t, r, worse);
    HalfUpMonotone(Or(r.damageCost, 0.0), Or(worse.damageCost, 0.0));
  }

  // ---------------------------------------------- the price list

  /** Started days of the trip, at least one. */
  lemma DaysCover(t: Trip)
    ensures t.end > t.start ==> (DurationDays(t) - 1) * 86400000 < t.end - t.start <= DurationDays(t) * 86400000
    ensures t.end <= t.start ==> DurationDays(t) == 1
  {
    var days := (t.end - t.start) as real / DAY_MS as real;
    assert days * DAY_MS as real == (t.end - t.start) as real;
    assert days <= Ceil(days) as real < days + 1.0;
    if t.end > t.start {
      assert days > 0.0;
      assert Ceil(days) >= 1;
    } else {
      assert days <= 0.0;
    }
  }

  /** Kilometres beyond the package, or beyond 300 for every started day, at the agreed rate, the car's
      rate or 12 rupees. */
  lemma KmPrice(t: Trip, r: Return)
    ensures var start := if t.preTrip.Some? then t.preTrip.value.odometer else 0.0;
            var included := if t.includedKmTotal.Some? && t.includedKmTotal.value != 0 then t.includedKmTotal.value
                            else 300 * DurationDays(t);
            var rate := if t.extraKmRate.Some? then t.extraKmRate.value
                        else if t.pricePerKm.Some? then t.pricePerKm.value else 12.0;
            var beyond := r.odometer - start - included as real;
            if beyond <= 0.0 then ChargesFor(t, r).extraKm == 0 else IsRounded(ChargesFor(t, r).extraKm, beyond * rate)
  {
    RoundedIsNearest(KmAmount(t, r));
  }

  /** Fuel: 15 rupees for every per cent below the level at pickup, or below a full tank if nobody noted
      it, and nothing for up to five. */
  lemma FuelPrice(t: Trip, r: Return)
    ensures var level := if t.preTrip.Some? then t.preTrip.value.fuelPercent as real else 100.0;
            if level - r.fuelPercent <= 5.0 then ChargesFor(t, r).fuel == 0
            else IsRounded(ChargesFor(t, r).fuel, 15.0 * (level - r.fuelPercent))
  {
    RoundedIsNearest(15.0 * FuelDeficit(t, r));
  }

  /** Late: nothing within 45 minutes, then one and a half times the hourly price, or 150 rupees, for
      every started hour since the scheduled end. */
  lemma LatePrice(t: Trip, r: Return) returns (hours: int)
    ensures r.time <= t.end + 2700000 ==> ChargesFor(t, r).late == 0
    ensures r.time > t.end + 2700000 ==>
      && (hours - 1) * 3600000 < r.time - t.end <= hours * 3600000
      && IsRounded(ChargesFor(t, r).late, hours as real * ((if t.pricePerHour.Some? then t.pricePerHour.value else 150.0) * 1.5))
  {
    hours := LateHours(t, r);
    LateHoursCover(t, r);
    RoundedIsNearest(LateAmount(t, r));
  }

  /** Damage is what was estimated, and the four charges are all there is. */
  lemma DamagePrice(t: Trip, r: Return)
    ensures IsRounded(ChargesFor(t, r).damage, if r.damageCost.Some? then r.damageCost.value else 0.0)
    ensures var c := ChargesFor(t, r); Total(c) == c.extraKm + c.fuel + c.late + c.damage
  {
    RoundedIsNearest(Or(r.damageCost, 0.0));
  }

  // ---------------------------------------------- the deposit

  datatype DepositStatus = REQUIRED | HELD | REFUNDED | PARTIALLY_REFUNDED | FORFEITED

  datatype Settlement = FullRefund | PartialRefund | Forfeited | NoDeposit

  /** What the customer gets back: the deposit less the charges, but never more than the deposit. */
  function Refund(amount: real, charges: int): real {
    MaxReal(0.0, if charges > 0 then amount - charges as real else amount)
  }

  /** Further, later, emptier or more damaged never gets more of the deposit back. */
  lemma RefundAntitone(t: Trip, r: Return, worse: Return, amount: real)
    requires Sensible(t, r) && Sensible(t, worse)
    requires r.odometer <= worse.odometer && r.time <= worse.time && r.fuelPercent >= worse.fuelPercent
    requires Or(r.damageCost, 0.0) <= Or(worse.damageCost, 0.0)
    ensures Refund(amount, Total(ChargesFor(t, worse))) <= Refund(amount, Total(ChargesFor(t, r)))
  {
    ChargesMonotone(t, r, worse);
  }

  datatype Result = Rejected | Settled(charges: Charges, settlement: Settlement, refund: real)

  class Deposit {
    const amount: real
    var refunded: real
    var deducted: real
    var status: DepositStatus

    constructor (amount: real)
      ensures this.amount == amount && refunded == 0.0 && deducted == 0.0 && status == REQUIRED
    {
      this.amount, refunded, deducted, status := amount, 0.0, 0.0, REQUIRED;
    }

    /** A deposit that is held has not been paid out. */
    ghost predicate Valid()
      reads this
    {
      && amount >= 0.0
      && (status == REQUIRED || status == HELD ==> refunded == 0.0 && deducted == 0.0)
      && (status in {DepositStatus.REFUNDED, PARTIALLY_REFUNDED, FORFEITED} ==> refunded + deducted == amount)
    }

    method Settle(charges: int) returns (settlement: Settlement, refund: real)
      requires Valid() && status == HELD
      modifies this
      ensures Valid() && refunded + deducted == amount
      ensures refund == refunded == Refund(amount, charges)
      ensures refunded == if charges <= 0 then amount else if charges as real < amount then amount - charges as real else 0.0
      ensures settlement.FullRefund? <==> charges <= 0
      ensures settlement.Forfeited? <==> charges > 0 && refunded == 0.0
      ensures settlement.PartialRefund? <==> charges > 0 && 0.0 < refunded < amount
      ensures settlement.FullRefund? <==> status == DepositStatus.REFUNDED
      ensures settlement.PartialRefund? <==> status == PARTIALLY_REFUNDED
      ensures settlement.Forfeited? <==> status == FORFEITED
    {
      refund := 0.0;
      if charges <= 0 {
        settlement := FullRefund;
        refund := amount;
        status, refunded := DepositStatus.REFUNDED, amount;
      } else if charges as real < amount {
        settlement := PartialRefund;
        refund := amount - charges as real;
        status, deducted, refunded := PARTIALLY_REFUNDED, charges as real, refund;
      } else {
        settlement := Forfeited;
        status, deducted := FORFEITED, amount;
      }
    }
  }

  /** The settlement part of `executeReturn`, on a booking whose return code was accepted. */
  method ExecuteReturn(bookingStatus: Status, t: Trip, r: Return, deposit: Deposit?) returns (result: Result)
    requires deposit != null ==> deposit.Valid()
    modifies deposit
    ensures deposit != null ==> deposit.Valid()
    ensures result.Rejected? <==> bookingStatus !in {ONGOING, RETURN_PENDING} || r.odometer < StartOdometer(t)
    ensures result.Rejected? && deposit != null ==> unchanged(deposit)
    ensures result.Settled? ==> result.charges == ChargesFor(t, r)
    ensures result.Settled? && deposit != null && old(deposit.status) == HELD ==>
              && deposit.refunded + deposit.deducted == deposit.amount
              && result.refund == deposit.refunded == Refund(deposit.amount, Total(ChargesFor(t, r)))
              && !result.settlement.NoDeposit?
              && (result.settlement.FullRefund? <==> Total(ChargesFor(t, r)) <= 0)
    ensures result.Settled? && deposit != null && old(deposit.status) != HELD ==> unchanged(deposit)
    ensures result.Settled? && (deposit == null || old(deposit.status) != HELD) ==> result.settlement.NoDeposit? && result.refund == 0.0
  {
    if bookingStatus != ONGOING && bookingStatus != RETURN_PENDING {
      return Rejected;
    }
    if r.odometer < StartOdometer(t) {
      return Rejected;
    }
    var charges := Charges(KmCharge(t, r), FuelCharge(t, r), LateCharge(t, r), 0);
    if r.damageCost.Some? {
      charges := charges.(damage := HalfUp(r.damageCost.value));
    }
    var settlement, refund := NoDeposit, 0.0;
    if deposit != null && deposit.status == HELD {
      settlement, refund := deposit.Settle(Total(charges));
    }
    result := Settled(charges, settlement, refund);
  }
}
