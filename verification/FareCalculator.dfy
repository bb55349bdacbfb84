/** `FareCalculatorService.calculateFare`: exact decimal arithmetic, then every part is
    rounded to two decimals on its own. */
module FareCalculator {
  import opened Money
  import opened Options
  import opened SortedTiers

  datatype DurationDiscount = DurationDiscount(minDays: real, discountPercent: real)

  /** Prices in paise, percentages as stored (10.0 means 10 %). */
  datatype FareInput = FareInput(
    distanceKm: real,
    basePackagePrice: real,
    pricePerKm: real,
    commissionPercent: real,
    durationDays: int,
    weeklyDiscountPercent: real,
    monthlyDiscountPercent: real,
    gstRatePercent: real,
    durationDiscounts: seq<DurationDiscount>)

  /** The returned parts, each rounded to whole paise. */
  datatype Fare = Fare(
    baseFare: int,
    originalBaseFare: int,
    discountAmount: int,
    discountPercent: real,
    platformFee: int,
    gst: int,
    total: int,
    netToVendor: int)

  const DEFAULT_GST_RATE := 18.0

  function InitialBase(i: FareInput): real {
    i.distanceKm * i.pricePerKm + i.basePackagePrice
  }

  /** A non-empty tier list replaces the monthly (30 days) and weekly (7 days) discounts. */
  function DiscountPercent(i: FareInput): real {
    if i.durationDiscounts != [] then
      var matched := Select(i.durationDiscounts, (t: DurationDiscount) => t.minDays,
                            (t: DurationDiscount) => i.durationDays as real >= t.minDays);
      if matched.Some? && matched.value.discountPercent > 0.0 then matched.value.discountPercent else 0.0
    else if i.durationDays >= 30 && i.monthlyDiscountPercent > 0.0 then i.monthlyDiscountPercent
    else if i.durationDays >= 7 && i.weeklyDiscountPercent > 0.0 then i.weeklyDiscountPercent
    else 0.0
  }

  function PercentOf(amount: real, pct: real): real {
    amount * (pct / 100.0)
  }

  function DiscountedBase(i: FareInput): real {
    if DiscountPercent(i) > 0.0 then InitialBase(i) - PercentOf(InitialBase(i), DiscountPercent(i)) else InitialBase(i)
  }

  /** The commission is on the base, the tax on the commission. */
  function PlatformFee(i: FareInput): real {
    PercentOf(DiscountedBase(i), i.commissionPercent)
  }

  function Gst(i: FareInput): real {
    PercentOf(PlatformFee(i), i.gstRatePercent)
  }

  /** Every part is rounded to two decimals on its own. */
  function RoundedFare(initial: real, base: real, pct: real, fee: real, gst: real): Fare {
    Fare(HalfAway(base), HalfAway(initial), HalfAway(initial - base), pct,
         HalfAway(fee), HalfAway(gst), HalfAway(base + fee + gst), HalfAway(base))
  }

  function CalculateFare(i: FareInput): Fare {
    RoundedFare(InitialBase(i), DiscountedBase(i), DiscountPercent(i), PlatformFee(i), Gst(i))
  }

  /** What the callers feed in: prices, rates and discounts that are not negative. */
  ghost predicate Sensible(i: FareInput) {
    && i.distanceKm >= 0.0 && i.pricePerKm >= 0.0 && i.basePackagePrice >= 0.0
    && i.commissionPercent >= 0.0 && i.gstRatePercent >= 0.0
    && i.weeklyDiscountPercent <= 100.0 && i.monthlyDiscountPercent <= 100.0
    && forall t :: t in i.durationDiscounts ==> t.discountPercent <= 100.0
  }

  lemma DiscountInRange(i: FareInput)
    requires Sensible(i)
    ensures 0.0 <= DiscountPercent(i) <= 100.0
  {
    SelectIsTopMatch(i.durationDiscounts, (t: DurationDiscount) => t.minDays,
                     (t: DurationDiscount) => i.durationDays as real >= t.minDays);
  }

  lemma DiscountedBaseNonNegative(i: FareInput)
    requires Sensible(i)
    ensures 0.0 <= DiscountedBase(i) <= InitialBase(i)
  {
    DiscountInRange(i);
    ScaleMonotone(0.0, i.distanceKm, i.pricePerKm);
    assert 0.0 <= InitialBase(i);
    PercentOfWithin(InitialBase(i), DiscountPercent(i));
  }

  lemma PercentOfWithin(amount: real, pct: real)
    requires amount >= 0.0 && pct >= 0.0
    ensures 0.0 <= PercentOf(amount, pct)
    ensures pct <= 100.0 ==> PercentOf(amount, pct) <= amount
  {
    ScaleMonotone(0.0, amount, pct / 100.0);
    if pct <= 100.0 {
      ShareWithin(amount, pct / 100.0);
    }
  }

  /** The longest-standing tier the trip reaches decides: no reached tier asks for more days. */
  lemma DurationTierIsLongestReached(i: FareInput)
    requires i.durationDiscounts != [] && DiscountPercent(i) > 0.0
    ensures exists t: DurationDiscount :: t in i.durationDiscounts && t.discountPercent == DiscountPercent(i)
              && i.durationDays as real >= t.minDays
              && forall u: DurationDiscount :: u in i.durationDiscounts && i.durationDays as real >= u.minDays ==> u.minDays <= t.minDays
  {
    SelectIsTopMatch(i.durationDiscounts, (t: DurationDiscount) => t.minDays,
                     (t: DurationDiscount) => i.durationDays as real >= t.minDays);
  }

  /** Rounding core: with a fee at least as large as its tax, the rounded total covers the
      rounded base plus the rounded tax. */
  lemma RoundedTotalCovers(base: real, fee: real, gst: real)
    requires base >= 0.0 && 0.0 <= gst <= fee
    ensures HalfAway(base) + HalfAway(gst) <= HalfAway(base + fee + gst)
  {
    if gst < 0.5 {
      assert HalfAway(gst) == 0;
      HalfAwayMonotone(base, base + fee + gst);
    } else {
      HalfAwayMonotone(base + 0.5 + gst, base + fee + gst);
    }
  }

  lemma TaxAndFeeNonNegative(i: FareInput)
    requires Sensible(i)
    ensures 0.0 <= DiscountedBase(i) && 0.0 <= PlatformFee(i) && 0.0 <= Gst(i)
    ensures i.gstRatePercent <= 100.0 ==> Gst(i) <= PlatformFee(i)
  {
    DiscountedBaseNonNegative(i);
    PercentOfWithin(DiscountedBase(i), i.commissionPercent);
    PercentOfWithin(PlatformFee(i), i.gstRatePercent);
  }

  /** The fare always leaves the platform a share that is not negative. */
  lemma TotalCoversVendorAndGst(i: FareInput)
    requires Sensible(i) && i.gstRatePercent <= 100.0
    ensures CalculateFare(i).total >= CalculateFare(i).netToVendor + CalculateFare(i).gst
  {
    TaxAndFeeNonNegative(i);
    RoundedTotalCovers(DiscountedBase(i), PlatformFee(i), Gst(i));
  }

  /** A trip of one day at price `price` with the given commission and tax rate. */
  function DayTrip(price: real, commissionPercent: real, gstRatePercent: real): FareInput {
    FareInput(0.0, price, 0.0, commissionPercent, 1, 0.0, 0.0, gstRatePercent, [])
  }

  /** A day trip has neither distance nor duration discount, so its fare is its price with fee and tax. */
  lemma DayTripFare(price: real, commissionPercent: real, gstRatePercent: real)
    ensures var fee := PercentOf(price, commissionPercent);
            CalculateFare(DayTrip(price, commissionPercent, gstRatePercent))
            == RoundedFare(price, price, 0.0, fee, PercentOf(fee, gstRatePercent))
  {
    assert InitialBase(DayTrip(price, commissionPercent, gstRatePercent)) == price;
  }

  ghost predicate CoversForAllPrices(gstRatePercent: real) {
    forall price: real, commission: real :: price >= 0.0 && commission >= 0.0 ==>
      var f := CalculateFare(DayTrip(price, commission, gstRatePercent));
      f.total >= f.netToVendor + f.gst
  }

  /** The platform's share survives rounding at every price and commission exactly when the tax
      rate is at most 100 %; above that half a paisa of base and of tax both round up. */
  lemma CoverageExactTaxRate(gstRatePercent: real)
    requires gstRatePercent >= 0.0
    ensures CoversForAllPrices(gstRatePercent) <==> gstRatePercent <= 100.0
  {
    if gstRatePercent <= 100.0 {
      forall price: real, commission: real | price >= 0.0 && commission >= 0.0
        ensures var f := CalculateFare(DayTrip(price, commission, gstRatePercent));
                f.total >= f.netToVendor + f.gst
      {
        TotalCoversVendorAndGst(DayTrip(price, commission, gstRatePercent));
      }
    } else {
      var rate := gstRatePercent / 100.0;
      var commission := 100.0 / rate;
      var i := DayTrip(0.5, commission, gstRatePercent);
      var fee := 0.5 * (commission / 100.0);
      assert fee * rate == 0.5;
      assert fee < 0.5;
      var f := CalculateFare(i);
      assert f.netToVendor == 1 && f.gst == 1 && f.total == 1;
    }
  }

  lemma RoundedSum(base: real, fee: real, gst: real)
    requires base >= 0.0 && fee >= 0.0 && gst >= 0.0
    ensures -1 <= HalfAway(base + fee + gst) - HalfAway(base) - HalfAway(fee) - HalfAway(gst) <= 1
  {
    HalfUpWithinHalf(base);
    HalfUpWithinHalf(fee);
    HalfUpWithinHalf(gst);
    HalfUpWithinHalf(base + fee + gst);
  }

  /** Rounding each part on its own moves the sum by at most one paisa. */
  lemma PartsWithinOnePaisa(i: FareInput)
    requires Sensible(i)
    ensures var f := CalculateFare(i);
            -1 <= f.total - f.baseFare - f.platformFee - f.gst <= 1
  {
    TaxAndFeeNonNegative(i);
    RoundedSum(DiscountedBase(i), PlatformFee(i), Gst(i));
  }

  // ------------------------------------------------ the price list

  /** So many hundredths of an amount. */
  function Hundredths(amount: real, n: real): real {
    amount * n / 100.0
  }

  lemma PercentIsHundredths(amount: real, pct: real)
    ensures PercentOf(amount, pct) == Hundredths(amount, pct)
  {}

  /** The parts are these amounts, each to the nearest paisa; the vendor gets the base. */
  ghost predicate Quotes(f: Fare, price: real, base: real, fee: real, tax: real) {
    && IsRounded(f.originalBaseFare, price) && IsRounded(f.discountAmount, price - base)
    && IsRounded(f.baseFare, base) && IsRounded(f.netToVendor, base)
    && IsRounded(f.platformFee, fee) && IsRounded(f.gst, tax) && IsRounded(f.total, base + fee + tax)
  }

  lemma RoundedFareQuotes(initial: real, base: real, pct: real, fee: real, gst: real)
    requires 0.0 <= base <= initial && fee >= 0.0 && gst >= 0.0
    ensures Quotes(RoundedFare(initial, base, pct, fee, gst), initial, base, fee, gst)
  {
    RoundedIsNearest(initial);
    RoundedIsNearest(initial - base);
    RoundedIsNearest(base);
    RoundedIsNearest(fee);
    RoundedIsNearest(gst);
    RoundedIsNearest(base + fee + gst);
  }

  lemma FareQuotes(i: FareInput)
    requires Sensible(i)
    ensures Quotes(CalculateFare(i), InitialBase(i), DiscountedBase(i), PlatformFee(i), Gst(i))
  {
    TaxAndFeeNonNegative(i);
    DiscountedBaseNonNegative(i);
    RoundedFareQuotes(InitialBase(i), DiscountedBase(i), DiscountPercent(i), PlatformFee(i), Gst(i));
  }

  /** What a quote says: the package plus the kilometres, less the discount for the duration; the platform
      gets its commission on that base, and the tax is on the commission alone. */
  lemma FareMeans(i: FareInput) returns (price: real, base: real, fee: real, tax: real)
    requires Sensible(i)
    ensures price == i.basePackagePrice + i.pricePerKm * i.distanceKm
    ensures base == price - Hundredths(price, CalculateFare(i).discountPercent)
    ensures fee == Hundredths(base, i.commissionPercent) && tax == Hundredths(fee, i.gstRatePercent)
    ensures Quotes(CalculateFare(i), price, base, fee, tax)
  {
    price, base, fee, tax := InitialBase(i), DiscountedBase(i), PlatformFee(i), Gst(i);
    FareQuotes(i);
    DiscountInRange(i);
    PercentIsHundredths(price, DiscountPercent(i));
    PercentIsHundredths(base, i.commissionPercent);
    PercentIsHundredths(fee, i.gstRatePercent);
  }

  function AtLeastZero(x: real): real {
    if x > 0.0 then x else 0.0
  }

  /** Without a list of tiers: a week earns the weekly discount, thirty days the monthly one if there is
      one, and they never add up. */
  lemma WeekAndMonth(i: FareInput)
    requires i.durationDiscounts == []
    ensures var pct := CalculateFare(i).discountPercent;
            && (i.durationDays < 7 ==> pct == 0.0)
            && (7 <= i.durationDays < 30 ==> pct == AtLeastZero(i.weeklyDiscountPercent))
            && (30 <= i.durationDays && i.monthlyDiscountPercent > 0.0 ==> pct == i.monthlyDiscountPercent)
            && (30 <= i.durationDays && i.monthlyDiscountPercent <= 0.0 ==> pct == AtLeastZero(i.weeklyDiscountPercent))
  {}

  /** With one, weekly and monthly do not matter: the reached tier with the most days decides, and
      nothing is taken off when none is reached. */
  lemma TiersReplaceWeekAndMonth(i: FareInput)
    requires i.durationDiscounts != []
    ensures var pct := CalculateFare(i).discountPercent;
            || (pct == 0.0 && forall u: DurationDiscount :: u in i.durationDiscounts ==> i.durationDays as real < u.minDays)
            || exists t: DurationDiscount :: t in i.durationDiscounts && pct == AtLeastZero(t.discountPercent)
                 && i.durationDays as real >= t.minDays
                 && forall u: DurationDiscount :: u in i.durationDiscounts && i.durationDays as real >= u.minDays ==> u.minDays <= t.minDays
  {
    SelectIsTopMatch(i.durationDiscounts, (t: DurationDiscount) => t.minDays,
                     (t: DurationDiscount) => i.durationDays as real >= t.minDays);
  }
}
