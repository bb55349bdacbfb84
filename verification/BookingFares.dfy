/** From a quoted trip to its journals: fare composition in `createBooking`, the journal of a
    trip extension, and the whole way from price to settled cancellation. */
module BookingFares {
  import opened Money
  import opened Options
  import opened Ledger
  import opened Settlement
  import opened StoredJournals
  import FC = FareCalculator
  import CP = CancellationPolicy

  /** Charges around the calculated fare: location fees of any precision, a coupon or referral
      discount in whole paise, and the protection package. */
  datatype Extras = Extras(
    deliveryFee: real,
    pickupFee: real,
    returnFee: real,
    oneWayFee: real,
    discount: Option<int>,
    protectionFee: int,
    depositAmount: int)

  ghost predicate NonNegativeExtras(e: Extras) {
    && e.deliveryFee >= 0.0 && e.pickupFee >= 0.0 && e.returnFee >= 0.0 && e.oneWayFee >= 0.0
    && (e.discount.Some? ==> e.discount.value >= 0)
    && e.protectionFee >= 0 && e.depositAmount >= 0
  }

  function Addons(e: Extras): real {
    e.deliveryFee + e.pickupFee + e.returnFee + e.oneWayFee
  }

  /** The discount that reaches the fare: never more than the calculated total. */
  function EffectiveDiscount(f: FC.Fare, e: Extras): int {
    if e.discount.None? then 0 else if e.discount.value > f.total then f.total else e.discount.value
  }

  /** The money columns of a booking made without an accepted quote. */
  ghost function Composed(f: FC.Fare, e: Extras): BookingMoney {
    BookingMoney(
      f.total - EffectiveDiscount(f, e) + e.protectionFee + HalfAway(Addons(e)),
      f.platformFee,
      f.gst,
      f.netToVendor + HalfAway(Addons(e)),
      e.depositAmount)
  }

  lemma HalfAwayShift(n: int, x: real)
    requires n >= 0 && x >= 0.0
    ensures HalfAway(n as real + x) == n + HalfAway(x)
  {}

  lemma FarePartsNonNegative(i: FC.FareInput)
    requires FC.Sensible(i)
    ensures var f := FC.CalculateFare(i);
            f.total >= 0 && f.netToVendor >= 0 && f.gst >= 0 && f.platformFee >= 0 && f.baseFare == f.netToVendor
  {
    FC.TaxAndFeeNonNegative(i);
  }

  /** `createBooking` builds the fare step by step.  The columns hold two decimals, so location
      fees of any precision are rounded once in the fare and once in the vendor share. */
  method ComposeBooking(i: FC.FareInput, e: Extras) returns (b: BookingMoney)
    requires FC.Sensible(i) && NonNegativeExtras(e)
    ensures b == Composed(FC.CalculateFare(i), e)
  {
    var f := FC.CalculateFare(i);
    FarePartsNonNegative(i);
    var totalDeliveryAddons := e.deliveryFee + e.pickupFee + e.returnFee + e.oneWayFee;
    var finalTotalFare := f.total as real + totalDeliveryAddons;
    if e.discount.Some? {
      var netPayable := if f.total - e.discount.value > 0 then f.total - e.discount.value else 0;
      finalTotalFare := netPayable as real + totalDeliveryAddons;
    }
    if e.protectionFee > 0 {
      finalTotalFare := finalTotalFare + e.protectionFee as real;
    }
    HalfAwayShift(f.total - EffectiveDiscount(f, e) + e.protectionFee, totalDeliveryAddons);
    HalfAwayShift(f.netToVendor, totalDeliveryAddons);
    b := BookingMoney(
      HalfAway(finalTotalFare), f.platformFee, f.gst, HalfAway(f.netToVendor as real + totalDeliveryAddons), e.depositAmount);
  }

  lemma ComposedNonNegative(i: FC.FareInput, e: Extras)
    requires FC.Sensible(i) && NonNegativeExtras(e)
    ensures NonNegative(Composed(FC.CalculateFare(i), e))
  {
    FarePartsNonNegative(i);
  }

  /** A composed booking has a balanced baseline exactly when the discount that reaches the fare
      is at most the platform's share of it plus the protection fee. */
  lemma ComposedBaselineBalancedIff(i: FC.FareInput, e: Extras)
    requires FC.Sensible(i) && NonNegativeExtras(e)
    ensures var f := FC.CalculateFare(i);
            Balanced(BaselineLines(Composed(f, e)))
            <==> EffectiveDiscount(f, e) <= f.total - f.baseFare - f.gst + e.protectionFee
  {
    ComposedNonNegative(i, e);
    FarePartsNonNegative(i);
    BaselineBalancedIff(Composed(FC.CalculateFare(i), e));
  }

  /** Without a discount it always balances, at every tax rate up to 100 %. */
  lemma UndiscountedBaselineBalances(i: FC.FareInput, e: Extras)
    requires FC.Sensible(i) && i.gstRatePercent <= 100.0 && NonNegativeExtras(e)
    requires e.discount.None? || e.discount.value == 0
    ensures Balanced(BaselineLines(Composed(FC.CalculateFare(i), e)))
  {
    FC.TotalCoversVendorAndGst(i);
    FarePartsNonNegative(i);
    ComposedBaselineBalancedIff(i, e);
  }

  /** The guarantee needs the bound on the discount: 10 rupees of base at 10 % commission leave a
      platform share of one rupee, and a coupon of two rupees unbalances the journal. */
  lemma LargeDiscountUnbalances()
    ensures var i := FC.DayTrip(1000.0, 10.0, FC.DEFAULT_GST_RATE);
            var e := Extras(0.0, 0.0, 0.0, 0.0, Some(200), 0, 500000);
            !Balanced(BaselineLines(Composed(FC.CalculateFare(i), e)))
  {
    var i := FC.DayTrip(1000.0, 10.0, FC.DEFAULT_GST_RATE);
    var e := Extras(0.0, 0.0, 0.0, 0.0, Some(200), 0, 500000);
    TenRupeeTrip();
    ComposedBaselineBalancedIff(i, e);
  }

  lemma TenRupeeTrip()
    ensures FC.CalculateFare(FC.DayTrip(1000.0, 10.0, FC.DEFAULT_GST_RATE)) == FC.Fare(1000, 1000, 0, 0.0, 100, 18, 1118, 1000)
  {
    FC.DayTripFare(1000.0, 10.0, FC.DEFAULT_GST_RATE);
    assert FC.PercentOf(1000.0, 10.0) == 100.0 && FC.PercentOf(100.0, 18.0) == 18.0;
    WholeFare(1000, 100, 18);
  }

  /** A fare of whole paise is not rounded. */
  lemma WholeFare(base: int, fee: int, gst: int)
    ensures FC.RoundedFare(base as real, base as real, 0.0, fee as real, gst as real)
         == FC.Fare(base, base, 0, 0.0, fee, gst, base + fee + gst, base)
  {}

  // ------------------------------------------------------- trip extensions

  /** The fare of an extension: no distance, no duration discount, default tax rate. */
  function ExtensionFare(extraBasePrice: real, commissionPercent: real, extraDays: int): FC.Fare {
    FC.CalculateFare(FC.FareInput(0.0, extraBasePrice, 0.0, commissionPercent, extraDays, 0.0, 0.0, FC.DEFAULT_GST_RATE, []))
  }

  ghost function ExtensionLines(f: FC.Fare): seq<Line> {
    [Line(GatewayClearing, Debit, f.total as real)]
    + [Line(VendorPayable, Credit, f.netToVendor as real)]
    + Push(PlatformCommissionRevenue, Credit, (f.total - f.netToVendor - f.gst) as real)
    + Push(TaxGstLiability, Credit, f.gst as real)
  }

  method BuildExtension(f: FC.Fare) returns (lines: seq<Line>)
    ensures lines == ExtensionLines(f)
  {
    var sub := f.netToVendor + f.platformFee + f.gst;
    var delta := f.total - sub;
    var adjustedPlatformFee := f.platformFee + delta;
    lines := [Line(GatewayClearing, Debit, f.total as real), Line(VendorPayable, Credit, f.netToVendor as real)];
    if adjustedPlatformFee > 0 {
      lines := lines + [Line(PlatformCommissionRevenue, Credit, adjustedPlatformFee as real)];
    }
    if f.gst > 0 {
      lines := lines + [Line(TaxGstLiability, Credit, f.gst as real)];
    }
  }

  /** An extension journal is a baseline without a deposit. */
  lemma ExtensionIsBaseline(f: FC.Fare)
    ensures ExtensionLines(f) == BaselineLines(BookingMoney(f.total, f.platformFee, f.gst, f.netToVendor, 0))
  {}

  /** Every extension fare balances its journal, and the ledger takes it exactly when the base
      rounds to at least one paisa: below that the unguarded vendor line is zero, the ledger
      refuses it and the extension is confirmed without a journal. */
  lemma ExtensionJournalExact(extraBasePrice: real, commissionPercent: real, extraDays: int)
    requires extraBasePrice >= 0.0 && commissionPercent >= 0.0
    ensures var lines := ExtensionLines(ExtensionFare(extraBasePrice, commissionPercent, extraDays));
            && Balanced(lines)
            && (Acceptable(lines) <==> extraBasePrice >= 0.5)
  {
    var i := FC.FareInput(0.0, extraBasePrice, 0.0, commissionPercent, extraDays, 0.0, 0.0, FC.DEFAULT_GST_RATE, []);
    FC.TotalCoversVendorAndGst(i);
    FarePartsNonNegative(i);
    var f := FC.CalculateFare(i);
    ExtensionIsBaseline(f);
    var b := BookingMoney(f.total, f.platformFee, f.gst, f.netToVendor, 0);
    BaselineBalancedIff(b);
    BaselineAcceptableIff(b);
    assert FC.DiscountedBase(i) == extraBasePrice;
  }

  /** `verifyExtensionPayment` swallows ledger errors, so the outcome only says whether it was
      journaled. */
  method PostExtension(books: Books, extensionId: int, extraBasePrice: real, commissionPercent: real, extraDays: int)
    returns (journaled: bool)
    requires books.Valid() && extraBasePrice >= 0.0 && commissionPercent >= 0.0
    modifies books
    ensures books.Valid()
    ensures journaled <==> extraBasePrice >= 0.5 && !HasKey(old(books.journals), ExtensionVerify(extensionId))
    ensures books.journals ==
      if journaled
      then old(books.journals)
           + [Journal(ExtensionVerify(extensionId), ExtensionLines(ExtensionFare(extraBasePrice, commissionPercent, extraDays)))]
      else old(books.journals)
  {
    var f := ExtensionFare(extraBasePrice, commissionPercent, extraDays);
    var lines := BuildExtension(f);
    ExtensionJournalExact(extraBasePrice, commissionPercent, extraDays);
    var outcome := books.RecordJournal(ExtensionVerify(extensionId), lines);
    journaled := outcome == Recorded;
  }

  // ------------------------------------------------------- the columns

  /** What becomes of each charge: the four location fees go to the customer's total and to the vendor
      alike, the discount comes off the quoted total but never below zero, protection is added, and fee,
      tax and deposit pass through. */
  lemma ComposedMeans(i: FC.FareInput, e: Extras)
    requires FC.Sensible(i) && NonNegativeExtras(e)
    ensures var f, b := FC.CalculateFare(i), Composed(FC.CalculateFare(i), e);
            var locations := e.deliveryFee + e.pickupFee + e.returnFee + e.oneWayFee;
            var quoted := if e.discount.None? then f.total
                          else if e.discount.value < f.total then f.total - e.discount.value else 0;
            && IsRounded(b.totalFare - quoted - e.protectionFee, locations)
            && IsRounded(b.netToVendor - f.netToVendor, locations)
            && b.platformFee == f.platformFee && b.gstAmount == f.gst && b.depositAmount == e.depositAmount
  {
    FarePartsNonNegative(i);
    RoundedIsNearest(Addons(e));
  }

  /** An extension costs its base, the commission on it and 18 % tax on the commission, however many days
      it adds. */
  lemma ExtensionMeans(extraBasePrice: real, commissionPercent: real, extraDays: int)
    requires extraBasePrice >= 0.0 && commissionPercent >= 0.0
    ensures var fee := FC.Hundredths(extraBasePrice, commissionPercent);
            FC.Quotes(ExtensionFare(extraBasePrice, commissionPercent, extraDays),
                      extraBasePrice, extraBasePrice, fee, FC.Hundredths(fee, 18.0))
  {
    var i := FC.FareInput(0.0, extraBasePrice, 0.0, commissionPercent, extraDays, 0.0, 0.0, FC.DEFAULT_GST_RATE, []);
    var price, base, fee, tax := FC.FareMeans(i);
    assert price == extraBasePrice && base == price;
  }

  // ------------------------------------------------------- the whole way

  /** What a cancellation request of a booking paid in full looks like. */
  function PaidRequest(b: BookingMoney, r: CP.Request): CP.Request {
    r.(amountPaid := b.totalFare + b.depositAmount, depositAmount := b.depositAmount)
  }

  /** Both journals enter the books, and only the fee is left afterwards: to the last fraction in the
      lines, and to half a paisa a share in the rows. */
  ghost predicate SettlesCleanly(b: BookingMoney, fee: int, refund: int) {
    && Acceptable(BaselineLines(b))
    && Acceptable(ReversalLines(SplitRefund(b, true, refund), refund))
    && b.totalFare > 0
    && OnlyTheFeeIsLeft(b, fee, refund)
    && OnlyTheFeeIsStored(b, fee, refund)
  }

  lemma CoveredBookingSettles(b: BookingMoney, fee: int)
    requires NonNegative(b) && b.netToVendor > 0 && b.netToVendor + b.gstAmount <= b.totalFare
    requires 0 <= fee <= b.totalFare && b.totalFare + b.depositAmount > fee
    ensures SettlesCleanly(b, fee, b.totalFare + b.depositAmount - fee)
  {
    BaselineAcceptableIff(b);
    EveryRefundAcceptable(b, true, b.totalFare + b.depositAmount - fee);
    CancellationLeavesOnlyTheFee(b, fee);
    CancellationStoresOnlyTheFee(b, fee);
  }

  /** A paid booking that gets something back settles cleanly exactly when the ledger takes its
      baseline. */
  lemma DecisionSettlesIff(b: BookingMoney, r: CP.Request)
    requires NonNegative(b) && CP.PercentRange(r.matrix)
    requires CP.Decide(PaidRequest(b, r)).refundAmount > 0
    ensures var d := CP.Decide(PaidRequest(b, r));
            SettlesCleanly(b, d.cancellationFee, d.refundAmount)
            <==> b.netToVendor + b.gstAmount <= b.totalFare && b.netToVendor > 0
  {
    var paid := PaidRequest(b, r);
    CP.FeeWithinFare(paid);
    assert CP.FarePaid(paid) == b.totalFare;
    BaselineAcceptableIff(b);
    if b.netToVendor + b.gstAmount <= b.totalFare && b.netToVendor > 0 {
      CoveredBookingSettles(b, CP.Decide(paid).cancellationFee);
    }
  }

  /** From price to settled books, with or without a discount: for every composed booking, every stored
      cancellation matrix and every moment of cancellation at which something is refunded, exactly
      when the discount is within the platform's share plus the protection fee, and the vendor gets
      anything at all. */
  lemma PriceToSettledIff(i: FC.FareInput, e: Extras, r: CP.Request)
    requires FC.Sensible(i) && NonNegativeExtras(e) && CP.PercentRange(r.matrix)
    requires CP.Decide(PaidRequest(Composed(FC.CalculateFare(i), e), r)).refundAmount > 0
    ensures var f := FC.CalculateFare(i);
            var b := Composed(f, e);
            var d := CP.Decide(PaidRequest(b, r));
            SettlesCleanly(b, d.cancellationFee, d.refundAmount)
            <==> EffectiveDiscount(f, e) <= f.total - f.baseFare - f.gst + e.protectionFee && b.netToVendor > 0
  {
    var b := Composed(FC.CalculateFare(i), e);
    ComposedNonNegative(i, e);
    ComposedBaselineBalancedIff(i, e);
    BaselineBalancedIff(b);
    DecisionSettlesIff(b, r);
  }

  /** Without a discount it always comes out clean, at every tax rate up to 100 %. */
  lemma PriceToSettledCancellation(i: FC.FareInput, e: Extras, r: CP.Request)
    requires FC.Sensible(i) && i.gstRatePercent <= 100.0 && NonNegativeExtras(e) && e.discount.None?
    requires FC.CalculateFare(i).baseFare > 0
    requires CP.PercentRange(r.matrix)
    ensures Composed(FC.CalculateFare(i), e).totalFare > 0
    ensures var b := Composed(FC.CalculateFare(i), e);
            var d := CP.Decide(PaidRequest(b, r));
            d.refundAmount > 0 ==> SettlesCleanly(b, d.cancellationFee, d.refundAmount)
  {
    FarePartsNonNegative(i);
    FC.TotalCoversVendorAndGst(i);
    if CP.Decide(PaidRequest(Composed(FC.CalculateFare(i), e), r)).refundAmount > 0 {
      PriceToSettledIff(i, e, r);
    }
  }
}
