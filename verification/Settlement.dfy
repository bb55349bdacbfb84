/** The journals of one booking: payment baseline, cancellation reversal and trip extension.
    Each is built by pushing lines, moving the residual into the platform fee and leaving out
    lines that are not positive. */
module Settlement {
  import opened Money
  import opened Ledger

  /** The money columns of a booking and its deposit, in whole paise. */
  datatype BookingMoney = BookingMoney(
    totalFare: int,
    platformFee: int,
    gstAmount: int,
    netToVendor: int,
    depositAmount: int)

  ghost predicate NonNegative(b: BookingMoney) {
    b.totalFare >= 0 && b.platformFee >= 0 && b.gstAmount >= 0 && b.netToVendor >= 0 && b.depositAmount >= 0
  }

  /** A guarded push: the line only if its amount is positive. */
  function Push(account: Account, side: Side, amount: real): seq<Line> {
    if amount > 0.0 then [Line(account, side, amount)] else []
  }

  // ---------------------------------------------------------------- baseline

  ghost function BaselineLines(b: BookingMoney): seq<Line> {
    [Line(GatewayClearing, Debit, (b.totalFare + b.depositAmount) as real)]
    + [Line(VendorPayable, Credit, b.netToVendor as real)]
    + Push(PlatformCommissionRevenue, Credit, (b.totalFare - b.netToVendor - b.gstAmount) as real)
    + Push(TaxGstLiability, Credit, b.gstAmount as real)
    + Push(CustomerDepositEscrow, Credit, b.depositAmount as real)
  }

  method BuildBaseline(b: BookingMoney) returns (lines: seq<Line>)
    ensures lines == BaselineLines(b)
  {
    var totalExpected := b.totalFare + b.depositAmount;
    var subComponents := b.netToVendor + b.platformFee + b.gstAmount + b.depositAmount;
    var delta := totalExpected - subComponents;
    var adjustedPlatformFee := b.platformFee + delta;
    lines := [Line(GatewayClearing, Debit, totalExpected as real), Line(VendorPayable, Credit, b.netToVendor as real)];
    if adjustedPlatformFee > 0 {
      lines := lines + [Line(PlatformCommissionRevenue, Credit, adjustedPlatformFee as real)];
    }
    if b.gstAmount > 0 {
      lines := lines + [Line(TaxGstLiability, Credit, b.gstAmount as real)];
    }
    if b.depositAmount > 0 {
      lines := lines + [Line(CustomerDepositEscrow, Credit, b.depositAmount as real)];
    }
  }

  function Pos(x: real): real {
    if x > 0.0 then x else 0.0
  }

  lemma PushPosted(account: Account, side: Side, amount: real, a: Account, s: Side)
    ensures Posted(Push(account, side, amount), a, s) == if account == a && side == s then Pos(amount) else 0.0
    ensures Total(Push(account, side, amount), s) == if side == s then Pos(amount) else 0.0
  {
    if amount > 0.0 {
      assert [Line(account, side, amount)][1..] == [];
    }
  }

  /** Posted amounts of five consecutive pieces. */
  lemma FivePieces(p: seq<Line>, q: seq<Line>, r: seq<Line>, s: seq<Line>, t: seq<Line>, account: Account, side: Side)
    ensures Posted(p + q + r + s + t, account, side)
         == Posted(p, account, side) + Posted(q, account, side) + Posted(r, account, side)
          + Posted(s, account, side) + Posted(t, account, side)
    ensures Total(p + q + r + s + t, side)
         == Total(p, side) + Total(q, side) + Total(r, side) + Total(s, side) + Total(t, side)
  {
    PostedConcat(p, q, account, side);
    PostedConcat(p + q, r, account, side);
    PostedConcat(p + q + r, s, account, side);
    PostedConcat(p + q + r + s, t, account, side);
    TotalConcat(p, q, side);
    TotalConcat(p + q, r, side);
    TotalConcat(p + q + r, s, side);
    TotalConcat(p + q + r + s, t, side);
  }

  lemma SingleLine(account: Account, side: Side, amount: real, a: Account, s: Side)
    ensures Posted([Line(account, side, amount)], a, s) == if account == a && side == s then amount else 0.0
    ensures Total([Line(account, side, amount)], s) == if side == s then amount else 0.0
  {
    assert [Line(account, side, amount)][1..] == [];
  }

  lemma BaselinePieces(b: BookingMoney, a: Account, s: Side)
    ensures Posted(BaselineLines(b), a, s) ==
      match (a, s)
      case (GatewayClearing, Debit) => (b.totalFare + b.depositAmount) as real
      case (VendorPayable, Credit) => b.netToVendor as real
      case (PlatformCommissionRevenue, Credit) => Pos((b.totalFare - b.netToVendor - b.gstAmount) as real)
      case (TaxGstLiability, Credit) => Pos(b.gstAmount as real)
      case (CustomerDepositEscrow, Credit) => Pos(b.depositAmount as real)
      case _ => 0.0
    ensures Total(BaselineLines(b), s) ==
      match s
      case Debit => (b.totalFare + b.depositAmount) as real
      case Credit =>
        b.netToVendor as real + Pos((b.totalFare - b.netToVendor - b.gstAmount) as real)
        + Pos(b.gstAmount as real) + Pos(b.depositAmount as real)
  {
    var platform := (b.totalFare - b.netToVendor - b.gstAmount) as real;
    FivePieces([Line(GatewayClearing, Debit, (b.totalFare + b.depositAmount) as real)],
               [Line(VendorPayable, Credit, b.netToVendor as real)],
               Push(PlatformCommissionRevenue, Credit, platform),
               Push(TaxGstLiability, Credit, b.gstAmount as real),
               Push(CustomerDepositEscrow, Credit, b.depositAmount as real), a, s);
    SingleLine(GatewayClearing, Debit, (b.totalFare + b.depositAmount) as real, a, s);
    SingleLine(VendorPayable, Credit, b.netToVendor as real, a, s);
    PushPosted(PlatformCommissionRevenue, Credit, platform, a, s);
    PushPosted(TaxGstLiability, Credit, b.gstAmount as real, a, s);
    PushPosted(CustomerDepositEscrow, Credit, b.depositAmount as real, a, s);
  }

  /** The residual trick balances exactly when there is a residual to push. */
  lemma BaselineBalancedIff(b: BookingMoney)
    requires NonNegative(b)
    ensures Balanced(BaselineLines(b)) <==> b.totalFare >= b.netToVendor + b.gstAmount
  {
    BaselinePieces(b, GatewayClearing, Debit);
    BaselinePieces(b, GatewayClearing, Credit);
  }

  /** The ledger also refuses zero lines, and the first two lines are pushed unguarded. */
  lemma BaselineAcceptableIff(b: BookingMoney)
    requires NonNegative(b)
    ensures Acceptable(BaselineLines(b)) <==> b.totalFare >= b.netToVendor + b.gstAmount && b.netToVendor > 0
  {
    BaselineBalancedIff(b);
    var lines := BaselineLines(b);
    assert lines[0].amount == (b.totalFare + b.depositAmount) as real;
    assert lines[1].amount == b.netToVendor as real;
    assert lines[0] in lines && lines[1] in lines;
  }

  // ---------------------------------------------------------------- reversal

  /** How a refund is taken back from the accounts. */
  datatype Reversal = Reversal(deposit: real, vendor: real, platform: real, gst: real)

  function Min(x: real, y: real): real {
    if x <= y then x else y
  }

  /** The part of the refund that is not the deposit. */
  ghost function FareRefund(b: BookingMoney, depositLive: bool, refund: int): int {
    if depositLive && b.depositAmount > 0
    then (if refund <= b.depositAmount then 0 else refund - b.depositAmount)
    else refund
  }

  /** Share `k` of the vendor and tax shares, the rest of the fare part from the platform. */
  ghost function SplitShare(k: real, deposit: real, x: real, net: real, gst: real): Reversal {
    var vendor := Min(net, net * k);
    Reversal(deposit, vendor, x - vendor - gst * k, gst * k)
  }

  ghost function SplitRefund(b: BookingMoney, depositLive: bool, refund: int): Reversal {
    var x := FareRefund(b, depositLive, refund) as real;
    var deposit := refund as real - x;
    if b.totalFare > 0 && x > 0.0
    then SplitShare(x / b.totalFare as real, deposit, x, b.netToVendor as real, b.gstAmount as real)
    else Reversal(deposit, Min(b.netToVendor as real, x), x - Min(b.netToVendor as real, x), 0.0)
  }

  ghost function ReversalLines(split: Reversal, refund: int): seq<Line> {
    Push(CustomerDepositEscrow, Debit, split.deposit)
    + Push(VendorPayable, Debit, split.vendor)
    + Push(PlatformCommissionRevenue, Debit, split.platform)
    + Push(TaxGstLiability, Debit, split.gst)
    + [Line(GatewayClearing, Credit, refund as real)]
  }

  /** The proportional shares, with the residual pushed into the platform part. */
  method ShareReversal(refund: real, depositRefund: real, ratio: real, net: real, fee: real, gst: real)
    returns (split: Reversal)
    ensures split == SplitShare(ratio, depositRefund, refund - depositRefund, net, gst)
  {
    var vendorReversal := Min(net, net * ratio);
    var platformReversal := fee * ratio;
    var gstReversal := gst * ratio;
    var sub := vendorReversal + platformReversal + gstReversal + depositRefund;
    var diff := refund - sub;
    platformReversal := platformReversal + diff;
    split := Reversal(depositRefund, vendorReversal, platformReversal, gstReversal);
  }

  method ComputeReversal(b: BookingMoney, depositLive: bool, refundPaise: int) returns (split: Reversal)
    requires NonNegative(b) && refundPaise > 0
    ensures split == SplitRefund(b, depositLive, refundPaise)
  {
    var refund := refundPaise as real;
    var depositRefund := if b.depositAmount > 0 && depositLive then Min(b.depositAmount as real, refund) else 0.0;
    var fareRefund := if refund - depositRefund >= 0.0 then refund - depositRefund else 0.0;
    var vendorReversal, platformReversal := 0.0, 0.0;
    if b.totalFare > 0 && fareRefund > 0.0 {
      var ratio := fareRefund / b.totalFare as real;
      split := ShareReversal(refund, depositRefund, ratio, b.netToVendor as real, b.platformFee as real, b.gstAmount as real);
      return;
    } else if depositRefund < refund {
      vendorReversal := Min(b.netToVendor as real, refund - depositRefund);
      platformReversal := refund - depositRefund - vendorReversal;
    }
    split := Reversal(depositRefund, vendorReversal, platformReversal, 0.0);
  }

  method BuildReversal(b: BookingMoney, depositLive: bool, refundPaise: int) returns (lines: seq<Line>)
    requires NonNegative(b) && refundPaise > 0
    ensures lines == ReversalLines(SplitRefund(b, depositLive, refundPaise), refundPaise)
  {
    var split := ComputeReversal(b, depositLive, refundPaise);
    lines := PushReversal(split, refundPaise);
  }

  method PushReversal(split: Reversal, refundPaise: int) returns (lines: seq<Line>)
    ensures lines == ReversalLines(split, refundPaise)
  {
    lines := [];
    if split.deposit > 0.0 {
      lines := lines + [Line(CustomerDepositEscrow, Debit, split.deposit)];
    }
    assert lines == Push(CustomerDepositEscrow, Debit, split.deposit);
    if split.vendor > 0.0 {
      lines := lines + [Line(VendorPayable, Debit, split.vendor)];
    }
    if split.platform > 0.0 {
      lines := lines + [Line(PlatformCommissionRevenue, Debit, split.platform)];
    }
    if split.gst > 0.0 {
      lines := lines + [Line(TaxGstLiability, Debit, split.gst)];
    }
    lines := lines + [Line(GatewayClearing, Credit, refundPaise as real)];
  }

  lemma ReversalPieces(split: Reversal, refund: int, a: Account, s: Side)
    ensures Posted(ReversalLines(split, refund), a, s) ==
      match (a, s)
      case (GatewayClearing, Credit) => refund as real
      case (VendorPayable, Debit) => Pos(split.vendor)
      case (PlatformCommissionRevenue, Debit) => Pos(split.platform)
      case (TaxGstLiability, Debit) => Pos(split.gst)
      case (CustomerDepositEscrow, Debit) => Pos(split.deposit)
      case _ => 0.0
    ensures Total(ReversalLines(split, refund), s) ==
      match s
      case Debit => Pos(split.deposit) + Pos(split.vendor) + Pos(split.platform) + Pos(split.gst)
      case Credit => refund as real
  {
    FivePieces(Push(CustomerDepositEscrow, Debit, split.deposit),
               Push(VendorPayable, Debit, split.vendor),
               Push(PlatformCommissionRevenue, Debit, split.platform),
               Push(TaxGstLiability, Debit, split.gst),
               [Line(GatewayClearing, Credit, refund as real)], a, s);
    PushPosted(CustomerDepositEscrow, Debit, split.deposit, a, s);
    PushPosted(VendorPayable, Debit, split.vendor, a, s);
    PushPosted(PlatformCommissionRevenue, Debit, split.platform, a, s);
    PushPosted(TaxGstLiability, Debit, split.gst, a, s);
    SingleLine(GatewayClearing, Credit, refund as real, a, s);
  }

  lemma DivisionUndone(x: real, fare: real)
    requires fare > 0.0
    ensures (x / fare) * fare == x
  {}

  lemma SplitShareParts(k: real, deposit: real, x: real, fare: real, net: real, gst: real)
    requires fare > 0.0 && x >= 0.0 && net >= 0.0 && gst >= 0.0 && k * fare == x
    ensures var s := SplitShare(k, deposit, x, net, gst);
            s.vendor >= 0.0 && s.gst >= 0.0 && s.vendor + s.platform + s.gst == x
    ensures SplitShare(k, deposit, x, net, gst).vendor == if x <= fare then net * k else net
  {
    ShareSign(k, x, fare);
    ScaleMonotone(0.0, k, net);
    ScaleMonotone(0.0, k, gst);
    var p := net * k;
    if x <= fare { ScaleMonotone(k, 1.0, net); assert p <= net; }
    if x >= fare { ScaleMonotone(1.0, k, net); assert p >= net; }
  }

  /** All but the platform part of a split are never negative, and the parts add up. */
  lemma SplitParts(b: BookingMoney, depositLive: bool, refund: int)
    requires NonNegative(b) && refund > 0
    ensures var s := SplitRefund(b, depositLive, refund);
            && s.deposit >= 0.0 && s.vendor >= 0.0 && s.gst >= 0.0
            && s.deposit + s.vendor + s.platform + s.gst == refund as real
  {
    var x := FareRefund(b, depositLive, refund) as real;
    if b.totalFare > 0 && x > 0.0 {
      var fare := b.totalFare as real;
      var k := x / fare;
      DivisionUndone(x, fare);
      SplitShareParts(k, refund as real - x, x, fare, b.netToVendor as real, b.gstAmount as real);
    }
  }

  /** How a refund is taken back: the live deposit first, then of every paisa of the fare that goes back the
      vendor's and the tax's fraction, the vendor's never beyond what it had, and the rest from the
      platform. */
  lemma ReversalMeans(b: BookingMoney, depositLive: bool, refund: int)
    requires NonNegative(b) && refund > 0
    ensures var s := SplitRefund(b, depositLive, refund);
            var escrow := if !depositLive then 0 else if refund < b.depositAmount then refund else b.depositAmount;
            var x, fare := (refund - escrow) as real, b.totalFare as real;
            && s.deposit == escrow as real
            && s.vendor + s.platform + s.gst == x
            && (fare > 0.0 ==> s.gst * fare == b.gstAmount as real * x)
            && (fare > 0.0 && x <= fare ==> s.vendor * fare == b.netToVendor as real * x)
            && (fare > 0.0 && x > fare ==> s.vendor == b.netToVendor as real)
            && (fare == 0.0 ==> s.gst == 0.0 && s.vendor == if x < b.netToVendor as real then x else b.netToVendor as real)
  {
    var x, fare := FareRefund(b, depositLive, refund) as real, b.totalFare as real;
    if fare > 0.0 && x > 0.0 {
      var k := x / fare;
      DivisionUndone(x, fare);
      SplitShareParts(k, refund as real - x, x, fare, b.netToVendor as real, b.gstAmount as real);
      MulAssoc(b.netToVendor as real, k, fare);
      MulAssoc(b.gstAmount as real, k, fare);
    }
  }

  lemma ReversalAcceptableIffPlatform(b: BookingMoney, depositLive: bool, refund: int)
    requires NonNegative(b) && refund > 0
    ensures var s := SplitRefund(b, depositLive, refund);
            Acceptable(ReversalLines(s, refund)) <==> s.platform >= 0.0
    ensures var s := SplitRefund(b, depositLive, refund);
            Balanced(ReversalLines(s, refund)) <==> s.platform >= 0.0
  {
    var s := SplitRefund(b, depositLive, refund);
    SplitParts(b, depositLive, refund);
    ReversalPieces(s, refund, GatewayClearing, Debit);
    ReversalPieces(s, refund, GatewayClearing, Credit);
  }

  /** When the fare part of the refund can be taken back: always when there is no fare part or
      no fare, for refunds of up to the fare exactly when the vendor and tax shares fit the fare,
      and beyond the fare exactly when the larger tax reversal still leaves room. */
  ghost predicate ReversalFits(b: BookingMoney, x: int) {
    || b.totalFare == 0
    || x == 0
    || ShareFits(b.totalFare as real, b.netToVendor as real, b.gstAmount as real, x as real)
  }

  ghost predicate ShareFits(fare: real, net: real, gst: real, x: real) {
    if x <= fare then net + gst <= fare else net * fare <= x * (fare - gst)
  }

  /** The sign of the platform residual, with the division cleared. */
  lemma PlatformSign(k: real, deposit: real, x: real, fare: real, net: real, gst: real)
    requires fare > 0.0 && net >= 0.0 && gst >= 0.0 && x > 0.0 && k * fare == x
    ensures SplitShare(k, deposit, x, net, gst).platform >= 0.0 <==> ShareFits(fare, net, gst, x)
  {
    SplitShareParts(k, deposit, x, fare, net, gst);
    var rest := SplitShare(k, deposit, x, net, gst).platform;
    SignTimesPositive(rest, fare);
    if x <= fare {
      assert rest == x - net * k - gst * k;
      RestBelowFare(k, fare, net, gst, x);
      SignTimesPositive(fare - net - gst, x);
    } else {
      assert rest == x - net - gst * k;
      RestBeyondFare(k, fare, net, gst, x);
    }
  }

  lemma ReversalAcceptableIff(b: BookingMoney, depositLive: bool, refund: int)
    requires NonNegative(b) && refund > 0
    ensures Acceptable(ReversalLines(SplitRefund(b, depositLive, refund), refund))
            <==> ReversalFits(b, FareRefund(b, depositLive, refund))
  {
    ReversalAcceptableIffPlatform(b, depositLive, refund);
    var x := FareRefund(b, depositLive, refund) as real;
    if b.totalFare > 0 && x > 0.0 {
      var fare := b.totalFare as real;
      var k := x / fare;
      DivisionUndone(x, fare);
      PlatformSign(k, refund as real - x, x, fare, b.netToVendor as real, b.gstAmount as real);
    }
  }

  /** With the vendor and tax shares within the fare, every positive refund can be journaled,
      whether its fare part is below or beyond the fare. */
  lemma EveryRefundAcceptable(b: BookingMoney, depositLive: bool, refund: int)
    requires NonNegative(b) && refund > 0 && b.netToVendor + b.gstAmount <= b.totalFare
    ensures Acceptable(ReversalLines(SplitRefund(b, depositLive, refund), refund))
  {
    ReversalAcceptableIff(b, depositLive, refund);
    ShareFitsBeyond(b.totalFare as real, b.netToVendor as real, b.gstAmount as real,
                    FareRefund(b, depositLive, refund) as real);
  }

  lemma ShareFitsBeyond(fare: real, net: real, gst: real, x: real)
    requires net >= 0.0 && gst >= 0.0 && net + gst <= fare
    ensures ShareFits(fare, net, gst, x)
  {
    if x > fare {
      ScaleMonotone(net, fare - gst, fare);
      ScaleMonotone(fare, x, fare - gst);
      var p, q := net * fare, (fare - gst) * fare;
      assert q == fare * (fare - gst);
      assert p <= q;
    }
  }

  /** After baseline and reversal the deposit is gone from escrow, clearing keeps the fee, and
      vendor, tax and platform keep the same fraction of their baseline. */
  ghost predicate OnlyTheFeeIsLeft(b: BookingMoney, fee: int, refund: int)
    requires b.totalFare > 0
  {
    var kept := fee as real / b.totalFare as real;
    var lines := BaselineLines(b) + ReversalLines(SplitRefund(b, true, refund), refund);
    && 0.0 <= kept <= 1.0
    && Balance(lines, CustomerDepositEscrow) == 0.0
    && Balance(lines, GatewayClearing) == fee as real
    && Balance(lines, VendorPayable) == b.netToVendor as real * kept
    && Balance(lines, TaxGstLiability) == b.gstAmount as real * kept
    && Balance(lines, PlatformCommissionRevenue) == (b.totalFare - b.netToVendor - b.gstAmount) as real * kept
  }

  /** Books of a cancelled PAID booking, for every fee up to the fare that leaves a refund. */
  lemma CancellationLeavesOnlyTheFee(b: BookingMoney, fee: int)
    requires NonNegative(b) && 0 <= fee <= b.totalFare
    requires b.totalFare > 0 && b.netToVendor + b.gstAmount <= b.totalFare
    requires b.totalFare + b.depositAmount > fee
    ensures OnlyTheFeeIsLeft(b, fee, b.totalFare + b.depositAmount - fee)
  {
    var refund := b.totalFare + b.depositAmount - fee;
    var split := SplitRefund(b, true, refund);
    SplitAfterFee(b, fee);
    BalancesOf(b, split, refund);
    BalanceConcat(BaselineLines(b), ReversalLines(split, refund), GatewayClearing);
    BalanceConcat(BaselineLines(b), ReversalLines(split, refund), VendorPayable);
    BalanceConcat(BaselineLines(b), ReversalLines(split, refund), PlatformCommissionRevenue);
    BalanceConcat(BaselineLines(b), ReversalLines(split, refund), TaxGstLiability);
    BalanceConcat(BaselineLines(b), ReversalLines(split, refund), CustomerDepositEscrow);
  }

  /** A split that takes the same fraction of each share back and leaves `kept` of it. */
  ghost predicate KeepsFraction(s: Reversal, kept: real, net: real, gst: real, platform: real) {
    && s.vendor >= 0.0 && s.gst >= 0.0 && s.platform >= 0.0
    && net - s.vendor == net * kept
    && gst - s.gst == gst * kept
    && platform - s.platform == platform * kept
  }

  lemma SplitAfterFee(b: BookingMoney, fee: int)
    requires NonNegative(b) && 0 <= fee <= b.totalFare
    requires b.totalFare > 0 && b.netToVendor + b.gstAmount <= b.totalFare
    requires b.totalFare + b.depositAmount > fee
    ensures var split := SplitRefund(b, true, b.totalFare + b.depositAmount - fee);
            var kept := fee as real / b.totalFare as real;
            var platform := (b.totalFare - b.netToVendor - b.gstAmount) as real;
            && 0.0 <= kept <= 1.0
            && split.deposit == b.depositAmount as real
            && KeepsFraction(split, kept, b.netToVendor as real, b.gstAmount as real, platform)
  {
    var F, fe := b.totalFare as real, fee as real;
    if fee == b.totalFare {
      FullFeeKeepsAll(b);
    } else {
      SplitIsShare(b, fee);
      DivisionUndone(fe, F);
      DivisionUndone(F - fe, F);
      SplitKeepsFraction(fe / F, (F - fe) / F, b.depositAmount as real, F, fe,
                         b.netToVendor as real, b.gstAmount as real, (b.totalFare - b.netToVendor - b.gstAmount) as real);
    }
  }

  lemma SplitIsShare(b: BookingMoney, fee: int)
    requires NonNegative(b) && 0 <= fee < b.totalFare
    ensures var F, fe := b.totalFare as real, fee as real;
            SplitRefund(b, true, b.totalFare + b.depositAmount - fee)
            == SplitShare((F - fe) / F, b.depositAmount as real, F - fe, b.netToVendor as real, b.gstAmount as real)
  {
    assert FareRefund(b, true, b.totalFare + b.depositAmount - fee) == b.totalFare - fee;
  }

  lemma FullFeeKeepsAll(b: BookingMoney)
    requires NonNegative(b) && b.totalFare > 0 && b.depositAmount > 0
    ensures b.totalFare as real / b.totalFare as real == 1.0
    ensures SplitRefund(b, true, b.depositAmount) == Reversal(b.depositAmount as real, 0.0, 0.0, 0.0)
  {}

  lemma BalancesOf(b: BookingMoney, split: Reversal, refund: int)
    ensures Balance(BaselineLines(b), GatewayClearing) == (b.totalFare + b.depositAmount) as real
    ensures Balance(BaselineLines(b), VendorPayable) == b.netToVendor as real
    ensures Balance(BaselineLines(b), PlatformCommissionRevenue) == Pos((b.totalFare - b.netToVendor - b.gstAmount) as real)
    ensures Balance(BaselineLines(b), TaxGstLiability) == Pos(b.gstAmount as real)
    ensures Balance(BaselineLines(b), CustomerDepositEscrow) == Pos(b.depositAmount as real)
    ensures Balance(ReversalLines(split, refund), GatewayClearing) == -(refund as real)
    ensures Balance(ReversalLines(split, refund), VendorPayable) == -Pos(split.vendor)
    ensures Balance(ReversalLines(split, refund), PlatformCommissionRevenue) == -Pos(split.platform)
    ensures Balance(ReversalLines(split, refund), TaxGstLiability) == -Pos(split.gst)
    ensures Balance(ReversalLines(split, refund), CustomerDepositEscrow) == -Pos(split.deposit)
  {
    BaselinePieces(b, GatewayClearing, Debit);
    BaselinePieces(b, GatewayClearing, Credit);
    BaselinePieces(b, VendorPayable, Debit);
    BaselinePieces(b, VendorPayable, Credit);
    BaselinePieces(b, PlatformCommissionRevenue, Debit);
    BaselinePieces(b, PlatformCommissionRevenue, Credit);
    BaselinePieces(b, TaxGstLiability, Debit);
    BaselinePieces(b, TaxGstLiability, Credit);
    BaselinePieces(b, CustomerDepositEscrow, Debit);
    BaselinePieces(b, CustomerDepositEscrow, Credit);
    ReversalPieces(split, refund, GatewayClearing, Debit);
    ReversalPieces(split, refund, GatewayClearing, Credit);
    ReversalPieces(split, refund, VendorPayable, Debit);
    ReversalPieces(split, refund, VendorPayable, Credit);
    ReversalPieces(split, refund, PlatformCommissionRevenue, Debit);
    ReversalPieces(split, refund, PlatformCommissionRevenue, Credit);
    ReversalPieces(split, refund, TaxGstLiability, Debit);
    ReversalPieces(split, refund, TaxGstLiability, Credit);
    ReversalPieces(split, refund, CustomerDepositEscrow, Debit);
    ReversalPieces(split, refund, CustomerDepositEscrow, Credit);
  }

  /** Taking `k` of every share back leaves `kept` of it. */
  lemma SplitKeepsFraction(kept: real, k: real, deposit: real, F: real, fee: real, net: real, gst: real, platform: real)
    requires F > 0.0 && 0.0 <= fee <= F && net >= 0.0 && gst >= 0.0 && platform >= 0.0
    requires platform == F - net - gst
    requires kept * F == fee && k * F == F - fee
    ensures 0.0 <= kept <= 1.0
    ensures KeepsFraction(SplitShare(k, deposit, F - fee, net, gst), kept, net, gst, platform)
  {
    KeptShare(kept, k, F, fee);
    ShareSign(kept, fee, F);
    SplitShareParts(k, deposit, F - fee, F, net, gst);
    var s := SplitShare(k, deposit, F - fee, net, gst);
    TakeAway(net, kept);
    TakeAway(gst, kept);
    TakeAway(platform, kept);
    assert s.vendor == net * k;
    RestTimes(F, net, gst, kept);
    ScaleMonotone(0.0, k, platform);
  }

  lemma RestTimes(F: real, net: real, gst: real, kept: real)
    ensures (F - net - gst) * kept == kept * F - net * kept - gst * kept
  {}

  lemma TakeAway(amount: real, kept: real)
    ensures amount - amount * (1.0 - kept) == amount * kept
  {}
}
