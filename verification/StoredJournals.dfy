/** Ledger rows hold two decimals, but the ledger checks the balance before they are stored: what
    rounding each row on its own does to a journal. */
module StoredJournals {
  import opened Ledger
  import opened Money
  import opened Settlement

  lemma StoredPush(account: Account, side: Side, amount: real, s: Side)
    ensures Total(Stored(Push(account, side, amount)), s) == if side == s then HalfAway(Pos(amount)) as real else 0.0
  {
    if amount > 0.0 {
      StoredOne(Line(account, side, amount));
      SingleLine(account, side, HalfAway(amount) as real, account, s);
    }
  }

  lemma StoredFive(p: seq<Line>, q: seq<Line>, r: seq<Line>, s: seq<Line>, t: seq<Line>, side: Side)
    ensures Total(Stored(p + q + r + s + t), side)
         == Total(Stored(p), side) + Total(Stored(q), side) + Total(Stored(r), side)
          + Total(Stored(s), side) + Total(Stored(t), side)
  {
    StoredConcat(p, q);
    StoredConcat(p + q, r);
    StoredConcat(p + q + r, s);
    StoredConcat(p + q + r + s, t);
    FivePieces(Stored(p), Stored(q), Stored(r), Stored(s), Stored(t), GatewayClearing, side);
  }

  lemma StoredReversalTotal(split: Reversal, refund: int, side: Side)
    requires refund > 0
    ensures Total(Stored(ReversalLines(split, refund)), side)
         == match side
            case Credit => refund as real
            case Debit => HalfAway(Pos(split.deposit)) as real + HalfAway(Pos(split.vendor)) as real
                          + HalfAway(Pos(split.platform)) as real + HalfAway(Pos(split.gst)) as real
  {
    StoredFive(Push(CustomerDepositEscrow, Debit, split.deposit), Push(VendorPayable, Debit, split.vendor),
               Push(PlatformCommissionRevenue, Debit, split.platform), Push(TaxGstLiability, Debit, split.gst),
               [Line(GatewayClearing, Credit, refund as real)], side);
    StoredPush(CustomerDepositEscrow, Debit, split.deposit, side);
    StoredPush(VendorPayable, Debit, split.vendor, side);
    StoredPush(PlatformCommissionRevenue, Debit, split.platform, side);
    StoredPush(TaxGstLiability, Debit, split.gst, side);
    StoredOne(Line(GatewayClearing, Credit, refund as real));
    WholeRounds(refund);
    SingleLine(GatewayClearing, Credit, refund as real, GatewayClearing, side);
  }

  lemma WholeRounds(n: int)
    ensures HalfAway(n as real) == n
  {}

  /** Three parts that add up to whole paise, rounded on their own, miss the sum by one at most. */
  lemma ThreeParts(n: int, v: real, p: real, g: real)
    requires v >= 0.0 && p >= 0.0 && g >= 0.0 && v + p + g == n as real
    ensures n - 1 <= HalfAway(v) + HalfAway(p) + HalfAway(g) <= n + 1
  {
    HalfUpWithinHalf(v);
    HalfUpWithinHalf(p);
    HalfUpWithinHalf(g);
  }

  lemma DepositPart(b: BookingMoney, depositLive: bool, refund: int)
    requires NonNegative(b) && refund > 0
    ensures SplitRefund(b, depositLive, refund).deposit == (refund - FareRefund(b, depositLive, refund)) as real
    ensures 0 <= FareRefund(b, depositLive, refund) <= refund
  {}

  /** Every reversal the ledger accepts is stored within one paisa of balance. */
  lemma StoredReversalWithinOnePaisa(b: BookingMoney, depositLive: bool, refund: int)
    requires NonNegative(b) && refund > 0
    requires Acceptable(ReversalLines(SplitRefund(b, depositLive, refund), refund))
    ensures var rows := Stored(ReversalLines(SplitRefund(b, depositLive, refund), refund));
            -1.0 <= Total(rows, Debit) - Total(rows, Credit) <= 1.0
  {
    var s := SplitRefund(b, depositLive, refund);
    SplitParts(b, depositLive, refund);
    ReversalAcceptableIffPlatform(b, depositLive, refund);
    StoredReversalTotal(s, refund, Debit);
    StoredReversalTotal(s, refund, Credit);
    DepositPart(b, depositLive, refund);
    var x := FareRefund(b, depositLive, refund);
    WholeRounds(refund - x);
    ThreeParts(x, s.vendor, s.platform, s.gst);
  }

  /** Baselines are made of whole paise and stored as they are. */
  lemma StoredBaselineExact(b: BookingMoney)
    ensures Stored(BaselineLines(b)) == BaselineLines(b)
  {
    WholePaise(BaselineLines(b));
  }

  predicate Whole(x: real) {
    x == x.Floor as real
  }

  lemma {:induction false} WholePaise(lines: seq<Line>)
    requires forall k :: 0 <= k < |lines| ==> Whole(lines[k].amount)
    ensures Stored(lines) == lines
  {
    if lines != [] {
      WholeRounds(lines[0].amount.Floor);
      WholePaise(lines[1..]);
    }
  }

  // ---------------------------------------------- when it is stored balanced

  /** What `x` of `fare` is of the amount `n`: the remainder left below a whole paisa. */
  function Rest(n: nat, x: nat, fare: nat): nat
    requires fare > 0
  {
    n * x % fare
  }

  /** 1 if that share is rounded up. */
  function Carry(n: nat, x: nat, fare: nat): nat
    requires fare > 0
  {
    if 2 * Rest(n, x, fare) >= fare then 1 else 0
  }

  /** The share rounded to whole paise. */
  function RoundedShare(n: nat, x: nat, fare: nat): nat
    requires fare > 0
  {
    n * x / fare + Carry(n, x, fare)
  }

  lemma QuotientAndRest(a: nat, fare: nat)
    requires fare > 0
    ensures fare * (a / fare) + a % fare == a
  {}

  /** A real between two whole numbers, given times `fare`. */
  lemma RoundBetween(y: real, q: int, rest: nat, fare: nat)
    requires fare > 0 && rest < fare && y * fare as real == (fare * q + rest) as real
    ensures HalfUp(y) == q + if 2 * rest >= fare then 1 else 0
  {
    var f, t := fare as real, y - q as real;
    assert t * f == y * f - q as real * f;
    assert (fare * q) as real == f * q as real;
    assert t * f == rest as real;
    SignTimesPositive(t, f);
    SignTimesPositive(t - 0.5, f);
    assert (t - 0.5) * f == rest as real - f / 2.0;
    if t >= 1.0 {
      SignTimesPositive(t - 1.0, f);
      assert (t - 1.0) * f == rest as real - f;
    }
  }

  /** The share of `n` that `x` is of the fare, rounded. */
  lemma RoundShare(n: nat, x: nat, fare: nat, k: real)
    requires fare > 0 && k * fare as real == x as real
    ensures n as real * k >= 0.0
    ensures HalfAway(n as real * k) == RoundedShare(n, x, fare)
  {
    QuotientAndRest(n * x, fare);
    var y := n as real * k;
    MulAssoc(n as real, k, fare as real);
    assert y * fare as real == n as real * x as real;
    assert n as real * x as real == (n * x) as real;
    SignTimesPositive(y, fare as real);
    RoundBetween(y, n * x / fare, Rest(n, x, fare), fare);
  }

  /** Exactly when the rounded shares of a refund within the fare add up: what the remainders carry
      is what they leave. */
  ghost predicate SharesAddUp(fare: nat, net: nat, gst: nat, x: nat)
    requires fare > 0 && net + gst <= fare
  {
    var platform := fare - net - gst;
    fare * (Carry(net, x, fare) + Carry(platform, x, fare) + Carry(gst, x, fare))
    == Rest(net, x, fare) + Rest(platform, x, fare) + Rest(gst, x, fare)
  }

  lemma ThreeShares(fare: nat, net: nat, gst: nat, x: nat)
    requires fare > 0 && net + gst <= fare
    ensures RoundedShare(net, x, fare) + RoundedShare(fare - net - gst, x, fare) + RoundedShare(gst, x, fare) == x
            <==> SharesAddUp(fare, net, gst, x)
  {
    var platform := fare - net - gst;
    QuotientAndRest(net * x, fare);
    QuotientAndRest(platform * x, fare);
    QuotientAndRest(gst * x, fare);
    assert net * x + platform * x + gst * x == fare * x;
    WholeAndRest(fare, x, net * x / fare, platform * x / fare, gst * x / fare,
                 Rest(net, x, fare) + Rest(platform, x, fare) + Rest(gst, x, fare),
                 Carry(net, x, fare) + Carry(platform, x, fare) + Carry(gst, x, fare));
  }

  lemma WholeAndRest(fare: nat, x: nat, p: int, q: int, r: int, rest: int, up: int)
    requires fare > 0 && fare * p + fare * q + fare * r + rest == fare * x
    ensures p + q + r + up == x <==> fare * up == rest
  {
    var miss := x - p - q - r - up;
    assert fare * miss == fare * x - fare * p - fare * q - fare * r - fare * up;
    if miss > 0 {
      PositiveTimes(fare, miss);
    } else if miss < 0 {
      PositiveTimes(fare, -miss);
      assert fare * -miss == -(fare * miss);
    }
  }

  lemma PositiveTimes(a: int, b: int)
    requires a > 0 && b > 0
    ensures a * b > 0
  {}

  /** Two parts of a whole are rounded apart exactly when each is half a paisa off. */
  lemma TwoParts(m: int, y: real, q: int, rest: nat, fare: nat)
    requires fare > 0 && rest < fare && y * fare as real == (fare * q + rest) as real
    ensures HalfUp(y) + HalfUp(m as real - y) == m <==> 2 * rest != fare
  {
    RoundBetween(y, q, rest, fare);
    RestOfWhole(m, y, q, rest, fare);
    if rest == 0 {
      RoundBetween(m as real - y, m - q, 0, fare);
    } else {
      RoundBetween(m as real - y, m - q - 1, fare - rest, fare);
    }
  }

  lemma RestOfWhole(m: int, y: real, q: int, rest: nat, fare: nat)
    requires fare > 0 && y * fare as real == (fare * q + rest) as real
    ensures (m as real - y) * fare as real == (fare * (m - q) - rest) as real
    ensures fare * (m - q) - rest == fare * (m - q - 1) + (fare - rest)
  {
    var f := fare as real;
    assert (m as real - y) * f == m as real * f - y * f;
    assert (fare * (m - q)) as real == m as real * f - (fare * q) as real;
  }

  /** The three shares as the column keeps them. */
  ghost function RoundedShares(s: Reversal): int {
    HalfAway(s.vendor) + HalfAway(s.platform) + HalfAway(s.gst)
  }

  /** Within the fare every share is the same fraction of its amount. */
  lemma SplitWithin(k: real, deposit: real, x: real, fare: real, net: real, gst: real, platform: real)
    requires fare > 0.0 && 0.0 <= x <= fare && net >= 0.0 && gst >= 0.0 && k * fare == x
    requires platform == fare - net - gst
    ensures SplitShare(k, deposit, x, net, gst) == Reversal(deposit, net * k, platform * k, gst * k)
  {
    SplitShareParts(k, deposit, x, fare, net, gst);
    RestTimes(fare, net, gst, k);
  }

  lemma VendorWithin(k: real, deposit: real, x: nat, fare: nat, net: nat, gst: nat)
    requires fare > 0 && x <= fare && k * fare as real == x as real
    ensures HalfAway(SplitShare(k, deposit, x as real, net as real, gst as real).vendor) == RoundedShare(net, x, fare)
  {
    SplitWithin(k, deposit, x as real, fare as real, net as real, gst as real, (fare - net - gst) as real);
    RoundShare(net, x, fare, k);
  }

  lemma PlatformWithin(k: real, deposit: real, x: nat, fare: nat, net: nat, gst: nat)
    requires fare > 0 && x <= fare && net + gst <= fare && k * fare as real == x as real
    ensures HalfAway(SplitShare(k, deposit, x as real, net as real, gst as real).platform)
         == RoundedShare(fare - net - gst, x, fare)
  {
    var platform := fare - net - gst;
    SplitWithin(k, deposit, x as real, fare as real, net as real, gst as real, platform as real);
    RoundShare(platform, x, fare, k);
  }

  lemma RoundedWithin(k: real, deposit: real, x: nat, fare: nat, net: nat, gst: nat)
    requires fare > 0 && x <= fare && net + gst <= fare && k * fare as real == x as real
    ensures RoundedShares(SplitShare(k, deposit, x as real, net as real, gst as real)) == x <==> SharesAddUp(fare, net, gst, x)
  {
    VendorWithin(k, deposit, x, fare, net, gst);
    PlatformWithin(k, deposit, x, fare, net, gst);
    RoundShare(gst, x, fare, k);
    ThreeShares(fare, net, gst, x);
  }

  /** Beyond the fare the vendor share is taken back whole. */
  lemma SplitBeyond(k: real, deposit: real, x: real, fare: real, net: real, gst: real)
    requires fare > 0.0 && x > fare && net >= 0.0 && gst >= 0.0 && k * fare == x
    ensures SplitShare(k, deposit, x, net, gst) == Reversal(deposit, net, x - net - gst * k, gst * k)
  {
    SplitShareParts(k, deposit, x, fare, net, gst);
  }

  /** A share times the fare, with its whole part and its remainder. */
  lemma ShareTimesFare(n: nat, x: nat, fare: nat, k: real)
    requires fare > 0 && k * fare as real == x as real
    ensures n as real * k * fare as real == (fare * (n * x / fare) + Rest(n, x, fare)) as real
  {
    QuotientAndRest(n * x, fare);
    MulAssoc(n as real, k, fare as real);
    assert n as real * x as real == (n * x) as real;
  }

  lemma RoundedBeyond(k: real, deposit: real, x: nat, fare: nat, net: nat, gst: nat)
    requires fare > 0 && x > fare && k * fare as real == x as real
    requires SplitShare(k, deposit, x as real, net as real, gst as real).platform >= 0.0
    ensures RoundedShares(SplitShare(k, deposit, x as real, net as real, gst as real)) == x <==> 2 * Rest(gst, x, fare) != fare
  {
    var s := SplitShare(k, deposit, x as real, net as real, gst as real);
    SplitBeyond(k, deposit, x as real, fare as real, net as real, gst as real);
    assert s.gst >= 0.0 by {
      RoundShare(gst, x, fare, k);
    }
    assert s.gst * fare as real == (fare * (gst * x / fare) + Rest(gst, x, fare)) as real by {
      ShareTimesFare(gst, x, fare, k);
    }
    TwoParts(x - net, s.gst, gst * x / fare, Rest(gst, x, fare), fare);
    assert s.platform == (x - net) as real - s.gst;
    WholeRounds(net);
  }

  /** When the rounded rows of an accepted reversal with fare part `x` balance, read off the columns. */
  ghost predicate StoresBalanced(b: BookingMoney, x: int)
    requires NonNegative(b) && x >= 0
  {
    if b.totalFare == 0 || x == 0 then true
    else if x <= b.totalFare
    then b.netToVendor + b.gstAmount <= b.totalFare && SharesAddUp(b.totalFare, b.netToVendor, b.gstAmount, x)
    else 2 * Rest(b.gstAmount, x, b.totalFare) != b.totalFare
  }

  lemma StoredBalancedIffRounded(b: BookingMoney, depositLive: bool, refund: int)
    requires NonNegative(b) && refund > 0
    requires Acceptable(ReversalLines(SplitRefund(b, depositLive, refund), refund))
    ensures var s := SplitRefund(b, depositLive, refund);
            Balanced(Stored(ReversalLines(s, refund))) <==> RoundedShares(s) == FareRefund(b, depositLive, refund)
  {
    var s := SplitRefund(b, depositLive, refund);
    SplitParts(b, depositLive, refund);
    ReversalAcceptableIffPlatform(b, depositLive, refund);
    StoredReversalTotal(s, refund, Debit);
    StoredReversalTotal(s, refund, Credit);
    DepositPart(b, depositLive, refund);
    WholeRounds(refund - FareRefund(b, depositLive, refund));
  }

  /** The ledger checks exact amounts and stores rounded ones: what it stores balances exactly when
      the shares of the refund add up again. */
  lemma StoredReversalBalancedIff(b: BookingMoney, depositLive: bool, refund: int)
    requires NonNegative(b) && refund > 0
    requires Acceptable(ReversalLines(SplitRefund(b, depositLive, refund), refund))
    ensures 0 <= FareRefund(b, depositLive, refund)
    ensures Balanced(Stored(ReversalLines(SplitRefund(b, depositLive, refund), refund)))
            <==> StoresBalanced(b, FareRefund(b, depositLive, refund))
  {
    DepositPart(b, depositLive, refund);
    StoredBalancedIffRounded(b, depositLive, refund);
    RoundedIff(b, depositLive, refund);
  }

  lemma RoundedIff(b: BookingMoney, depositLive: bool, refund: int)
    requires NonNegative(b) && refund > 0
    requires Acceptable(ReversalLines(SplitRefund(b, depositLive, refund), refund))
    requires 0 <= FareRefund(b, depositLive, refund)
    ensures RoundedShares(SplitRefund(b, depositLive, refund)) == FareRefund(b, depositLive, refund)
            <==> StoresBalanced(b, FareRefund(b, depositLive, refund))
  {
    if b.totalFare > 0 && FareRefund(b, depositLive, refund) > 0 {
      SharesFit(b, depositLive, refund);
      RoundedAtRatio(b, depositLive, refund);
    } else {
      WholeSplit(b, depositLive, refund);
    }
  }

  lemma SharesFit(b: BookingMoney, depositLive: bool, refund: int)
    requires NonNegative(b) && refund > 0 && b.totalFare > 0 && FareRefund(b, depositLive, refund) > 0
    requires Acceptable(ReversalLines(SplitRefund(b, depositLive, refund), refund))
    ensures SplitRefund(b, depositLive, refund).platform >= 0.0
    ensures FareRefund(b, depositLive, refund) <= b.totalFare ==> b.netToVendor + b.gstAmount <= b.totalFare
  {
    ReversalAcceptableIffPlatform(b, depositLive, refund);
    ReversalAcceptableIff(b, depositLive, refund);
  }

  lemma RoundedAtRatio(b: BookingMoney, depositLive: bool, refund: int)
    requires NonNegative(b) && refund > 0 && b.totalFare > 0 && FareRefund(b, depositLive, refund) > 0
    requires SplitRefund(b, depositLive, refund).platform >= 0.0
    requires FareRefund(b, depositLive, refund) <= b.totalFare ==> b.netToVendor + b.gstAmount <= b.totalFare
    ensures RoundedShares(SplitRefund(b, depositLive, refund)) == FareRefund(b, depositLive, refund)
            <==> StoresBalanced(b, FareRefund(b, depositLive, refund))
  {
    var x := FareRefund(b, depositLive, refund);
    var k, deposit := x as real / b.totalFare as real, refund as real - x as real;
    DivisionUndone(x as real, b.totalFare as real);
    assert SplitRefund(b, depositLive, refund)
        == SplitShare(k, deposit, x as real, b.netToVendor as real, b.gstAmount as real);
    if x <= b.totalFare {
      RoundedWithin(k, deposit, x, b.totalFare, b.netToVendor, b.gstAmount);
    } else {
      RoundedBeyond(k, deposit, x, b.totalFare, b.netToVendor, b.gstAmount);
    }
  }

  /** Without a fare, or without a fare part, everything is whole. */
  lemma WholeSplit(b: BookingMoney, depositLive: bool, refund: int)
    requires NonNegative(b) && refund > 0
    requires b.totalFare == 0 || FareRefund(b, depositLive, refund) == 0
    ensures RoundedShares(SplitRefund(b, depositLive, refund)) == FareRefund(b, depositLive, refund)
  {
    var x := FareRefund(b, depositLive, refund);
    var vendor := if b.netToVendor <= x then b.netToVendor else x;
    DepositPart(b, depositLive, refund);
    assert SplitRefund(b, depositLive, refund)
        == Reversal((refund - x) as real, vendor as real, (x - vendor) as real, 0.0);
    WholeRounds(vendor);
    WholeRounds(x - vendor);
  }

  // ---------------------------------------------- the books of the engine

  ghost predicate IsBaseline(lines: seq<Line>) {
    exists b :: lines == BaselineLines(b)
  }

  /** A reversal of some booking with the given refund and fare part. */
  ghost predicate IsReversal(lines: seq<Line>, b: BookingMoney, live: bool, refund: int) {
    NonNegative(b) && refund > 0 && lines == ReversalLines(SplitRefund(b, live, refund), refund)
  }

  /** Refunds under their key, and whole amounts under every other: an extension is a baseline without
      a deposit. */
  ghost predicate EngineJournal(j: Journal) {
    if j.key.RefundIntent? then exists b, live, refund :: IsReversal(j.lines, b, live, refund) else IsBaseline(j.lines)
  }

  ghost predicate EngineBooks(journals: seq<Journal>) {
    Sound(journals) && forall i :: 0 <= i < |journals| ==> EngineJournal(journals[i])
  }

  ghost function Refunds(journals: seq<Journal>): nat {
    if journals == [] then 0 else (if journals[0].key.RefundIntent? then 1 else 0) + Refunds(journals[1..])
  }

  lemma EngineMiss(j: Journal)
    requires EngineJournal(j) && Acceptable(j.lines)
    ensures if j.key.RefundIntent? then -1.0 <= Miss(j.lines) <= 1.0 else Miss(j.lines) == 0.0
  {
    if j.key.RefundIntent? {
      var b, live, refund :| IsReversal(j.lines, b, live, refund);
      StoredReversalWithinOnePaisa(b, live, refund);
    } else {
      var b :| j.lines == BaselineLines(b);
      StoredBaselineExact(b);
    }
  }

  lemma {:induction false} MissesWithin(journals: seq<Journal>)
    requires EngineBooks(journals)
    ensures -(Refunds(journals) as real) <= Misses(journals) <= Refunds(journals) as real
  {
    if journals != [] {
      EngineMiss(journals[0]);
      assert forall i :: 0 <= i < |journals| - 1 ==> journals[1..][i] == journals[i + 1];
      MissesWithin(journals[1..]);
    }
  }

  /** In the stored books of the engine, clearing is off by at most one paisa for every refund. */
  lemma StoredBooksWithin(journals: seq<Journal>)
    requires EngineBooks(journals)
    ensures var e := Stored(Entries(journals));
            var owed := Balance(e, VendorPayable) + Balance(e, PlatformCommissionRevenue)
                      + Balance(e, TaxGstLiability) + Balance(e, CustomerDepositEscrow);
            -(Refunds(journals) as real) <= Balance(e, GatewayClearing) - owed <= Refunds(journals) as real
  {
    TrialBalance(journals);
    MissesWithin(journals);
  }

  /** A refund whose shares add up again when they are rounded. */
  ghost predicate Clean(j: Journal) {
    j.key.RefundIntent? ==> exists b, live, refund ::
      IsReversal(j.lines, b, live, refund) && 0 <= FareRefund(b, live, refund) && StoresBalanced(b, FareRefund(b, live, refund))
  }

  lemma CleanMiss(j: Journal)
    requires EngineJournal(j) && Acceptable(j.lines)
    ensures Miss(j.lines) == 0.0 <==> Clean(j)
  {
    EngineMiss(j);
    if j.key.RefundIntent? {
      forall b, live, refund | IsReversal(j.lines, b, live, refund)
        ensures 0 <= FareRefund(b, live, refund)
        ensures Miss(j.lines) == 0.0 <==> StoresBalanced(b, FareRefund(b, live, refund))
      {
        DepositPart(b, live, refund);
        StoredReversalBalancedIff(b, live, refund);
      }
    }
  }

  lemma {:induction false} CleanMisses(journals: seq<Journal>)
    requires EngineBooks(journals) && forall i :: 0 <= i < |journals| ==> Clean(journals[i])
    ensures Misses(journals) == 0.0
  {
    if journals != [] {
      CleanMiss(journals[0]);
      assert forall i :: 0 <= i < |journals| - 1 ==> journals[1..][i] == journals[i + 1];
      CleanMisses(journals[1..]);
    }
  }

  /** The stored books are in trial balance when the shares of every refund add up again. */
  lemma CleanBooksBalance(journals: seq<Journal>)
    requires EngineBooks(journals) && forall i :: 0 <= i < |journals| ==> Clean(journals[i])
    ensures InTrialBalance(Stored(Entries(journals)))
  {
    CleanMisses(journals);
    TrialBalance(journals);
  }

  // ---------------------------------------------- a cancelled booking in stored rows

  lemma StoredPushPosted(account: Account, side: Side, amount: real, a: Account, s: Side)
    ensures Posted(Stored(Push(account, side, amount)), a, s)
         == if account == a && side == s then HalfAway(Pos(amount)) as real else 0.0
  {
    if amount > 0.0 {
      StoredOne(Line(account, side, amount));
      SingleLine(account, side, HalfAway(amount) as real, a, s);
    }
  }

  /** The part of a reversal that one account gives back. */
  ghost function PartOf(split: Reversal, account: Account): real {
    match account
    case GatewayClearing => 0.0
    case VendorPayable => split.vendor
    case PlatformCommissionRevenue => split.platform
    case TaxGstLiability => split.gst
    case CustomerDepositEscrow => split.deposit
  }

  lemma StoredReversalPosted(split: Reversal, refund: int, a: Account, s: Side)
    requires refund > 0
    ensures Posted(Stored(ReversalLines(split, refund)), a, s)
         == match s
            case Debit => HalfAway(Pos(PartOf(split, a))) as real
            case Credit => if a == GatewayClearing then refund as real else 0.0
  {
    var p, q := Push(CustomerDepositEscrow, Debit, split.deposit), Push(VendorPayable, Debit, split.vendor);
    var r, t := Push(PlatformCommissionRevenue, Debit, split.platform), Push(TaxGstLiability, Debit, split.gst);
    var u := [Line(GatewayClearing, Credit, refund as real)];
    StoredConcat(p, q);
    StoredConcat(p + q, r);
    StoredConcat(p + q + r, t);
    StoredConcat(p + q + r + t, u);
    FivePieces(Stored(p), Stored(q), Stored(r), Stored(t), Stored(u), a, s);
    StoredPushPosted(CustomerDepositEscrow, Debit, split.deposit, a, s);
    StoredPushPosted(VendorPayable, Debit, split.vendor, a, s);
    StoredPushPosted(PlatformCommissionRevenue, Debit, split.platform, a, s);
    StoredPushPosted(TaxGstLiability, Debit, split.gst, a, s);
    StoredOne(Line(GatewayClearing, Credit, refund as real));
    WholeRounds(refund);
    SingleLine(GatewayClearing, Credit, refund as real, a, s);
  }

  /** What a baseline and a reversal leave in an account, as stored. */
  lemma StoredBalances(b: BookingMoney, split: Reversal, refund: int, a: Account)
    requires refund > 0
    ensures Balance(Stored(BaselineLines(b) + ReversalLines(split, refund)), a)
         == Balance(BaselineLines(b), a)
            - if a == GatewayClearing then refund as real else HalfAway(Pos(PartOf(split, a))) as real
  {
    StoredConcat(BaselineLines(b), ReversalLines(split, refund));
    StoredBaselineExact(b);
    BalanceConcat(BaselineLines(b), Stored(ReversalLines(split, refund)), a);
    StoredReversalPosted(split, refund, a, Debit);
    StoredReversalPosted(split, refund, a, Credit);
  }

  predicate Near(x: real, y: real) {
    y - 0.5 <= x <= y + 0.5
  }

  /** An account that gives `part` back and keeps the rest. */
  lemma RestIsNear(b: BookingMoney, s: Reversal, refund: int, a: Account, kept: real)
    requires refund > 0 && a != GatewayClearing && PartOf(s, a) >= 0.0
    requires Balance(BaselineLines(b), a) - PartOf(s, a) == kept
    ensures Near(Balance(Stored(BaselineLines(b) + ReversalLines(s, refund)), a), kept)
  {
    StoredBalances(b, s, refund, a);
    HalfUpWithinHalf(PartOf(s, a));
  }

  lemma EscrowIsEmpty(b: BookingMoney, s: Reversal, refund: int)
    requires NonNegative(b) && refund > 0 && s.deposit == b.depositAmount as real
    ensures Balance(Stored(BaselineLines(b) + ReversalLines(s, refund)), CustomerDepositEscrow) == 0.0
    ensures Balance(Stored(BaselineLines(b) + ReversalLines(s, refund)), GatewayClearing)
         == (b.totalFare + b.depositAmount - refund) as real
  {
    BalancesOf(b, s, refund);
    StoredBalances(b, s, refund, CustomerDepositEscrow);
    StoredBalances(b, s, refund, GatewayClearing);
    WholeRounds(b.depositAmount);
  }

  lemma SharesAreNear(b: BookingMoney, s: Reversal, refund: int, kept: real)
    requires NonNegative(b) && refund > 0 && b.netToVendor + b.gstAmount <= b.totalFare
    requires KeepsFraction(s, kept, b.netToVendor as real, b.gstAmount as real,
                           (b.totalFare - b.netToVendor - b.gstAmount) as real)
    ensures var rows := Stored(BaselineLines(b) + ReversalLines(s, refund));
            && Near(Balance(rows, VendorPayable), b.netToVendor as real * kept)
            && Near(Balance(rows, TaxGstLiability), b.gstAmount as real * kept)
            && Near(Balance(rows, PlatformCommissionRevenue), (b.totalFare - b.netToVendor - b.gstAmount) as real * kept)
  {
    var net, gst, platform := b.netToVendor as real, b.gstAmount as real, (b.totalFare - b.netToVendor - b.gstAmount) as real;
    BalancesOf(b, s, refund);
    RestIsNear(b, s, refund, VendorPayable, net - s.vendor);
    RestIsNear(b, s, refund, TaxGstLiability, gst - s.gst);
    RestIsNear(b, s, refund, PlatformCommissionRevenue, platform - s.platform);
  }

  /** In the stored rows of a baseline and a reversal: escrow empty, clearing exactly the fee, and every
      share within half a paisa of the fraction that is kept. */
  ghost predicate StoresFee(b: BookingMoney, s: Reversal, refund: int, fee: int, kept: real) {
    var rows := Stored(BaselineLines(b) + ReversalLines(s, refund));
    && Balance(rows, CustomerDepositEscrow) == 0.0
    && Balance(rows, GatewayClearing) == fee as real
    && Near(Balance(rows, VendorPayable), b.netToVendor as real * kept)
    && Near(Balance(rows, TaxGstLiability), b.gstAmount as real * kept)
    && Near(Balance(rows, PlatformCommissionRevenue), (b.totalFare - b.netToVendor - b.gstAmount) as real * kept)
  }

  ghost predicate OnlyTheFeeIsStored(b: BookingMoney, fee: int, refund: int)
    requires b.totalFare > 0
  {
    StoresFee(b, SplitRefund(b, true, refund), refund, fee, fee as real / b.totalFare as real)
  }

  lemma KeptFractionStoresFee(b: BookingMoney, s: Reversal, refund: int, fee: int, kept: real)
    requires NonNegative(b) && refund > 0 && b.netToVendor + b.gstAmount <= b.totalFare
    requires s.deposit == b.depositAmount as real && refund == b.totalFare + b.depositAmount - fee
    requires KeepsFraction(s, kept, b.netToVendor as real, b.gstAmount as real,
                           (b.totalFare - b.netToVendor - b.gstAmount) as real)
    ensures StoresFee(b, s, refund, fee, kept)
  {
    EscrowIsEmpty(b, s, refund);
    SharesAreNear(b, s, refund, kept);
  }

  /** The cancellation theorem on the rows as they are stored. */
  lemma CancellationStoresOnlyTheFee(b: BookingMoney, fee: int)
    requires NonNegative(b) && 0 <= fee <= b.totalFare
    requires b.totalFare > 0 && b.netToVendor + b.gstAmount <= b.totalFare
    requires b.totalFare + b.depositAmount > fee
    ensures OnlyTheFeeIsStored(b, fee, b.totalFare + b.depositAmount - fee)
  {
    var refund := b.totalFare + b.depositAmount - fee;
    SplitAfterFee(b, fee);
    KeptFractionStoresFee(b, SplitRefund(b, true, refund), refund, fee, fee as real / b.totalFare as real);
  }
}
