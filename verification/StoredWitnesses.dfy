/** Trips whose cancellation is stored out of balance. */
module StoredWitnesses {
  import opened BookingFares
  import opened Bookings
  import opened Ledger
  import opened Options
  import opened Settlement
  import opened StoredJournals
  import CP = CancellationPolicy
  import FC = FareCalculator

  const NINE_PAISE_TRIP := FC.DayTrip(9.0, 31.0, FC.DEFAULT_GST_RATE)
  const NO_EXTRAS := Extras(0.0, 0.0, 0.0, 0.0, None, 0, 0)

  lemma NinePaiseTrip()
    ensures Composed(FC.CalculateFare(NINE_PAISE_TRIP), NO_EXTRAS) == BookingMoney(12, 3, 1, 9, 0)
  {
    FC.DayTripFare(9.0, 31.0, FC.DEFAULT_GST_RATE);
    assert FC.PercentOf(9.0, 31.0) == 2.79 && FC.PercentOf(2.79, 18.0) == 0.5022;
  }

  /** A customer who cancels an hour before pickup. */
  function LateRequest(paid: int): CP.Request {
    CP.Request(3600000, 0, paid, 0, Role.Customer, false, false, CP.DEFAULT_MATRIX)
  }

  lemma LateRefund()
    ensures CP.Decide(LateRequest(12)).refundAmount == 6
  {
    CP.DefaultSchedule(CP.CentiHours(3600000));
  }

  /** A trip of nine paise at 31 % commission, cancelled late: half of 12 paise is taken back as
      4.5 + 1 + 0.5 and stored as 5 + 1 + 1. */
  lemma StoredReversalMayBeOff()
    ensures var b := Composed(FC.CalculateFare(NINE_PAISE_TRIP), NO_EXTRAS);
            var refund := CP.Decide(LateRequest(b.totalFare)).refundAmount;
            var lines := ReversalLines(SplitRefund(b, true, refund), refund);
            && Acceptable(BaselineLines(b)) && Acceptable(lines)
            && !Balanced(Stored(lines))
  {
    var b := BookingMoney(12, 3, 1, 9, 0);
    NinePaiseTrip();
    LateRefund();
    BaselineAcceptableIff(b);
    EveryRefundAcceptable(b, true, 6);
    StoredReversalBalancedIff(b, true, 6);
    NinePaiseShares();
  }

  lemma NinePaiseShares()
    ensures !SharesAddUp(12, 9, 1, 6)
  {
    assert Rest(9, 6, 12) == 6 && Rest(2, 6, 12) == 0 && Rest(1, 6, 12) == 6;
  }

  /** The books of that trip alone: a paisa in clearing that nobody is owed. */
  lemma StoredTrialBalanceMayBeOff()
    ensures exists journals :: EngineBooks(journals) && !InTrialBalance(Stored(Entries(journals)))
  {
    var b := BookingMoney(12, 3, 1, 9, 0);
    var baseline := Journal(PayVerify(1), BaselineLines(b));
    var reversal := Journal(RefundIntent(1), ReversalLines(SplitRefund(b, true, 6), 6));
    var journals := [baseline, reversal];
    BaselineAcceptableIff(b);
    EveryRefundAcceptable(b, true, 6);
    StoredReversalBalancedIff(b, true, 6);
    NinePaiseShares();
    assert EngineJournal(baseline);
    assert IsReversal(reversal.lines, b, true, 6) && EngineJournal(reversal);
    EngineMiss(baseline);
    assert journals[1..] == [reversal] && journals[1..][1..] == [];
    assert Misses([reversal]) == Miss(reversal.lines) + Misses([]);
    TrialBalance(journals);
    assert EngineBooks(journals);
  }
}
