/** Every interleaving of transition attempts on one booking.  An attempt validates at one moment
    and commits at a later one; no lock keeps attempts apart. */
module LifecycleRuns {
  import opened Bookings
  import opened Ledger
  import opened Settlement
  import opened Lifecycle
  import opened StoredJournals
  import CP = CancellationPolicy

  datatype World = World(
    id: int,
    money: BookingMoney,
    payment: Payment,
    booking: BookingState,
    plans: map<nat, Plan>,
    journals: seq<Journal>)

  datatype Op =
    | Validate(attempt: nat, target: Status, role: Role, facts: Facts)
    | Commit(attempt: nat)
    | Crash(attempt: nat)
    | SetPayment(payment: Payment)
    | VerifyPayment

  /** The outcome of the transaction, as `Lifecycle.Booking.Commit` guarantees it. */
  ghost function CommitPlan(w: World, p: Plan): World {
    if w.booking.status == p.previous && LedgerTakes(w.id, p, w.money, w.journals)
    then w.(booking := Moved(w.booking, p), journals := Posting(w.id, p, w.money, w.journals))
    else w
  }

  ghost function Step(w: World, op: Op): World {
    match op
    case Validate(k, target, role, f) =>
      var r := Prepare(w.booking, target, role, w.money, w.payment, f);
      if r.Ready? then w.(plans := w.plans[k := r.plan]) else w
    case Commit(k) =>
      if k in w.plans then CommitPlan(w.(plans := w.plans - {k}), w.plans[k]) else w
    case Crash(k) => w.(plans := w.plans - {k})
    case SetPayment(payment) => w.(payment := payment)
    case VerifyPayment =>
      if MayVerify(w.id, w.money, w.payment, w.journals)
      then w.(payment := w.payment.(paid := true),
              booking := w.booking.(deposit := HeldDeposit(w.booking.deposit)),
              journals := WithPayment(w.id, w.money, w.journals))
      else w
  }

  ghost function Run(w: World, ops: seq<Op>): World
    decreases |ops|
  {
    if ops == [] then w else Run(Step(w, ops[0]), ops[1..])
  }

  /** A booking just created, with whatever else the books hold. */
  ghost predicate Fresh(w: World) {
    && w.booking == BookingState(PENDING, Required, [Event(PENDING, PENDING)], [])
    && w.plans == map[]
    && NonNegative(w.money)
    && Sound(w.journals) && !HasKey(w.journals, RefundIntent(w.id))
  }

  /** The events after the creation event form a path of allowed edges. */
  ghost predicate Path(events: seq<Event>) {
    && events != [] && events[0] == Event(PENDING, PENDING)
    && forall i :: 1 <= i < |events| ==>
         events[i].previous == events[i - 1].next && Allowed(events[i].previous, events[i].next)
  }

  ghost predicate Inv(w: World) {
    && NonNegative(w.money)
    && Path(w.booking.events)
    && w.booking.status == w.booking.events[|w.booking.events| - 1].next
    && (forall k :: k in w.plans ==> Allowed(w.plans[k].previous, w.plans[k].target))
    && |w.booking.refunds| <= 1
    && (w.booking.refunds != [] ==> w.booking.status == CANCELLED)
    && Sound(w.journals)
    && (HasKey(w.journals, RefundIntent(w.id)) ==> w.booking.status == CANCELLED)
  }

  lemma SoundAppend(journals: seq<Journal>, j: Journal)
    requires Sound(journals) && Acceptable(j.lines) && !HasKey(journals, j.key)
    ensures Sound(journals + [j])
    ensures forall k :: HasKey(journals + [j], k) <==> HasKey(journals, k) || k == j.key
  {
    var more := journals + [j];
    forall k ensures HasKey(more, k) <==> HasKey(journals, k) || k == j.key {
      if HasKey(journals, k) {
        var i :| 0 <= i < |journals| && journals[i].key == k;
        assert more[i].key == k;
      }
      assert more[|journals|].key == j.key;
    }
  }

  lemma PostingSound(w: World, p: Plan)
    requires Sound(w.journals) && LedgerTakes(w.id, p, w.money, w.journals)
    ensures var after := Posting(w.id, p, w.money, w.journals);
            && Sound(after)
            && (HasKey(after, RefundIntent(w.id)) ==> HasKey(w.journals, RefundIntent(w.id)) || NeedsJournals(p))
  {
    var baseline := Journal(PayVerify(w.id), BaselineLines(w.money));
    var mid := w.journals;
    if NeedsBaseline(w.id, p, w.journals) {
      SoundAppend(w.journals, baseline);
      mid := w.journals + [baseline];
    }
    if NeedsJournals(p) && !HasKey(w.journals, RefundIntent(w.id)) {
      SoundAppend(mid, Journal(RefundIntent(w.id), ReversalLines(SplitRefund(w.money, p.depositLive, p.refund), p.refund)));
    }
  }

  lemma StepKeepsInv(w: World, op: Op)
    requires Inv(w)
    ensures Inv(Step(w, op))
  {
    if op.Commit? && op.attempt in w.plans {
      var p := w.plans[op.attempt];
      if w.booking.status == p.previous && LedgerTakes(w.id, p, w.money, w.journals) {
        PostingSound(w, p);
        assert Allowed(p.previous, p.target);
        assert w.booking.status != CANCELLED;
      }
    }
    if op.VerifyPayment? && MayVerify(w.id, w.money, w.payment, w.journals) && !HasKey(w.journals, PayVerify(w.id)) {
      SoundAppend(w.journals, Journal(PayVerify(w.id), BaselineLines(w.money)));
    }
  }

  lemma {:induction false} RunKeepsInv(w: World, ops: seq<Op>)
    requires Inv(w)
    ensures Inv(Run(w, ops))
    decreases |ops|
  {
    if ops != [] {
      StepKeepsInv(w, ops[0]);
      RunKeepsInv(Step(w, ops[0]), ops[1..]);
    }
  }

  /** However attempts interleave, the outbox history is a path of allowed moves from PENDING to
      the present status, the booking has at most one refund row, only when cancelled, and the
      books stay sound with at most one refund journal for it. */
  lemma HistoryIsPath(w: World, ops: seq<Op>)
    requires Fresh(w)
    ensures var e := Run(w, ops);
            && Path(e.booking.events)
            && e.booking.status == e.booking.events[|e.booking.events| - 1].next
            && |e.booking.refunds| <= 1
            && (e.booking.refunds != [] || HasKey(e.journals, RefundIntent(w.id)) ==> e.booking.status == CANCELLED)
            && Sound(e.journals)
  {
    RunKeepsInv(w, ops);
    RunKeepsIdentity(w, ops);
  }

  lemma {:induction false} RunKeepsIdentity(w: World, ops: seq<Op>)
    ensures Run(w, ops).id == w.id && Run(w, ops).money == w.money
    decreases |ops|
  {
    if ops != [] {
      RunKeepsIdentity(Step(w, ops[0]), ops[1..]);
    }
  }

  /** Every edge moves up in rank, but for the two between DISPUTED and REFUND_PENDING. */
  lemma EdgeRaisesRank(prev: Status, next: Status)
    requires Allowed(prev, next)
    ensures Rank(prev) < Rank(next) || (Contested(prev) && Contested(next))
  {}

  lemma {:induction false} RankAlongPath(events: seq<Event>, i: int, j: int)
    requires Path(events) && 0 <= i < j < |events|
    ensures Rank(events[i].next) <= Rank(events[j].previous) <= Rank(events[j].next)
    decreases j
  {
    EdgeRaisesRank(events[j].previous, events[j].next);
    if i < j - 1 {
      RankAlongPath(events, i, j - 1);
    }
  }

  /** A started trip is never cancelled or expired later. */
  lemma StartedIsNeverCancelled(w: World, ops: seq<Op>, i: int, j: int)
    requires Fresh(w) && 0 <= i < j < |Run(w, ops).booking.events|
    requires Run(w, ops).booking.events[i].next == ONGOING
    ensures Run(w, ops).booking.events[j].next !in {CANCELLED, EXPIRED}
  {
    HistoryIsPath(w, ops);
    RankAlongPath(Run(w, ops).booking.events, i, j);
  }

  /** A status other than the contested two is entered at most once after creation, and a
      terminal status ends the history. */
  lemma EnteredOnce(w: World, ops: seq<Op>, i: int, j: int)
    requires Fresh(w) && 0 <= i < j < |Run(w, ops).booking.events|
    ensures var e := Run(w, ops).booking.events;
            && (e[i].next == e[j].next ==> Contested(e[i].next))
            && NextStates(e[i].next) != {}
  {
    HistoryIsPath(w, ops);
    var e := Run(w, ops).booking.events;
    RankAlongPath(e, i, j);
    EdgeRaisesRank(e[j].previous, e[j].next);
    if i + 1 < j {
      RankAlongPath(e, i + 1, j);
    }
    assert Allowed(e[i + 1].previous, e[i + 1].next);
  }

  // ------------------------------------------- bookings that cannot be refunded

  ghost predicate PaymentsAreFinal(ops: seq<Op>) {
    forall op :: op in ops ==> !op.SetPayment?
  }

  /** Every attempt saw this payment, and the ledger refuses the baseline it would need. */
  ghost predicate RefundBarred(w: World) {
    && NonNegative(w.money)
    && w.payment.Payment? && w.payment.paid
    && (forall k :: k in w.plans ==> w.plans[k].payment == w.payment)
    && !HasBaseline(w.journals, w.id)
    && !Acceptable(BaselineLines(w.money))
    && w.booking.refunds == []
  }

  lemma {:induction false} RefundBarredForever(w: World, ops: seq<Op>)
    requires RefundBarred(w) && PaymentsAreFinal(ops)
    ensures RefundBarred(Run(w, ops))
    decreases |ops|
  {
    if ops != [] {
      assert RefundBarred(Step(w, ops[0]));
      RefundBarredForever(Step(w, ops[0]), ops[1..]);
    }
  }

  /** Nothing was paid, so no attempt plans a refund. */
  ghost predicate NothingPaid(w: World) {
    && NonNegative(w.money)
    && w.payment.Payment? && w.payment.amount <= 0
    && (forall k :: k in w.plans ==> w.plans[k].refund <= 0)
    && w.booking.refunds == []
  }

  lemma NothingToRefund(previous: Status, target: Status, role: Role, money: BookingMoney, payment: Payment, f: Facts)
    requires NonNegative(money) && payment.Payment? && payment.amount <= 0
    ensures RefundFor(previous, target, role, money, payment, f) <= 0
  {}

  lemma {:induction false} NothingPaidForever(w: World, ops: seq<Op>)
    requires NothingPaid(w) && PaymentsAreFinal(ops)
    ensures NothingPaid(Run(w, ops))
    decreases |ops|
  {
    if ops != [] {
      if ops[0].Validate? {
        NothingToRefund(w.booking.status, ops[0].target, ops[0].role, w.money, w.payment, ops[0].facts);
      }
      assert NothingPaid(Step(w, ops[0]));
      NothingPaidForever(Step(w, ops[0]), ops[1..]);
    }
  }

  const SOME_FACTS := Facts(false, false, false, false, false, false, false, false, false, false, false, false, false,
                            0, false, 0, 0, CP.DEFAULT_MATRIX)

  /** Cancelled while pending, a payment is refunded in full. */
  lemma PendingRefundsAll(money: BookingMoney, payment: Payment)
    requires payment.Payment?
    ensures RefundFor(PENDING, CANCELLED, System, money, payment, SOME_FACTS) == payment.amount
  {}

  lemma CoveredBookingIsRefunded(w: World)
    requires Fresh(w) && w.payment.Payment? && w.payment.paid && w.payment.amount > 0
    requires w.money.netToVendor + w.money.gstAmount <= w.money.totalFare && w.money.netToVendor > 0
    ensures exists ops :: PaymentsAreFinal(ops) && Run(w, ops).booking.refunds != []
  {
    var ops := [Validate(0, CANCELLED, System, SOME_FACTS), Commit(0)];
    var p := Plan(PENDING, CANCELLED, w.payment.amount, true, w.payment);
    PendingRefundsAll(w.money, w.payment);
    assert Prepare(w.booking, CANCELLED, System, w.money, w.payment, SOME_FACTS) == Ready(p);
    var w1 := Step(w, ops[0]);
    assert w1 == w.(plans := map[0 := p]);
    BaselineAcceptableIff(w.money);
    EveryRefundAcceptable(w.money, true, p.refund);
    var w2 := Step(w1, ops[1]);
    assert w2.booking == Moved(w.booking, p);
    assert ops[1..][1..] == [] && Run(w2, []) == w2;
    assert Run(w1, ops[1..]) == w2;
    assert Run(w, ops) == w2;
  }

  /** A captured booking without a baseline can be refunded by some sequence of attempts exactly
      when something was paid, the fare covers the vendor and tax shares, and the vendor share is
      not zero: otherwise the refused baseline rolls every attempt back. */
  lemma RefundableExactly(w: World)
    requires Fresh(w) && w.payment.Payment? && w.payment.paid && !HasBaseline(w.journals, w.id)
    ensures (exists ops :: PaymentsAreFinal(ops) && Run(w, ops).booking.refunds != [])
            <==> && w.payment.amount > 0
                 && w.money.netToVendor + w.money.gstAmount <= w.money.totalFare && w.money.netToVendor > 0
  {
    BaselineAcceptableIff(w.money);
    if w.payment.amount > 0 && Acceptable(BaselineLines(w.money)) {
      CoveredBookingIsRefunded(w);
    } else {
      forall ops | PaymentsAreFinal(ops) ensures Run(w, ops).booking.refunds == [] {
        if w.payment.amount <= 0 {
          NothingPaidForever(w, ops);
        } else {
          RefundBarredForever(w, ops);
        }
      }
    }
  }

  // ------------------------------------------- what the books hold

  lemma EngineAppend(journals: seq<Journal>, j: Journal)
    requires EngineBooks(journals) && EngineJournal(j) && Acceptable(j.lines) && !HasKey(journals, j.key)
    ensures EngineBooks(journals + [j])
    ensures forall k :: HasKey(journals + [j], k) <==> HasKey(journals, k) || k == j.key
  {
    SoundAppend(journals, j);
  }

  lemma PostingKeepsEngine(w: World, p: Plan)
    requires NonNegative(w.money) && EngineBooks(w.journals) && LedgerTakes(w.id, p, w.money, w.journals)
    ensures EngineBooks(Posting(w.id, p, w.money, w.journals))
  {
    var baseline := Journal(PayVerify(w.id), BaselineLines(w.money));
    var mid := w.journals;
    if NeedsBaseline(w.id, p, w.journals) {
      assert IsBaseline(baseline.lines);
      EngineAppend(w.journals, baseline);
      mid := w.journals + [baseline];
    }
    if NeedsJournals(p) && !HasKey(w.journals, RefundIntent(w.id)) {
      var reversal := Journal(RefundIntent(w.id), ReversalLines(SplitRefund(w.money, p.depositLive, p.refund), p.refund));
      assert IsReversal(reversal.lines, w.money, p.depositLive, p.refund);
      EngineAppend(mid, reversal);
    }
  }

  lemma StepKeepsEngine(w: World, op: Op)
    requires NonNegative(w.money) && EngineBooks(w.journals)
    ensures EngineBooks(Step(w, op).journals) && Step(w, op).money == w.money
  {
    if op.Commit? && op.attempt in w.plans && LedgerTakes(w.id, w.plans[op.attempt], w.money, w.journals) {
      PostingKeepsEngine(w, w.plans[op.attempt]);
    }
    if op.VerifyPayment? && MayVerify(w.id, w.money, w.payment, w.journals) && !HasKey(w.journals, PayVerify(w.id)) {
      assert IsBaseline(BaselineLines(w.money));
      EngineAppend(w.journals, Journal(PayVerify(w.id), BaselineLines(w.money)));
    }
  }

  /** Whatever the attempts on a booking do, the books stay of the kind whose stored rows are in trial
      balance up to one paisa for every refund. */
  lemma {:induction false} RunKeepsEngine(w: World, ops: seq<Op>)
    requires NonNegative(w.money) && EngineBooks(w.journals)
    ensures EngineBooks(Run(w, ops).journals)
    decreases |ops|
  {
    if ops != [] {
      StepKeepsEngine(w, ops[0]);
      RunKeepsEngine(Step(w, ops[0]), ops[1..]);
    }
  }

  // ------------------------------------------- the ordinary trip

  ghost predicate VendorAttempts(ops: seq<Op>) {
    forall op :: op in ops ==> (op.Validate? ==> op.role == Role.Vendor)
  }

  ghost predicate VendorReaches(w: World, v: World) {
    exists ops :: VendorAttempts(ops) && Run(w, ops) == v
  }

  lemma {:induction false} OneMore(w: World, ops: seq<Op>, op: Op)
    ensures Run(w, ops + [op]) == Step(Run(w, ops), op)
    decreases |ops|
  {
    if ops == [] {
      assert ([] + [op])[0] == op && ([] + [op])[1..] == [];
      assert Run(w, [] + [op]) == Run(Step(w, op), []);
    } else {
      assert (ops + [op])[1..] == ops[1..] + [op];
      OneMore(Step(w, ops[0]), ops[1..], op);
    }
  }

  lemma VendorStep(w: World, v: World, op: Op)
    requires VendorReaches(w, v) && (op.Validate? ==> op.role == Role.Vendor)
    ensures VendorReaches(w, Step(v, op))
  {
    var ops :| VendorAttempts(ops) && Run(w, ops) == v;
    OneMore(w, ops, op);
    assert VendorAttempts(ops + [op]);
  }

  /** Car and documents in order, return code given. */
  const READY_CAR := SOME_FACTS.(isVendor := true, carActive := true, carVerified := true, carEligible := true,
                                 preTripFinalized := true, otpPresent := true, otpVerifies := true)

  /** A vendor's attempt that is allowed and refunds nothing moves the booking. */
  lemma VendorMoves(w: World, v: World, target: Status)
    requires VendorReaches(w, v) && v.plans == map[] && target != CANCELLED && target != REFUNDED
    requires target in NextStates(v.booking.status)
    requires Preconditions(Role.Vendor, target, v.payment, v.booking.deposit, READY_CAR)
    ensures exists u :: VendorReaches(w, u) && u.plans == map[] && u.payment == v.payment
                        && u.booking.status == target && u.booking.deposit == v.booking.deposit
  {
    var p := Plan(v.booking.status, target, 0, v.booking.deposit != Released, v.payment);
    assert v.booking.status !in NextStates(v.booking.status);
    VendorStep(w, v, Validate(0, target, Role.Vendor, READY_CAR));
    assert Step(v, Validate(0, target, Role.Vendor, READY_CAR)) == v.(plans := map[0 := p]);
    VendorStep(w, v.(plans := map[0 := p]), Commit(0));
    var u := Step(v.(plans := map[0 := p]), Commit(0));
    assert u.plans == map[];
  }

  /** The ordinary way: the payment is verified, the deposit held, and the vendor confirms the
      booking and hands the car over. */
  lemma VendorHandsOver(w: World, amount: int)
    requires Fresh(w) && w.payment == NoPayment && Acceptable(BaselineLines(w.money))
    ensures exists u :: VendorReaches(w, u) && u.booking.status == ONGOING && u.booking.deposit == Held
  {
    assert VendorAttempts([]) && Run(w, []) == w;
    VendorStep(w, w, SetPayment(Payment(amount, false)));
    var w1 := w.(payment := Payment(amount, false));
    VendorStep(w, w1, VerifyPayment);
    var w2 := Step(w1, VerifyPayment);
    VendorMoves(w, w2, CONFIRMED);
    var w3 :| VendorReaches(w, w3) && w3.plans == map[] && w3.payment == w2.payment
              && w3.booking.status == CONFIRMED && w3.booking.deposit == w2.booking.deposit;
    VendorMoves(w, w3, ONGOING);
  }
}
