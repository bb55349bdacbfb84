/** Where the events of a booking come from: every committed move was validated by an attempt before
    it, and what that attempt had found is said here fact by fact. */
module LifecycleOrigins {
  import opened Bookings
  import opened Options
  import opened Ledger
  import opened Settlement
  import opened Lifecycle
  import opened LifecycleRuns
  import CP = CancellationPolicy

  // ------------------------------------------- what one validation asks for

  predicate Staff(role: Role) {
    role == Role.Admin || role == System
  }

  predicate Captured(p: Payment) {
    p.Payment? && p.paid
  }

  /** A pending booking is confirmed exactly for a car in service that is verified and free of blocks
      and bookings, by its vendor or another party to it once it is paid, or by staff, who may do it
      unpaid with a reason of ten characters. */
  lemma ConfirmedExactly(s: BookingState, role: Role, money: BookingMoney, payment: Payment, f: Facts)
    requires s.status == PENDING
    ensures Prepare(s, CONFIRMED, role, money, payment, f).Ready?
      <==> && f.carActive && f.carVerified && !f.blockOverlaps && !f.bookingOverlaps
           && (if Staff(role) then Captured(payment) || f.reasonLength >= 10
               else Captured(payment) && MayAct(role, f))
    ensures (Staff(role) || MayAct(role, f)) && !Prepare(s, CONFIRMED, role, money, payment, f).Ready?
            ==> Prepare(s, CONFIRMED, role, money, payment, f) == Rejected(PreconditionFailed)
  {}

  /** Who but staff may do more than cancel or return: the vendor of the car, or a party to the booking
      that acts in neither role. */
  predicate MayAct(role: Role, f: Facts) {
    (role == Role.Vendor && f.isVendor) || (role == SupportAgent && (f.isCustomer || f.isVendor))
  }

  lemma HandoverReadyExactly(s: BookingState, role: Role, money: BookingMoney, payment: Payment, f: Facts)
    requires s.status == CONFIRMED
    ensures Prepare(s, HANDOVER_READY, role, money, payment, f).Ready?
      <==> (Staff(role) || MayAct(role, f)) && f.carActive && f.preTripFinalized
  {}

  /** A trip starts with the pre-trip inspection finalized; but for staff, with the deposit held, an
      existing payment captured, at most the allowed time early, and the pickup code verified. */
  lemma StartedExactly(s: BookingState, role: Role, money: BookingMoney, payment: Payment, f: Facts)
    requires s.status in {CONFIRMED, HANDOVER_READY}
    ensures Prepare(s, ONGOING, role, money, payment, f).Ready?
      <==> && f.carActive && f.carVerified && f.carEligible && f.preTripFinalized
           && (if Staff(role) then f.otpPresent || f.reasonLength >= 10
               else && MayAct(role, f) && s.deposit != Required && (payment.NoPayment? || Captured(payment))
                    && !f.tooEarly && f.otpPresent && f.otpVerifies)
    ensures (Staff(role) || MayAct(role, f)) && !Prepare(s, ONGOING, role, money, payment, f).Ready?
            ==> Prepare(s, ONGOING, role, money, payment, f) == Rejected(PreconditionFailed)
  {}

  /** It is completed with the post-trip inspection finalized; but for staff, without a dispute and with
      the return code verified. */
  lemma CompletedExactly(s: BookingState, role: Role, money: BookingMoney, payment: Payment, f: Facts)
    requires s.status in {ONGOING, RETURN_PENDING, DISPUTED}
    ensures Prepare(s, COMPLETED, role, money, payment, f).Ready?
      <==> && f.postTripFinalized
           && (if Staff(role) then f.otpPresent || f.reasonLength >= 10
               else MayAct(role, f) && !f.disputed && f.otpPresent && f.otpVerifies)
    ensures (Staff(role) || MayAct(role, f)) && !Prepare(s, COMPLETED, role, money, payment, f).Ready?
            ==> Prepare(s, COMPLETED, role, money, payment, f) == Rejected(PreconditionFailed)
  {}

  /** The other targets ask for nothing but the right to act: customers cancel and return their own
      bookings, nobody but staff or support refunds. */
  lemma OthersExactly(s: BookingState, target: Status, role: Role, money: BookingMoney, payment: Payment, f: Facts)
    requires target in {CANCELLED, EXPIRED, RETURN_PENDING, DISPUTED, REFUND_PENDING, REFUNDED}
    requires target in NextStates(s.status)
    ensures Prepare(s, target, role, money, payment, f).Ready?
      <==> || Staff(role)
           || (role == Role.Customer && f.isCustomer && (target == CANCELLED || target == RETURN_PENDING))
           || (role == Role.Vendor && f.isVendor && target != REFUNDED)
           || (role == SupportAgent && (f.isCustomer || f.isVendor))
    ensures !Prepare(s, target, role, money, payment, f).Ready?
            ==> Prepare(s, target, role, money, payment, f) == Rejected(Forbidden)
  {
    EnteredFrom(s.status);
  }

  // ------------------------------------------- every event has its attempt

  /** Attempt `k` of the run was let through with plan `p`. */
  ghost predicate Validated(w: World, ops: seq<Op>, k: int, p: Plan) {
    && 0 <= k < |ops| && ops[k].Validate?
    && var u := Run(w, ops[..k]);
       Prepare(u.booking, ops[k].target, ops[k].role, u.money, u.payment, ops[k].facts) == Ready(p)
  }

  ghost predicate HasOrigin(w: World, ops: seq<Op>, p: Plan) {
    exists k :: Validated(w, ops, k, p)
  }

  /** Some plan of the run made this event. */
  ghost predicate Planned(w: World, ops: seq<Op>, e: Event) {
    exists p :: HasOrigin(w, ops, p) && p.previous == e.previous && p.target == e.next
  }

  /** Some plan of the run made this refund row. */
  ghost predicate PlannedRefund(w: World, ops: seq<Op>, refund: int) {
    exists p :: HasOrigin(w, ops, p) && p.target == CANCELLED && p.refund == refund > 0
  }

  lemma OriginStays(w: World, ops: seq<Op>, op: Op, p: Plan)
    requires HasOrigin(w, ops, p)
    ensures HasOrigin(w, ops + [op], p)
  {
    var k :| Validated(w, ops, k, p);
    assert (ops + [op])[..k] == ops[..k] && (ops + [op])[k] == ops[k];
    assert Validated(w, ops + [op], k, p);
  }

  ghost predicate AllOriginated(w: World, ops: seq<Op>) {
    var v := Run(w, ops);
    && (forall k :: k in v.plans ==> HasOrigin(w, ops, v.plans[k]))
    && v.booking.events != []
    && (forall i :: 1 <= i < |v.booking.events| ==> Planned(w, ops, v.booking.events[i]))
    && forall i :: 0 <= i < |v.booking.refunds| ==> PlannedRefund(w, ops, v.booking.refunds[i])
  }

  lemma PlansExtend(w: World, ops: seq<Op>, op: Op, k: nat)
    requires AllOriginated(w, ops) && k in Step(Run(w, ops), op).plans
    ensures HasOrigin(w, ops + [op], Step(Run(w, ops), op).plans[k])
  {
    var u, v := Run(w, ops), Step(Run(w, ops), op);
    if k in u.plans && v.plans[k] == u.plans[k] {
      OriginStays(w, ops, op, u.plans[k]);
    } else {
      assert (ops + [op])[..|ops|] == ops && (ops + [op])[|ops|] == op;
      assert Validated(w, ops + [op], |ops|, v.plans[k]);
    }
  }

  lemma EventsExtend(w: World, ops: seq<Op>, op: Op, e: Event)
    requires AllOriginated(w, ops)
    requires Planned(w, ops, e)
             || (op.Commit? && op.attempt in Run(w, ops).plans
                 && e == Event(Run(w, ops).plans[op.attempt].previous, Run(w, ops).plans[op.attempt].target))
    ensures Planned(w, ops + [op], e)
  {
    var p :| HasOrigin(w, ops, p) && p.previous == e.previous && p.target == e.next;
    OriginStays(w, ops, op, p);
  }

  lemma RefundsExtend(w: World, ops: seq<Op>, op: Op, refund: int)
    requires AllOriginated(w, ops)
    requires PlannedRefund(w, ops, refund)
             || (op.Commit? && op.attempt in Run(w, ops).plans && Run(w, ops).plans[op.attempt].target == CANCELLED
                 && Run(w, ops).plans[op.attempt].refund == refund > 0)
    ensures PlannedRefund(w, ops + [op], refund)
  {
    var p :| HasOrigin(w, ops, p) && p.target == CANCELLED && p.refund == refund;
    OriginStays(w, ops, op, p);
  }

  lemma OriginsExtend(w: World, ops: seq<Op>, op: Op)
    requires AllOriginated(w, ops)
    ensures AllOriginated(w, ops + [op])
  {
    var u := Run(w, ops);
    OneMore(w, ops, op);
    var v := Step(u, op);
    forall k | k in v.plans ensures HasOrigin(w, ops + [op], v.plans[k]) {
      PlansExtend(w, ops, op, k);
    }
    forall i | 1 <= i < |v.booking.events| ensures Planned(w, ops + [op], v.booking.events[i]) {
      assert i < |u.booking.events| ==> v.booking.events[i] == u.booking.events[i];
      EventsExtend(w, ops, op, v.booking.events[i]);
    }
    forall i | 0 <= i < |v.booking.refunds| ensures PlannedRefund(w, ops + [op], v.booking.refunds[i]) {
      assert i < |u.booking.refunds| ==> v.booking.refunds[i] == u.booking.refunds[i];
      RefundsExtend(w, ops, op, v.booking.refunds[i]);
    }
  }

  lemma {:induction false} EverythingOriginates(w: World, ops: seq<Op>)
    requires Fresh(w)
    ensures AllOriginated(w, ops)
    decreases |ops|
  {
    if ops == [] {
      assert Run(w, []) == w;
    } else {
      var init, last := ops[..|ops| - 1], ops[|ops| - 1];
      assert ops == init + [last];
      EverythingOriginates(w, init);
      OriginsExtend(w, init, last);
    }
  }

  /** Attempt `k` was made towards `next`. */
  ghost predicate AttemptAt(ops: seq<Op>, k: int, next: Status) {
    0 <= k < |ops| && ops[k].Validate? && ops[k].target == next
  }

  /** The actor had the right to ask for this status. */
  predicate RightToAsk(role: Role, next: Status, f: Facts) {
    || Staff(role)
    || (role == Role.Customer && f.isCustomer && (next == CANCELLED || next == RETURN_PENDING))
    || (role == Role.Vendor && f.isVendor && next != REFUNDED)
    || (role == SupportAgent && (f.isCustomer || f.isVendor))
  }

  lemma ReadyAttempt(u: World, target: Status, role: Role, f: Facts, p: Plan)
    requires Prepare(u.booking, target, role, u.money, u.payment, f) == Ready(p)
    ensures p.previous == u.booking.status && p.target == target && RightToAsk(role, target, f)
  {}

  /** Behind every event of every run stands an attempt that found the booking where the event starts,
      and whose actor had the right to ask. */
  lemma EventOrigin(w: World, ops: seq<Op>, i: int) returns (k: int)
    requires Fresh(w) && 1 <= i < |Run(w, ops).booking.events|
    ensures var e := Run(w, ops).booking.events[i];
            && AttemptAt(ops, k, e.next)
            && var u := Run(w, ops[..k]);
               && u.booking.status == e.previous && Allowed(e.previous, e.next)
               && RightToAsk(ops[k].role, e.next, ops[k].facts)
               && Prepare(u.booking, e.next, ops[k].role, u.money, u.payment, ops[k].facts).Ready?
  {
    EverythingOriginates(w, ops);
    HistoryIsPath(w, ops);
    var e := Run(w, ops).booking.events[i];
    var p :| HasOrigin(w, ops, p) && p.previous == e.previous && p.target == e.next;
    k :| Validated(w, ops, k, p);
    ReadyAttempt(Run(w, ops[..k]), ops[k].target, ops[k].role, ops[k].facts, p);
  }

  // ------------------------------------------- what the events say

  /** What the attempt behind a CONFIRMED event had found: the booking pending, the car in order, and
      the payment captured, unless staff gave a reason. */
  ghost predicate SoundConfirmation(w: World, ops: seq<Op>, k: int) {
    && AttemptAt(ops, k, CONFIRMED)
    && var f, role, u := ops[k].facts, ops[k].role, Run(w, ops[..k]);
       && u.booking.status == PENDING
       && f.carActive && f.carVerified && !f.blockOverlaps && !f.bookingOverlaps
       && role != Role.Customer
       && (Captured(u.payment) || (Staff(role) && f.reasonLength >= 10))
  }

  lemma ConfirmedMeans(w: World, ops: seq<Op>, i: int) returns (k: int)
    requires Fresh(w) && 1 <= i < |Run(w, ops).booking.events| && Run(w, ops).booking.events[i].next == CONFIRMED
    ensures SoundConfirmation(w, ops, k)
  {
    k := EventOrigin(w, ops, i);
    var u := Run(w, ops[..k]);
    EnteredFrom(u.booking.status);
    ConfirmedExactly(u.booking, ops[k].role, u.money, u.payment, ops[k].facts);
  }

  /** An ONGOING event: the pre-trip inspection was finalized, and the code verified or staff involved. */
  ghost predicate SoundStart(w: World, ops: seq<Op>, k: int) {
    && AttemptAt(ops, k, ONGOING)
    && var f, role, u := ops[k].facts, ops[k].role, Run(w, ops[..k]);
       && u.booking.status in {CONFIRMED, HANDOVER_READY} && role != Role.Customer
       && f.carActive && f.carVerified && f.carEligible && f.preTripFinalized
       && (if Staff(role) then f.otpPresent || f.reasonLength >= 10
           else && f.otpPresent && f.otpVerifies && !f.tooEarly && u.booking.deposit != Required
                && (u.payment.NoPayment? || Captured(u.payment)))
  }

  lemma StartedMeans(w: World, ops: seq<Op>, i: int) returns (k: int)
    requires Fresh(w) && 1 <= i < |Run(w, ops).booking.events| && Run(w, ops).booking.events[i].next == ONGOING
    ensures SoundStart(w, ops, k)
  {
    k := EventOrigin(w, ops, i);
    var u := Run(w, ops[..k]);
    EnteredFrom(u.booking.status);
    StartedExactly(u.booking, ops[k].role, u.money, u.payment, ops[k].facts);
  }

  /** A COMPLETED event: the post-trip inspection was finalized, and the booking undisputed with its
      code verified or staff involved. */
  ghost predicate SoundCompletion(w: World, ops: seq<Op>, k: int) {
    && AttemptAt(ops, k, COMPLETED)
    && var f, role, u := ops[k].facts, ops[k].role, Run(w, ops[..k]);
       && u.booking.status in {ONGOING, RETURN_PENDING, DISPUTED} && role != Role.Customer
       && f.postTripFinalized
       && (if Staff(role) then f.otpPresent || f.reasonLength >= 10
           else !f.disputed && f.otpPresent && f.otpVerifies)
  }

  lemma CompletedMeans(w: World, ops: seq<Op>, i: int) returns (k: int)
    requires Fresh(w) && 1 <= i < |Run(w, ops).booking.events| && Run(w, ops).booking.events[i].next == COMPLETED
    ensures SoundCompletion(w, ops, k)
  {
    k := EventOrigin(w, ops, i);
    var u := Run(w, ops[..k]);
    EnteredFrom(u.booking.status);
    CompletedExactly(u.booking, ops[k].role, u.money, u.payment, ops[k].facts);
  }

  ghost predicate AttemptsBy(ops: seq<Op>, roles: set<Role>) {
    forall k :: 0 <= k < |ops| && ops[k].Validate? ==> ops[k].role in roles
  }

  /** Customers alone cancel a pending booking, once, and nothing else. */
  lemma CustomersOnlyCancel(w: World, ops: seq<Op>, i: int)
    requires Fresh(w) && AttemptsBy(ops, {Role.Customer}) && 1 <= i < |Run(w, ops).booking.events|
    ensures i == 1 && Run(w, ops).booking.events[1] == Event(PENDING, CANCELLED)
  {
    var k := EventOrigin(w, ops, 1);
    assert ops[k].role in {Role.Customer};
    HistoryIsPath(w, ops);
    EnteredFrom(PENDING);
    assert Run(w, ops).booking.events[1].previous == PENDING;
    if i > 1 {
      EnteredOnce(w, ops, 1, i);
    }
  }

  // ------------------------------------------- nothing is confirmed unpaid

  /** Nothing in the run captures a payment. */
  ghost predicate NothingCaptured(ops: seq<Op>) {
    forall k :: 0 <= k < |ops| ==> !ops[k].VerifyPayment? && !(ops[k].SetPayment? && Captured(ops[k].payment))
  }

  lemma {:induction false} StaysUnpaid(w: World, ops: seq<Op>)
    requires !Captured(w.payment) && NothingCaptured(ops)
    ensures !Captured(Run(w, ops).payment)
    decreases |ops|
  {
    if ops != [] {
      assert forall k :: 0 <= k < |ops| - 1 ==> ops[1..][k] == ops[k + 1];
      StaysUnpaid(Step(w, ops[0]), ops[1..]);
    }
  }

  lemma UnpaidIsNotConfirmed(w: World, ops: seq<Op>, i: int)
    requires Fresh(w) && !Captured(w.payment) && AttemptsBy(ops, {Role.Customer, Role.Vendor}) && NothingCaptured(ops)
    requires 1 <= i < |Run(w, ops).booking.events|
    ensures Run(w, ops).booking.events[i].next != CONFIRMED
  {
    if Run(w, ops).booking.events[i].next == CONFIRMED {
      var k := ConfirmedMeans(w, ops, i);
      assert ops[k].role in {Role.Customer, Role.Vendor};
      assert NothingCaptured(ops[..k]);
      StaysUnpaid(w, ops[..k]);
    }
  }

  /** However the attempts of customers and vendors interleave, a booking whose payment nobody captures
      is never confirmed and never starts: it is cancelled or expires. */
  lemma NeverConfirmedUnpaid(w: World, ops: seq<Op>, i: int)
    requires Fresh(w) && !Captured(w.payment) && AttemptsBy(ops, {Role.Customer, Role.Vendor}) && NothingCaptured(ops)
    requires 1 <= i < |Run(w, ops).booking.events|
    ensures i == 1 && Run(w, ops).booking.events[1].next in {CANCELLED, EXPIRED}
  {
    var e := Run(w, ops).booking.events;
    UnpaidIsNotConfirmed(w, ops, 1);
    HistoryIsPath(w, ops);
    EnteredFrom(e[1].previous);
    assert e[1].previous == e[0].next == PENDING;
    assert e[1].next in NextStates(PENDING);
    if i > 1 {
      EnteredOnce(w, ops, 1, i);
    }
  }

  // ------------------------------------------- what a cancellation leaves

  /** What the request of attempt `k` had been paid: the payment, or the fare of a booking without one. */
  ghost function PaidFor(u: World): int {
    if u.payment.Payment? then u.payment.amount else u.money.totalFare
  }

  /** Everything back: to a vendor's or an unconfirmed booking's customer, and by an administrator who
      asks for it. */
  predicate Waived(u: World, role: Role, f: Facts) {
    u.booking.status == PENDING || role == Role.Vendor || (role == Role.Admin && f.asksFullRefund)
  }

  /** What the policy gives back at one attempt to cancel: everything if it is waived, and otherwise, under
      the default matrix, all but the default fee of the fare part by the milliseconds to pickup. */
  lemma RefundOfAttempt(u: World, role: Role, f: Facts)
    ensures Waived(u, role, f)
            ==> RefundFor(u.booking.status, CANCELLED, role, u.money, u.payment, f) == PaidFor(u)
    ensures !Waived(u, role, f) && f.matrix == CP.DEFAULT_MATRIX
            ==> var fare := if PaidFor(u) > u.money.depositAmount then PaidFor(u) - u.money.depositAmount else 0;
                RefundFor(u.booking.status, CANCELLED, role, u.money, u.payment, f)
                == PaidFor(u) - CP.DefaultFee(f.startDate - f.now, fare)
  {
    var r := PolicyRequest(u.booking.status, role, u.money, u.payment, f);
    if Waived(u, role, f) {
      CP.FreeOfCharge(r);
    } else if f.matrix == CP.DEFAULT_MATRIX {
      CP.DefaultFeeInMs(r);
    }
  }

  /** The refund row of every run is what the policy gave some attempt to cancel. */
  lemma RefundOrigin(w: World, ops: seq<Op>) returns (k: int)
    requires Fresh(w) && Run(w, ops).booking.refunds != []
    ensures AttemptAt(ops, k, CANCELLED)
    ensures var u, refund := Run(w, ops[..k]), Run(w, ops).booking.refunds[0];
            && refund > 0 && refund == RefundFor(u.booking.status, CANCELLED, ops[k].role, u.money, u.payment, ops[k].facts)
            && (Waived(u, ops[k].role, ops[k].facts) ==> refund == PaidFor(u))
  {
    EverythingOriginates(w, ops);
    var refund := Run(w, ops).booking.refunds[0];
    var p :| HasOrigin(w, ops, p) && p.target == CANCELLED && p.refund == refund > 0;
    k :| Validated(w, ops, k, p);
    RefundOfAttempt(Run(w, ops[..k]), ops[k].role, ops[k].facts);
  }

  lemma HasKeyAppend(journals: seq<Journal>, j: Journal, k: Key)
    ensures HasKey(journals + [j], k) <==> HasKey(journals, k) || k == j.key
  {
    var more := journals + [j];
    if HasKey(journals, k) {
      var i :| 0 <= i < |journals| && journals[i].key == k;
      assert more[i].key == k;
    }
    assert more[|journals|].key == j.key;
  }

  /** Which journals a committed move adds: the reversal for a refund of a booking that has a payment, and
      before it the baseline if that payment is captured and neither a payment verification nor a
      marketplace confirmation has booked it. */
  lemma PostedExactly(id: int, p: Plan, money: BookingMoney, journals: seq<Journal>)
    ensures var after := Posting(id, p, money, journals);
            var refunds := p.target == CANCELLED && p.refund > 0 && p.payment.Payment?;
            && (HasKey(after, RefundIntent(id)) <==> HasKey(journals, RefundIntent(id)) || refunds)
            && (HasKey(after, PayVerify(id))
                <==> HasKey(journals, PayVerify(id)) || (refunds && p.payment.paid && !HasKey(journals, Confirmed(id))))
            && journals <= after && |after| <= |journals| + 2
  {
    var baseline := Journal(PayVerify(id), BaselineLines(money));
    var reversal := Journal(RefundIntent(id), ReversalLines(SplitRefund(money, p.depositLive, p.refund), p.refund));
    var mid := if NeedsBaseline(id, p, journals) then journals + [baseline] else journals;
    HasKeyAppend(journals, baseline, RefundIntent(id));
    HasKeyAppend(journals, baseline, PayVerify(id));
    HasKeyAppend(mid, reversal, RefundIntent(id));
    HasKeyAppend(mid, reversal, PayVerify(id));
  }

  /** A payment is verified exactly when one is open and its journal is in the books or the fare covers the
      vendor and tax shares and leaves the vendor something; then the deposit is held, the journal is
      there, and nothing else changes. */
  lemma PaymentVerifiedExactly(w: World)
    requires NonNegative(w.money)
    ensures var v := Step(w, VerifyPayment);
            var verified := w.payment.Payment? && !w.payment.paid
                            && (HasKey(w.journals, PayVerify(w.id))
                                || (w.money.totalFare >= w.money.netToVendor + w.money.gstAmount && w.money.netToVendor > 0));
            if verified
            then && v.payment == Payment(w.payment.amount, true) && HasKey(v.journals, PayVerify(w.id))
                 && v.booking == w.booking.(deposit := if w.booking.deposit == NoDeposit then NoDeposit else Held)
            else v == w
  {
    BaselineAcceptableIff(w.money);
    HasKeyAppend(w.journals, Journal(PayVerify(w.id), BaselineLines(w.money)), PayVerify(w.id));
  }

  /** A payment is verified on a booking that is cancelled already: nothing asks for its status. */
  ghost predicate LatePayment(w: World, op: Op) {
    op.VerifyPayment? && w.booking.status == CANCELLED && MayVerify(w.id, w.money, w.payment, w.journals)
  }

  ghost predicate PaysLate(w: World, ops: seq<Op>)
    decreases |ops|
  {
    ops != [] && (LatePayment(w, ops[0]) || PaysLate(Step(w, ops[0]), ops[1..]))
  }

  ghost predicate Pays(w: World, ops: seq<Op>)
    decreases |ops|
  {
    ops != []
    && ((ops[0].VerifyPayment? && MayVerify(w.id, w.money, w.payment, w.journals)) || Pays(Step(w, ops[0]), ops[1..]))
  }

  ghost predicate DepositKnown(w: World) {
    w.booking.deposit in (if w.booking.status == CANCELLED then {Released, Held} else {Required, Held})
  }

  lemma StepMovesDeposit(w: World, op: Op)
    requires Inv(w) && DepositKnown(w)
    ensures var v := Step(w, op);
            && DepositKnown(v)
            && (w.booking.status == CANCELLED ==> v.booking.status == CANCELLED)
            && v.booking.deposit == if op.VerifyPayment? && MayVerify(w.id, w.money, w.payment, w.journals) then Held
                                    else if w.booking.status != CANCELLED && v.booking.status == CANCELLED then Released
                                    else w.booking.deposit
  {
    if op.Commit? && op.attempt in w.plans {
      var p := w.plans[op.attempt];
      assert Allowed(p.previous, p.target) && p.previous != CANCELLED;
    }
  }

  lemma {:induction false} DepositOfRun(w: World, ops: seq<Op>)
    requires Inv(w) && DepositKnown(w)
    ensures var v := Run(w, ops);
            v.booking.deposit == if v.booking.status != CANCELLED then (if Pays(w, ops) then Held else w.booking.deposit)
                                 else if PaysLate(w, ops) then Held
                                 else if w.booking.status == CANCELLED then w.booking.deposit
                                 else Released
    decreases |ops|
  {
    if ops != [] {
      StepKeepsInv(w, ops[0]);
      StepMovesDeposit(w, ops[0]);
      var u := Step(w, ops[0]);
      DepositOfRun(u, ops[1..]);
      if u.booking.status == CANCELLED {
        StaysCancelled(u, ops[1..]);
      }
    }
  }

  lemma {:induction false} StaysCancelled(w: World, ops: seq<Op>)
    requires Inv(w) && DepositKnown(w) && w.booking.status == CANCELLED
    ensures Run(w, ops).booking.status == CANCELLED
    decreases |ops|
  {
    if ops != [] {
      StepKeepsInv(w, ops[0]);
      StepMovesDeposit(w, ops[0]);
      StaysCancelled(Step(w, ops[0]), ops[1..]);
    }
  }

  /** In every run the deposit of a live booking is held exactly when a payment was verified, and that of
      a cancelled one is released exactly unless a payment was verified after the cancellation, which
      holds it for good. */
  lemma DepositExactly(w: World, ops: seq<Op>)
    requires Fresh(w)
    ensures var v := Run(w, ops);
            v.booking.deposit == if v.booking.status == CANCELLED then (if PaysLate(w, ops) then Held else Released)
                                 else (if Pays(w, ops) then Held else Required)
  {
    DepositOfRun(w, ops);
  }

  /** The customer changes its mind. */
  const OWN_BOOKING := SOME_FACTS.(isCustomer := true)

  function CustomerCancels(): seq<Op> {
    [Validate(0, CANCELLED, Role.Customer, OWN_BOOKING), Commit(0)]
  }

  /** The refund does not ask whether anything was captured: a customer who cancels a pending booking
      that nobody paid leaves a refund row over the whole amount. */
  lemma UnpaidCancellationRefunds(w: World)
    requires Fresh(w) && !Captured(w.payment) && PaidFor(w) > 0
    requires w.money.netToVendor + w.money.gstAmount <= w.money.totalFare
    ensures var v := Run(w, CustomerCancels());
            v.booking.status == CANCELLED && v.booking.refunds == [PaidFor(w)] && v.payment == w.payment
  {
    var ops, p := CustomerCancels(), Plan(PENDING, CANCELLED, PaidFor(w), true, w.payment);
    RefundOfAttempt(w, Role.Customer, OWN_BOOKING);
    assert Step(w, ops[0]) == w.(plans := map[0 := p]);
    if w.payment.Payment? {
      EveryRefundAcceptable(w.money, true, p.refund);
    }
    var v := Step(w.(plans := map[0 := p]), ops[1]);
    assert v.booking == Moved(w.booking, p);
    assert ops[1..] == [ops[1]] && ops[1..][1..] == [];
    assert Run(w, ops) == Run(Step(w, ops[0]), ops[1..]) == Run(v, []) == v;
  }

  /** And when that payment is verified after all, the cancelled booking holds a deposit. */
  lemma LatePaymentHoldsDeposit(w: World)
    requires Fresh(w) && w.payment.Payment? && !w.payment.paid && w.payment.amount > 0 && Acceptable(BaselineLines(w.money))
    ensures var v := Run(w, CustomerCancels() + [VerifyPayment]);
            v.booking.status == CANCELLED && v.booking.deposit == Held && Captured(v.payment)
  {
    BaselineAcceptableIff(w.money);
    UnpaidCancellationRefunds(w);
    OneMore(w, CustomerCancels(), VerifyPayment);
    var v := Run(w, CustomerCancels());
    DepositExactly(w, CustomerCancels());
    RunKeepsIdentity(w, CustomerCancels());
    assert MayVerify(v.id, v.money, v.payment, v.journals);
  }
}
