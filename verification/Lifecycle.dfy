/** `BookingLifecycleService.executeTransition`: read and validate, then one transaction guarded
    by `where status = previousStatus` that moves the booking, posts the journals of a
    cancellation and appends the outbox event. */
module Lifecycle {
  import opened Bookings
  import opened Options
  import opened Ledger
  import opened Settlement
  import CP = CancellationPolicy

  datatype DepositStatus = NoDeposit | Required | Held | Released

  /** Outbox event of one committed move. */
  datatype Event = Event(previous: Status, next: Status)

  datatype Payment = NoPayment | Payment(amount: int, paid: bool)

  /** The mutable part of a booking row and the rows written with it. */
  datatype BookingState = BookingState(
    status: Status,
    deposit: DepositStatus,
    events: seq<Event>,
    refunds: seq<int>)

  /** What the preconditions look up elsewhere at validation time. */
  datatype Facts = Facts(
    isCustomer: bool,
    isVendor: bool,
    carActive: bool,
    carVerified: bool,
    carEligible: bool,
    blockOverlaps: bool,
    bookingOverlaps: bool,
    preTripFinalized: bool,
    postTripFinalized: bool,
    tooEarly: bool,
    disputed: bool,
    otpPresent: bool,
    otpVerifies: bool,
    reasonLength: nat,
    asksFullRefund: bool,
    startDate: int,
    now: int,
    matrix: CP.Matrix)

  /** What a validated attempt carries into its transaction. */
  datatype Plan = Plan(previous: Status, target: Status, refund: int, depositLive: bool, payment: Payment)

  datatype Rejection = Forbidden | IllegalTransition | PreconditionFailed
  datatype Prepared = AlreadyThere | Rejected(why: Rejection) | Ready(plan: Plan)
  datatype Committed = Done | Conflict | LedgerRefused

  predicate Authorized(role: Role, target: Status, f: Facts) {
    if role == System || role == Role.Admin then true
    else
      && (f.isCustomer || f.isVendor)
      && (role == Role.Customer ==> f.isCustomer && target in {CANCELLED, RETURN_PENDING})
      && (role == Role.Vendor ==> f.isVendor && target != REFUNDED)
  }

  predicate OtpOrReason(isAdmin: bool, f: Facts) {
    if isAdmin then f.otpPresent || f.reasonLength >= 10 else f.otpPresent && f.otpVerifies
  }

  predicate Preconditions(role: Role, target: Status, payment: Payment, deposit: DepositStatus, f: Facts) {
    var isAdmin := role == Role.Admin || role == System;
    var paid := payment.Payment? && payment.paid;
    match target
    case CONFIRMED =>
      && f.carActive && f.carVerified && !f.blockOverlaps && !f.bookingOverlaps
      && (paid || (isAdmin && f.reasonLength >= 10))
    case HANDOVER_READY => f.carActive && f.preTripFinalized
    case ONGOING =>
      && f.carActive && f.carVerified && f.carEligible
      && (isAdmin || (deposit != Required && (payment.NoPayment? || paid) && !f.tooEarly))
      && f.preTripFinalized && OtpOrReason(isAdmin, f)
    case COMPLETED => (isAdmin || !f.disputed) && f.postTripFinalized && OtpOrReason(isAdmin, f)
    case _ => true
  }

  /** The request the cancellation policy is asked. */
  function PolicyRequest(previous: Status, role: Role, money: BookingMoney, payment: Payment, f: Facts): CP.Request {
    CP.Request(
      f.startDate, f.now,
      if payment.Payment? then payment.amount else money.totalFare,
      money.depositAmount,
      if role == System then Role.Admin else role,
      role == Role.Admin && f.asksFullRefund,
      previous == PENDING,
      f.matrix)
  }

  /** What the policy refunds when the move is a cancellation. */
  ghost function RefundFor(previous: Status, target: Status, role: Role, money: BookingMoney, payment: Payment, f: Facts): int {
    if target == CANCELLED then CP.Decide(PolicyRequest(previous, role, money, payment, f)).refundAmount else 0
  }

  method ComputeRefund(previous: Status, target: Status, role: Role, money: BookingMoney, payment: Payment, f: Facts)
    returns (refund: int)
    ensures refund == RefundFor(previous, target, role, money, payment, f)
  {
    refund := 0;
    if target == CANCELLED {
      var d := CP.CalculateCancellation(PolicyRequest(previous, role, money, payment, f));
      refund := d.refundAmount;
    }
  }

  /** The checks before the transaction, in their order. */
  function Gate(s: BookingState, target: Status, role: Role, payment: Payment, f: Facts): Option<Prepared> {
    if s.status == target then Some(AlreadyThere)
    else if !Authorized(role, target, f) then Some(Rejected(Forbidden))
    else if !Allowed(s.status, target) then Some(Rejected(IllegalTransition))
    else if !Preconditions(role, target, payment, s.deposit, f) then Some(Rejected(PreconditionFailed))
    else None
  }

  ghost function Prepare(s: BookingState, target: Status, role: Role, money: BookingMoney, payment: Payment, f: Facts): Prepared {
    var gate := Gate(s, target, role, payment, f);
    if gate.Some? then gate.value
    else Ready(Plan(s.status, target, RefundFor(s.status, target, role, money, payment, f), s.deposit != Released, payment))
  }

  /** The payment covers at least the deposit. */
  predicate CoversDeposit(money: BookingMoney, payment: Payment) {
    payment.Payment? && 0 <= money.depositAmount <= payment.amount
  }

  /** What each answer of the validation says about the request, and what a plan carries. */
  lemma ReadyMeans(s: BookingState, target: Status, role: Role, money: BookingMoney, payment: Payment, f: Facts)
    ensures var r := Prepare(s, target, role, money, payment, f);
            && (r == AlreadyThere <==> s.status == target)
            && (r == Rejected(Forbidden) <==> s.status != target && !Authorized(role, target, f))
            && (r == Rejected(IllegalTransition) <==>
                  s.status != target && Authorized(role, target, f) && target !in NextStates(s.status))
            && (r.Ready? <==>
                  && Authorized(role, target, f) && target in NextStates(s.status)
                  && Preconditions(role, target, payment, s.deposit, f))
            && (r.Ready? ==> r.plan.previous == s.status && r.plan.target == target && r.plan.payment == payment)
            && (r.Ready? ==> (r.plan.depositLive <==> s.deposit in {NoDeposit, Required, Held}))
    ensures var r := Prepare(s, target, role, money, payment, f);
            r.Ready? && target == CANCELLED && CoversDeposit(money, payment) && CP.PercentRange(f.matrix)
            ==> money.depositAmount <= r.plan.refund <= payment.amount
  {
    assert s.status !in NextStates(s.status);
    if target == CANCELLED && CoversDeposit(money, payment) && CP.PercentRange(f.matrix) {
      CP.FeeWithinFare(PolicyRequest(s.status, role, money, payment, f));
    }
  }

  /** The row changes of a transaction whose guard holds. */
  function Moved(s: BookingState, p: Plan): BookingState {
    BookingState(
      p.target,
      if p.target == CANCELLED && (s.deposit == Required || s.deposit == Held) then Released else s.deposit,
      s.events + [Event(p.previous, p.target)],
      if p.target == CANCELLED && p.refund > 0 then s.refunds + [p.refund] else s.refunds)
  }

  predicate NeedsJournals(p: Plan) {
    p.target == CANCELLED && p.refund > 0 && p.payment.Payment?
  }

  /** A payment verification or a marketplace confirmation already booked the payment. */
  ghost predicate HasBaseline(journals: seq<Journal>, id: int) {
    HasKey(journals, PayVerify(id)) || HasKey(journals, Confirmed(id))
  }

  ghost predicate NeedsBaseline(id: int, p: Plan, journals: seq<Journal>) {
    NeedsJournals(p) && p.payment.paid && !HasBaseline(journals, id)
  }

  /** The ledger takes every journal this transaction posts. */
  ghost predicate LedgerTakes(id: int, p: Plan, money: BookingMoney, journals: seq<Journal>) {
    && (NeedsBaseline(id, p, journals) ==> Acceptable(BaselineLines(money)))
    && (NeedsJournals(p) ==>
          HasKey(journals, RefundIntent(id)) || Acceptable(ReversalLines(SplitRefund(money, p.depositLive, p.refund), p.refund)))
  }

  ghost function Posting(id: int, p: Plan, money: BookingMoney, journals: seq<Journal>): seq<Journal> {
    var withBaseline :=
      if NeedsBaseline(id, p, journals) then journals + [Journal(PayVerify(id), BaselineLines(money))] else journals;
    if NeedsJournals(p) && !HasKey(journals, RefundIntent(id))
    then withBaseline + [Journal(RefundIntent(id), ReversalLines(SplitRefund(money, p.depositLive, p.refund), p.refund))]
    else withBaseline
  }

  // ------------------------------------------- the payment

  /** `verifyPayment` of an order paid through the gateway: it goes through for an open order whose
      journal the ledger takes or already has. */
  ghost predicate MayVerify(id: int, money: BookingMoney, payment: Payment, journals: seq<Journal>) {
    payment.Payment? && !payment.paid && (HasKey(journals, PayVerify(id)) || Acceptable(BaselineLines(money)))
  }

  ghost function WithPayment(id: int, money: BookingMoney, journals: seq<Journal>): seq<Journal> {
    if HasKey(journals, PayVerify(id)) then journals else journals + [Journal(PayVerify(id), BaselineLines(money))]
  }

  /** A verified payment holds the deposit, whatever became of it meanwhile. */
  function HeldDeposit(d: DepositStatus): DepositStatus {
    if d == NoDeposit then NoDeposit else Held
  }

  class Booking {
    const id: int
    const money: BookingMoney
    const books: Books
    var payment: Payment
    var status: Status
    var deposit: DepositStatus
    var events: seq<Event>
    var refunds: seq<int>

    ghost predicate Valid()
      reads this, books
    {
      NonNegative(money) && books.Valid()
    }

    ghost function State(): BookingState
      reads this
    {
      BookingState(status, deposit, events, refunds)
    }

    /** `createBooking` inserts the row with its BOOKING_CREATED event. */
    constructor (id: int, money: BookingMoney, books: Books)
      requires NonNegative(money) && books.Valid()
      ensures Valid() && this.id == id && this.money == money && this.books == books
      ensures State() == BookingState(PENDING, Required, [Event(PENDING, PENDING)], []) && payment == NoPayment
    {
      this.id, this.money, this.books := id, money, books;
      payment := NoPayment;
      status, deposit, events, refunds := PENDING, Required, [Event(PENDING, PENDING)], [];
    }

    /** `createOrder`: only a pending booking can be paid for, in full, and a payment that failed or
        was never made is replaced. */
    method OpenPayment() returns (created: bool)
      requires Valid()
      modifies this`payment
      ensures Valid()
      ensures created <==> status == PENDING && !(old(payment).Payment? && old(payment).paid)
      ensures payment == if created then Payment(money.totalFare + money.depositAmount, false) else old(payment)
      ensures created && NonNegative(money) ==> CoversDeposit(money, payment)
    {
      if status != PENDING || (payment.Payment? && payment.paid) {
        return false;
      }
      payment := Payment(money.totalFare + money.depositAmount, false);
      return true;
    }

    /** The transaction of `verifyPayment`: payment, deposit and journal together or not at all. */
    method VerifyPayment() returns (verified: bool)
      requires Valid()
      modifies this`payment, this`deposit, books
      ensures Valid()
      ensures verified <==> MayVerify(id, money, old(payment), old(books.journals))
      ensures verified ==>
        && payment == Payment(old(payment).amount, true) && deposit == HeldDeposit(old(deposit))
        && books.journals == WithPayment(id, money, old(books.journals))
      ensures !verified ==> payment == old(payment) && deposit == old(deposit) && books.journals == old(books.journals)
    {
      if payment.NoPayment? || payment.paid {
        return false;
      }
      var lines := BuildBaseline(money);
      assert |lines| >= 2;
      var outcome := books.RecordJournal(PayVerify(id), lines);
      if outcome != Recorded && outcome != Duplicate {
        return false;
      }
      payment := payment.(paid := true);
      if deposit != NoDeposit {
        deposit := Held;
      }
      return true;
    }

    /** Everything before the transaction: reads only. */
    method Validate(target: Status, role: Role, f: Facts) returns (r: Prepared)
      ensures r == Prepare(State(), target, role, money, payment, f)
    {
      var gate := Gate(BookingState(status, deposit, events, refunds), target, role, payment, f);
      if gate.Some? {
        return gate.value;
      }
      var refund := ComputeRefund(status, target, role, money, payment, f);
      return Ready(Plan(status, target, refund, deposit != Released, payment));
    }

    /** The transaction.  Another attempt may have moved the booking since `p` was validated; a
        refused journal rolls everything back. */
    method Commit(p: Plan) returns (r: Committed)
      requires Valid()
      modifies this`status, this`deposit, this`events, this`refunds, books
      ensures Valid()
      ensures r == Conflict <==> old(status) != p.previous
      ensures r == Done <==> old(status) == p.previous && LedgerTakes(id, p, money, old(books.journals))
      ensures State() == if r == Done then Moved(old(State()), p) else old(State())
      ensures books.journals == if r == Done then Posting(id, p, money, old(books.journals)) else old(books.journals)
    {
      if status != p.previous {
        return Conflict;
      }
      if NeedsJournals(p) {
        var posted := PostCancellation(p);
        if !posted {
          return LedgerRefused;
        }
      }
      status := p.target;
      if p.target == CANCELLED {
        if deposit == Required || deposit == Held {
          deposit := Released;
        }
        if p.refund > 0 {
          refunds := refunds + [p.refund];
        }
      }
      events := events + [Event(p.previous, p.target)];
      return Done;
    }

    /** Baseline if it is missing and the payment was captured, then the reversal. */
    method PostCancellation(p: Plan) returns (posted: bool)
      requires Valid() && NeedsJournals(p)
      modifies books
      ensures Valid()
      ensures posted <==> LedgerTakes(id, p, money, old(books.journals))
      ensures books.journals == if posted then Posting(id, p, money, old(books.journals)) else old(books.journals)
    {
      var saved, savedRows := books.journals, books.rows;
      var verified := HasJournal(PayVerify(id));
      var confirmed := HasJournal(Confirmed(id));
      if !verified && !confirmed && p.payment.paid {
        var baseline := BuildBaseline(money);
        var first := books.RecordJournal(PayVerify(id), baseline);
        if first != Recorded {
          return false;
        }
      }
      assert HasKey(books.journals, RefundIntent(id)) <==> HasKey(saved, RefundIntent(id)) by {
        if HasKey(saved, RefundIntent(id)) {
          var i :| 0 <= i < |saved| && saved[i].key == RefundIntent(id);
          assert books.journals[i].key == RefundIntent(id);
        }
      }
      var reversal := BuildReversal(money, p.depositLive, p.refund);
      ReversalLineCount(money, p.depositLive, p.refund);
      var second := books.RecordJournal(RefundIntent(id), reversal);
      if second == Recorded || second == Duplicate {
        return true;
      }
      books.journals, books.rows := saved, savedRows;
      return false;
    }

    method HasJournal(key: Key) returns (found: bool)
      ensures found <==> HasKey(books.journals, key)
    {
      found := false;
      var i := 0;
      while i < |books.journals|
        invariant 0 <= i <= |books.journals|
        invariant found <==> exists k :: 0 <= k < i && books.journals[k].key == key
      {
        if books.journals[i].key == key {
          found := true;
        }
        i := i + 1;
      }
    }

    /** One uninterrupted call. */
    method ExecuteTransition(target: Status, role: Role, f: Facts) returns (v: Prepared, r: Committed)
      requires Valid()
      modifies this`status, this`deposit, this`events, this`refunds, books
      ensures Valid()
      ensures v == Prepare(old(State()), target, role, money, payment, f)
      ensures !v.Ready? ==> State() == old(State()) && books.journals == old(books.journals)
      ensures v.Ready? ==> r != Conflict
      ensures v.Ready? && r == Done ==>
        && State() == Moved(old(State()), v.plan)
        && books.journals == Posting(id, v.plan, money, old(books.journals))
      ensures v.Ready? && r == LedgerRefused ==>
        && !LedgerTakes(id, v.plan, money, old(books.journals))
        && State() == old(State()) && books.journals == old(books.journals)
    {
      v := Validate(target, role, f);
      r := Done;
      if v.Ready? {
        r := Commit(v.plan);
      }
    }
  }

  /** A reversal always has the credit line and at least one debit, or it is not balanced. */
  lemma ReversalLineCount(b: BookingMoney, depositLive: bool, refund: int)
    requires NonNegative(b) && refund > 0
    ensures |ReversalLines(SplitRefund(b, depositLive, refund), refund)| >= 2
  {
    SplitParts(b, depositLive, refund);
  }
}
