/** What no later step can undo: the ledger is append-only, settled reservations and
decided adjustments are final. */
module BillingHistory {
  import opened Prelude
  import opened Ledger
  import opened LedgerInvariants
  import opened LedgerMoves
  import opened CreditOps
  import opened CreditLaws
  import opened Reversal
  import opened Billing
  import opened BillingLaws

  predicate CanBecome(st: Status, next: Status) {
    match st
    case Reserved => true
    case Captured => next == Captured || next == Refunded
    case Released => next == Released
    case Refunded => next == Refunded
  }

  ghost predicate RowLater(r: Reservation, next: Reservation) {
    && CanBecome(r.status, next.status)
    && next.account == r.account && next.reference == r.reference && next.amount == r.amount && next.rows == r.rows
  }

  ghost predicate ReservationsLater(rs: seq<Reservation>, next: seq<Reservation>) {
    |rs| <= |next| && forall r :: 0 <= r < |rs| ==> RowLater(rs[r], next[r])
  }

  ghost predicate BookLater(k: Book, next: Book) {
    && Extends(k.buckets, next.buckets) && ReservationsLater(k.reservations, next.reservations)
    && |k.journal| <= |next.journal| && next.journal[..|k.journal|] == k.journal
  }

  ghost predicate DecisionsLater(rows: seq<Adjustment>, next: seq<Adjustment>) {
    && |rows| <= |next|
    && forall n :: 0 <= n < |rows| ==>
      && next[n].requester == rows[n].requester && next[n].target == rows[n].target
      && next[n].amount == rows[n].amount && next[n].dual == rows[n].dual
      && (rows[n].status != Pending ==> next[n] == rows[n])
  }

  ghost predicate Later(s: State, next: State) {
    BookLater(s.book, next.book) && DecisionsLater(s.adjustments, next.adjustments)
  }

  lemma BookLaterTransitive(a: Book, b: Book, c: Book)
    requires BookLater(a, b) && BookLater(b, c)
    ensures BookLater(a, c)
  {
    assert c.journal[..|a.journal|] == b.journal[..|a.journal|];
    forall r | 0 <= r < |a.reservations| ensures RowLater(a.reservations[r], c.reservations[r]) {
      assert RowLater(a.reservations[r], b.reservations[r]) && RowLater(b.reservations[r], c.reservations[r]);
    }
  }

  lemma LaterTransitive(a: State, b: State, c: State)
    requires Later(a, b) && Later(b, c)
    ensures Later(a, c)
  {
    BookLaterTransitive(a.book, b.book, c.book);
  }

  // ---- Books ----

  lemma ExpireLater(k: Book, a: Ref, now: Time)
    requires Inv(k, now)
    ensures BookLater(k, ExpireBuckets(k, a, now))
  {
    ExpireBucketsQuiet(k, a, now);
    ExpireBucketsKeeps(k, now, now, a);
  }

  lemma ReserveLater(k: Book, now: Time, a: Ref, cost: int, reference: Reference, expires: Time)
    requires Inv(k, now) && cost > 0 && ReserveBook(k, a, cost, reference, expires, now).Ok?
    ensures BookLater(k, ReserveBook(k, a, cost, reference, expires, now).value)
  {
    ReserveQuiet(k, now, a, cost, reference, expires);
    ExpireBucketsKeeps(k, now, now, a);
    hide Inv, Greedy, Offered, ReserveOrder, Shift, ExpireBuckets;
    var next := ReserveBook(k, a, cost, reference, expires, now).value;
    assert next.reservations[..|k.reservations|] == k.reservations;
  }

  lemma GrantLater(k: Book, a: Ref, kind: BucketType, source: Source, amount: int, expires: Option<Time>, key: Key)
    ensures
      var r := GrantBook(k, a, kind, source, amount, expires, key);
      r.Ok? ==> BookLater(k, r.value.0)
  {}

  lemma ReleaseAllLater(k: Book, now: Time, b: nat)
    requires Inv(k, now) && b < |k.buckets|
    ensures BookLater(k, ReleaseHolders(k, b, now))
  {
    ReleaseAllKeeps(k, now, now, Holders(k.reservations, b, |k.reservations|));
  }

  // ---- Steps ----

  lemma TrialLater(s: State, user: Ref, verified: bool, policy: Option<Policy>)
    requires EnsureTrial(s, user, verified, policy).Ok?
    ensures Later(s, EnsureTrial(s, user, verified, policy).value)
  {
    if verified && policy.Some? {
      var p := policy.value;
      GrantLater(s.book, user, TrialBucket, TrialSource(p.id, user), p.credits, Some(s.clock + p.validFor),
        TrialKey(p.id, user));
      hide GrantBook;
    }
  }

  lemma ReserveOpLater(s: State, user: Ref, verified: bool, policy: Option<Policy>, quote: Quote, minutes: nat,
                       reference: Reference, expires: Option<Time>)
    requires SInv(s) && Reserve(s, user, verified, policy, quote, minutes, reference, expires).Ok?
    ensures Later(s, Reserve(s, user, verified, policy, quote, minutes, reference, expires).value)
  {
    hide SInv, EnsureTrial, ReserveBook, Later;
    TrialLater(s, user, verified, policy);
    EnsureTrialKeeps(s, user, verified, policy);
    var s1 := EnsureTrial(s, user, verified, policy).value;
    if quote.cost != 0 && FindReference(s1.book.reservations, reference).None? {
      var s3 := Reserve(s, user, verified, policy, quote, minutes, reference, expires).value;
      BookInv(s1);
      BookLaterStep(s1, s3, ReserveBook(s1.book, user, quote.cost, reference,
        if expires.Some? then expires.value else s.clock + RESERVATION_TTL, s1.clock).value) by {
        ReserveLater(s1.book, s1.clock, user, quote.cost, reference,
          if expires.Some? then expires.value else s.clock + RESERVATION_TTL);
      }
      LaterTransitive(s, s1, s3);
    }
  }

  lemma BookLaterStep(s: State, next: State, k: Book)
    requires BookLater(s.book, k) && next.book == k && next.adjustments == s.adjustments
    ensures Later(s, next)
  {}

  lemma ViewLater(s: State, user: Ref, verified: bool, policy: Option<Policy>)
    requires SInv(s) && View(s, user, verified, policy).Ok?
    ensures Later(s, View(s, user, verified, policy).value)
  {
    hide SInv, EnsureTrial, ExpireBuckets, Later;
    TrialLater(s, user, verified, policy);
    EnsureTrialKeeps(s, user, verified, policy);
    var s1 := EnsureTrial(s, user, verified, policy).value;
    BookInv(s1);
    ExpireLater(s1.book, user, s1.clock);
    BookLaterStep(s1, View(s, user, verified, policy).value, ExpireBuckets(s1.book, user, s1.clock));
    LaterTransitive(s, s1, View(s, user, verified, policy).value);
  }

  lemma CaptureLater(s: State, id: Option<nat>)
    requires SInv(s) && Capture(s, id).Ok?
    ensures Later(s, Capture(s, id).value)
  {
    CaptureQuiet(s.book, s.clock, id);
  }

  lemma ReleaseLater(s: State, id: Option<nat>)
    requires SInv(s)
    ensures Later(s, Release(s, id).value)
  {
    ReleaseQuiet(s.book, s.clock, id);
  }

  lemma RefundLater(s: State, id: nat)
    requires SInv(s) && Refund(s, id).Ok?
    ensures Later(s, Refund(s, id).value)
  {
    RefundQuiet(s.book, s.clock, id);
  }

  lemma SettleLater(s: State, id: nat, outcome: Outcome)
    requires SInv(s) && SettleDue(s, id, outcome).Ok?
    ensures Later(s, SettleDue(s, id, outcome).value)
  {
    hide SInv, CaptureBook, ReleaseBook;
    match outcome {
      case CaptureIt => if Capture(s, Some(id)).Ok? { CaptureLater(s, Some(id)); }
      case ReleaseIt => ReleaseLater(s, Some(id));
      case DeferIt =>
    }
  }

  lemma GrantPaymentLater(s: State, id: Ref, period: Ref, user: Ref, offer: Offer, expires: Option<Time>)
    requires GrantPayment(s, id, period, user, offer, expires).Ok?
    ensures Later(s, GrantPayment(s, id, period, user, offer, expires).value)
  {
    var kind := if offer.kind == SubscriptionOffer then SubscriptionBucket else TopupBucket;
    GrantLater(s.book, user, kind, PaymentSource(period), offer.credits, expires, PaymentKey(id));
    hide GrantBook, BookLater;
  }

  lemma SucceededLater(s: State, id: Ref, event: Event)
    requires PaymentSucceeded(s, id, event).Ok?
    ensures Later(s, PaymentSucceeded(s, id, event).value)
  {
    var (user, offerId) := Payee(s, event).value;
    var offer := PaidOffer(s, event, offerId).value;
    var period := PeriodOf(event, id);
    var s1 := EnsureAccount(s, user).value;
    hide Payee, PaidOffer, GrantPayment, BookLater, DecisionsLater;
    if offer.kind == SubscriptionOffer {
      var (s2, end) := Subscribe(s1, event, user, offerId, period).value;
      GrantPaymentLater(s2, id, period, user, offer, Some(end));
    } else {
      GrantPaymentLater(s1, id, period, user, offer, None);
    }
  }

  lemma ReverseCreditsLater(s: State, id: Ref, reason: EventType, period: Ref, b: nat, state: ReversalState,
      credits: int)
    requires SInv(s) && b < |s.book.buckets| && ReverseCredits(s, id, reason, period, b, state, credits).Ok?
    ensures Later(s, ReverseCredits(s, id, reason, period, b, state, credits).value)
  {
    var k1 := ReleaseHolders(s.book, b, s.clock);
    ReleaseAllLater(s.book, s.clock, b);
    hide SInv, BookLater, TakeBack, ReleaseHolders;
    var unspent := Min(k1.buckets[b].available, credits);
    TakeBackLater(k1, b, unspent, id);
    BookLaterTransitive(s.book, k1, TakeBack(k1, b, unspent, id));
  }

  lemma ReversedLater(s: State, id: Ref, event: Event, origin: Option<Ref>)
    requires SInv(s) && PaymentReversed(s, id, event, origin).Ok?
    ensures Later(s, PaymentReversed(s, id, event, origin).value)
  {
    hide SInv, PlanReversal, ReverseCredits, Later;
    var plan := PlanReversal(s, event, origin).value;
    ReverseCreditsLater(s, id, event.kind, plan.period, plan.bucket, plan.state, plan.credits);
  }

  lemma TakeBackLater(k: Book, b: nat, unspent: int, event: Ref)
    requires b < |k.buckets|
    ensures BookLater(k, TakeBack(k, b, unspent, event))
  {
    if unspent != 0 { ShiftExtends(k.buckets, [Row(b, unspent)], Drain); }
  }

  lemma FinishLater(s: State, id: Ref, event: Event, origin: Option<Ref>)
    requires SInv(s) && Finish(s, id, event, origin).Ok?
    ensures Later(s, Finish(s, id, event, origin).value)
  {
    if ApplyEvent(s, id, event, origin).Ok? {
      match event.kind {
        case CheckoutCompleted => SucceededLater(s, id, event);
        case SubscriptionRenewed => SucceededLater(s, id, event);
        case PaymentRefunded => ReversedLater(s, id, event, origin);
        case PaymentChargeback => ReversedLater(s, id, event, origin);
        case SubscriptionEnded =>
        case Ignored =>
      }
    }
    hide SInv, PaymentSucceeded, PaymentReversed, BookLater, DecisionsLater;
    assert Later(s, s) by { SameLater(s); }
  }

  lemma SameLater(s: State)
    ensures Later(s, s)
  {}

  lemma AdjustBookLater(k: Book, now: Time, a: Ref, amount: int, n: nat)
    requires Inv(k, now) && AdjustBook(k, a, amount, n).Ok?
    ensures BookLater(k, AdjustBook(k, a, amount, n).value)
  {
    if !Used(k.journal, a, AdjustmentKey(n)) { AdjustBookShape(k, now, a, amount, n); }
  }

  // Executing an adjustment on a state that already marks it executed.
  lemma ExecuteAdjustmentLater(s: State, after: seq<Adjustment>, target: Ref, amount: int, n: nat)
    requires SInv(s) && DecisionsLater(s.adjustments, after)
    requires ExecuteAdjustment(s.(adjustments := after), target, amount, n).Ok?
    ensures Later(s, ExecuteAdjustment(s.(adjustments := after), target, amount, n).value)
  {
    AdjustBookLater(s.book, s.clock, target, amount, n);
    hide SInv, AdjustBook, BookLater, DecisionsLater;
  }

  lemma ExecuteLater(s: State, op: Op)
    requires SInv(s) && Execute(s, op).Ok?
    ensures Later(s, Execute(s, op).value)
  {
    hide SInv, Reserve, Capture, Release, Refund, SettleDue, View, Finish, ExecuteAdjustment, BookLater;
    SameLater(s);
    match op {
      case ReserveOp(user, verified, policy, quote, minutes, reference, expires) =>
        ReserveOpLater(s, user, verified, policy, quote, minutes, reference, expires);
      case CaptureOp(id) => CaptureLater(s, id);
      case ReleaseOp(id) => if Release(s, id).Ok? { ReleaseLater(s, id); }
      case RefundOp(id) => RefundLater(s, id);
      case SettleOp(id, outcome) => SettleLater(s, id, outcome);
      case ViewOp(user, verified, policy) => ViewLater(s, user, verified, policy);
      case FinishOp(id, event, origin) => if Finish(s, id, event, origin).Ok? { FinishLater(s, id, event, origin); }
      case RequestOp(actor, target, amount, dual) =>
        if !dual {
          ExecuteAdjustmentLater(s, s.adjustments + [Adjustment(actor, target, amount, Executed, false, None)], target,
            amount, |s.adjustments|);
        }
      case ApproveOp(id, actor) =>
        ExecuteAdjustmentLater(s, Decide(s, id, actor, Executed).adjustments, s.adjustments[id].target,
          s.adjustments[id].amount, id);
      case RejectOp(id, actor) =>
      case CheckoutOp(session, checkout) =>
      case DeliverOp(id, event, hash) =>
      case BeginOp(id) =>
      case ReconcileOp(id, event, hash) =>
    }
  }

  lemma StepLater(s: State, wait: nat, op: Op)
    requires SInv(s)
    ensures Later(s, Step(s, wait, op))
  {
    hide SInv, Execute, BookLater, DecisionsLater;
    var s1 := s.(clock := s.clock + wait);
    ClockKeeps(s, wait);
    SameLater(s);
    if Execute(s1, op).Ok? { ExecuteLater(s1, op); }
  }

  // Along any run: the ledger only grows, reservations move only forward and keep
  // their amounts, and decided adjustments never change.
  lemma {:induction false} RunLater(s: State, ops: seq<Timed>)
    requires SInv(s)
    ensures Later(s, Run(s, ops))
  {
    SameLater(s);
    if |ops| > 0 {
      var mid := Run(s, ops[..|ops| - 1]);
      hide SInv, Later;
      RunKeeps(s, ops[..|ops| - 1]);
      RunLater(s, ops[..|ops| - 1]);
      StepLater(mid, ops[|ops| - 1].wait, ops[|ops| - 1].op);
      LaterTransitive(s, mid, Run(s, ops));
    }
  }
}
