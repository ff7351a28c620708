/** The billing service as a state machine: one step is one committed operation.

`Step` either commits or, on an error, leaves everything but the clock unchanged;
applying a payment event that fails records the failure in the inbox instead.
*/
module Billing {
  import opened Prelude
  import opened Ledger
  import opened CreditOps
  import opened Reversal

  // ---- Tables ----

  datatype AccountStatus = Active | Review
  datatype Account = Account(status: AccountStatus, debt: int)

  datatype Policy = Policy(id: Ref, key: Ref, enabled: bool, credits: nat, validFor: Time)

  // The price found for a feature in the active catalog, if any.
  datatype Quote = NoCatalog | NoPrice | Price(cost: nat, maxMinutes: nat)

  datatype OfferType = SubscriptionOffer | TopupOffer
  datatype Offer = Offer(kind: OfferType, amount: int, currency: Ref, credits: nat)
  datatype Checkout = Checkout(id: Ref, user: Ref, offer: Ref, completed: bool)
  datatype SubscriptionStatus = SubscriptionActive | SubscriptionCancelled
  datatype Subscription = Subscription(user: Ref, offer: Ref, status: SubscriptionStatus, period: Ref, start: Time,
    end: Time)

  datatype EventType =
    | CheckoutCompleted | SubscriptionRenewed | PaymentRefunded | PaymentChargeback | SubscriptionEnded | Ignored
  datatype Event = Event(
    kind: EventType, checkout: Option<Ref>, subscription: Option<Ref>, offer: Option<Ref>,
    amount: Field<int>, currency: Ref, period: Option<Ref>, original: Option<Ref>,
    start: Field<Time>, end: Field<Time>)

  datatype InboxStatus = Received | Processing | Processed | Failed
  datatype InboxRow = InboxRow(event: Event, hash: Ref, status: InboxStatus, startedAt: Time)

  datatype ReversalState = ReversalState(bucket: nat, original: int, amount: int, credits: int)
  datatype DebtReview = DebtReview(account: Ref, event: Ref, reason: EventType, debt: int, period: Ref)

  datatype AdjustmentStatus = Pending | Executed | Rejected
  datatype Adjustment = Adjustment(requester: Ref, target: Ref, amount: int, status: AdjustmentStatus, dual: bool,
    decider: Option<Ref>)

  datatype State = State(
    clock: Time, users: set<Ref>, offers: map<Ref, Offer>,
    accounts: map<Ref, Account>, book: Book, trials: set<(Ref, Ref)>,
    checkouts: map<Ref, Checkout>, subscriptions: map<Ref, Subscription>,
    inbox: map<Ref, InboxRow>, payments: map<Ref, ReversalState>, reviews: seq<DebtReview>,
    adjustments: seq<Adjustment>)

  function Init(start: Time, users: set<Ref>, offers: map<Ref, Offer>): State {
    State(start, users, offers, map[], EMPTY_BOOK, {}, map[], map[], map[], map[], [], [])
  }

  const DEFER_BY: Time := 15 * 60
  const RESERVATION_TTL: Time := 2 * 60 * 60
  const SUBSCRIPTION_PERIOD: Time := 30 * 24 * 60 * 60

  // ---- Accounts and the signup trial ----

  function AccountOf(s: State, user: Ref): Account {
    if user in s.accounts then s.accounts[user] else Account(Active, 0)
  }

  // `_account(user, lock=True)`
  function EnsureAccount(s: State, user: Ref): Result<State> {
    if user in s.accounts then Ok(s)
    else if user !in s.users then Err(UserNotFound)
    else Ok(s.(accounts := s.accounts[user := Account(Active, 0)]))
  }

  function EnsureTrial(s: State, user: Ref, verified: bool, policy: Option<Policy>): Result<State> {
    if !verified then Ok(s)
    else if policy.None? then Err(TrialPolicyUnavailable)
    else
      var p := policy.value;
      if !p.enabled || (user, p.key) in s.trials then Ok(s)
      else
        var s1 :- EnsureAccount(s, user);
        TrialGranted(s1, user, p)
  }

  function TrialGranted(s: State, user: Ref, p: Policy): Result<State> {
    var (k, _) :- GrantBook(s.book, user, TrialBucket, TrialSource(p.id, user), p.credits,
                            Some(s.clock + p.validFor), TrialKey(p.id, user));
    Ok(s.(book := k, trials := s.trials + {(user, p.key)}))
  }

  // ---- Spending ----

  function Reserve(s: State, user: Ref, verified: bool, policy: Option<Policy>, quote: Quote, minutes: nat,
                   reference: Reference, expires: Option<Time>): Result<State> {
    var s1 :- EnsureTrial(s, user, verified, policy);
    if quote.NoCatalog? then Err(BillingCatalogUnavailable)
    else if quote.NoPrice? then Err(FeaturePricingUnavailable)
    else if quote.maxMinutes != 0 && minutes > quote.maxMinutes then Err(FeatureLimitExceeded)
    else if quote.cost == 0 || FindReference(s1.book.reservations, reference).Some? then Ok(s1)
    else
      var s2 :- EnsureAccount(s1, user);
      if s2.accounts[user].status != Active then Err(CreditAccountRestricted)
      else
        var until := if expires.Some? then expires.value else s.clock + RESERVATION_TTL;
        var k :- ReserveBook(s2.book, user, quote.cost, reference, until, s.clock);
        Ok(s2.(book := k))
  }

  function Capture(s: State, id: Option<nat>): Result<State> {
    var k :- CaptureBook(s.book, id, s.clock);
    Ok(s.(book := k))
  }

  function Release(s: State, id: Option<nat>): Result<State> {
    Ok(s.(book := ReleaseBook(s.book, id, s.clock)))
  }

  function Refund(s: State, id: nat): Result<State> {
    var k :- RefundBook(s.book, id, s.clock);
    Ok(s.(book := k))
  }

  datatype Outcome = CaptureIt | ReleaseIt | DeferIt

  // One due reservation of `reconcile_expired_reservations`, with the outcome its domain record calls for.
  function SettleDue(s: State, id: nat, outcome: Outcome): Result<State> {
    var rs := s.book.reservations;
    if id >= |rs| || rs[id].status != Status.Reserved || rs[id].expires > s.clock then Ok(s)
    else match outcome
      case CaptureIt => Capture(s, Some(id))
      case ReleaseIt => Release(s, Some(id))
      case DeferIt => Ok(s.(book := s.book.(reservations := rs[id := rs[id].(expires := s.clock + DEFER_BY)])))
  }

  // The writes of `credit_account`.
  function View(s: State, user: Ref, verified: bool, policy: Option<Policy>): Result<State> {
    var s1 :- EnsureTrial(s, user, verified, policy);
    var s2 :- EnsureAccount(s1, user);
    Ok(s2.(book := ExpireBuckets(s2.book, user, s.clock)))
  }

  // ---- Payment events ----

  predicate IsSuccess(kind: EventType) {
    kind == CheckoutCompleted || kind == SubscriptionRenewed
  }

  function PeriodOf(event: Event, id: Ref): Ref {
    if event.period.Some? then event.period.value else id
  }

  // Who paid for which offer.
  function Payee(s: State, event: Event): Result<(Ref, Ref)> {
    if event.kind == CheckoutCompleted then
      if event.checkout.None? || event.checkout.value !in s.checkouts then Err(CheckoutSessionNotFound)
      else Ok((s.checkouts[event.checkout.value].user, s.checkouts[event.checkout.value].offer))
    else if event.subscription.None? then Err(SubscriptionIdRequired)
    else if event.subscription.value !in s.subscriptions then Err(SubscriptionNotFound)
    else Ok((s.subscriptions[event.subscription.value].user, s.subscriptions[event.subscription.value].offer))
  }

  function PaidOffer(s: State, event: Event, offer: Ref): Result<Offer> {
    if offer !in s.offers then Err(BillingOfferNotFound)
    else if !event.amount.Given? then Err(PaymentAmountRequired)
    else if event.amount.value != s.offers[offer].amount || event.currency != s.offers[offer].currency
      then Err(PaymentAmountMismatch)
    else if event.offer.Some? && event.offer.value != offer then Err(PaymentOfferMismatch)
    else Ok(s.offers[offer])
  }

  function TimeOr(t: Field<Time>, default: Time): Result<Time> {
    match t
    case Missing => Ok(default)
    case Malformed => Err(InvalidPaymentTimestamp)
    case Given(v) => Ok(v)
  }

  // Open or renew the subscription; the result is the expiry of the granted credits.
  function Subscribe(s: State, event: Event, user: Ref, offer: Ref, period: Ref): Result<(State, Time)> {
    var start :- TimeOr(event.start, s.clock);
    var end :- TimeOr(event.end, start + SUBSCRIPTION_PERIOD);
    var id :=
      if event.subscription.Some? then event.subscription.value
      else if event.checkout.Some? && event.checkout.value in s.checkouts then s.checkouts[event.checkout.value].id
      else 0;
    var sub := if id in s.subscriptions
      then s.subscriptions[id].(status := SubscriptionActive, period := period, start := start, end := end)
      else Subscription(user, offer, SubscriptionActive, period, start, end);
    Ok((s.(subscriptions := s.subscriptions[id := sub]), end))
  }

  function CompleteCheckout(s: State, event: Event): State {
    if event.kind == CheckoutCompleted && event.checkout.Some? && event.checkout.value in s.checkouts then
      var c := event.checkout.value;
      s.(checkouts := s.checkouts[c := s.checkouts[c].(completed := true)])
    else s
  }

  // The grant and its reversal state.
  function GrantPayment(s: State, id: Ref, period: Ref, user: Ref, offer: Offer, expires: Option<Time>): Result<State> {
    var kind := if offer.kind == SubscriptionOffer then SubscriptionBucket else TopupBucket;
    var (k, b) :- GrantBook(s.book, user, kind, PaymentSource(period), offer.credits, expires, PaymentKey(id));
    if period !in s.payments then
      Ok(s.(book := k, payments := s.payments[period := ReversalState(b, offer.amount, 0, 0)]))
    else if s.payments[period].bucket != b || s.payments[period].original != offer.amount then
      Err(PaymentReversalStateConflict)
    else Ok(s.(book := k))
  }

  function PaymentSucceeded(s: State, id: Ref, event: Event): Result<State> {
    var (user, offerId) :- Payee(s, event);
    var offer :- PaidOffer(s, event, offerId);
    var s1 :- EnsureAccount(s, user);
    var period := PeriodOf(event, id);
    if offer.kind == SubscriptionOffer && event.kind == SubscriptionRenewed
      && event.period.None? then Err(BillingPeriodRequired)
    else if offer.kind == SubscriptionOffer then
      var (s2, end) :- Subscribe(s1, event, user, offerId, period);
      var s3 :- GrantPayment(s2, id, period, user, offer, Some(end));
      Ok(CompleteCheckout(s3, event))
    else
      var s3 :- GrantPayment(s1, id, period, user, offer, None);
      Ok(CompleteCheckout(s3, event))
  }

  // `origin` is a row the query for the original payment may return.
  predicate OriginOk(s: State, event: Event, origin: Option<Ref>) {
    match origin
    case Some(o) => o in s.inbox && Matches(s.inbox[o].event, event)
    case None => forall o :: o in s.inbox ==> !Matches(s.inbox[o].event, event)
  }

  predicate Matches(original: Event, reversal: Event) {
    IsSuccess(original.kind) && original.period.Some? && ReversedPeriod(reversal) == original.period
  }

  function ReversedPeriod(event: Event): Option<Ref> {
    if event.period.Some? then event.period else event.original
  }

  // The amount a payload field stands for; a missing or zero amount takes the default.
  function AmountOr(amount: Field<int>, default: int): Result<int> {
    match amount
    case Missing => Ok(default)
    case Malformed => Err(PaymentAmountRequired)
    case Given(v) => Ok(if v == 0 then default else v)
  }

  // What `_payment_reversed` settles before it touches any credits.
  datatype ReversalPlan = ReversalPlan(period: Ref, bucket: nat, state: ReversalState, credits: int)

  function PlanReversal(s: State, event: Event, origin: Option<Ref>): (r: Result<ReversalPlan>)
    ensures r.Ok? ==> r.value.bucket < |s.book.buckets|
  {
    var reversed := ReversedPeriod(event);
    if reversed.None? then Err(PaymentPeriodRequired)
    else
      var period := reversed.value;
      var found := FindSource(s.book.buckets, PaymentSource(period));
      if found.None? || found.value >= |s.book.buckets| then Err(PaymentGrantNotFound)
      else
        var original :- if origin.Some? && origin.value in s.inbox then AmountOr(s.inbox[origin.value].event.amount, 0)
          else Ok(0);
        var amount :- AmountOr(event.amount, original);
        var state := if period in s.payments then s.payments[period] else ReversalState(found.value, original, 0, 0);
        if state.bucket != found.value || state.original != original then Err(PaymentReversalStateConflict)
        else
          var (total, cumulative, credits) :-
            CumulativeReversal(state.original, s.book.buckets[found.value].granted, state.amount, state.credits,
              amount);
          Ok(ReversalPlan(period, found.value, state.(amount := total, credits := cumulative), credits))
  }

  function PaymentReversed(s: State, id: Ref, event: Event, origin: Option<Ref>): Result<State> {
    var plan :- PlanReversal(s, event, origin);
    ReverseCredits(s, id, event.kind, plan.period, plan.bucket, plan.state, plan.credits)
  }

  function ReverseCredits(s: State, id: Ref, reason: EventType, period: Ref, b: nat, state: ReversalState,
      credits: int): Result<State>
    requires b < |s.book.buckets|
  {
    var a := s.book.buckets[b].account;
    var k1 := ReleaseHolders(s.book, b, s.clock);
    ReleaseAllSize(s.book, Holders(s.book.reservations, b, |s.book.reservations|), s.clock);
    var unspent := Min(k1.buckets[b].available, credits);
    var due := Max(0, credits - unspent);
    var s1 := s.(book := TakeBack(k1, b, unspent, id), payments := s.payments[period := state]);
    if due == 0 then Ok(s1)
    else if exists r :: 0 <= r < |s.reviews| && s.reviews[r].event == id then Err(ReviewAlreadyRecorded)
    else Ok(s1.(accounts := s.accounts[a := Account(Review, AccountOf(s, a).debt + due)],
                reviews := s.reviews + [DebtReview(a, id, reason, due, period)]))
  }

  lemma {:induction false} ReleaseAllSize(k: Book, ids: seq<nat>, now: Time)
    ensures |ReleaseAll(k, ids, now).buckets| == |k.buckets|
  {
    if |ids| > 0 { ReleaseAllSize(k, ids[..|ids| - 1], now); }
  }

  // `_apply_payment_event`
  function ApplyEvent(s: State, id: Ref, event: Event, origin: Option<Ref>): Result<State> {
    match event.kind
    case CheckoutCompleted => PaymentSucceeded(s, id, event)
    case SubscriptionRenewed => PaymentSucceeded(s, id, event)
    case PaymentRefunded => PaymentReversed(s, id, event, origin)
    case PaymentChargeback => PaymentReversed(s, id, event, origin)
    case SubscriptionEnded =>
      if event.subscription.Some? && event.subscription.value in s.subscriptions then
        var i := event.subscription.value;
        Ok(s.(subscriptions := s.subscriptions[i := s.subscriptions[i].(status := SubscriptionCancelled)]))
      else Ok(s)
    case Ignored => Ok(s)
  }

  // ---- The payment inbox ----

  // First commit of `process_webhook`.
  function Deliver(s: State, id: Ref, event: Event, hash: Ref): Result<State> {
    if id !in s.inbox then Ok(s.(inbox := s.inbox[id := InboxRow(event, hash, InboxStatus.Received, 0)]))
    else if s.inbox[id].hash != hash then Err(PaymentEventConflict)
    else if s.inbox[id].status == Processed || s.inbox[id].status == Processing then Ok(s)
    else Ok(SetStatus(s, id, InboxStatus.Received))
  }

  function SetStatus(s: State, id: Ref, status: InboxStatus): State
    requires id in s.inbox
  {
    s.(inbox := s.inbox[id := s.inbox[id].(status := status)])
  }

  // Second commit of `process_webhook`.
  function Begin(s: State, id: Ref): Result<State> {
    if id !in s.inbox then Err(PaymentEventNotReceived)
    else Ok(s.(inbox := s.inbox[id := s.inbox[id].(status := Processing, startedAt := s.clock)]))
  }

  // First commit of `_process_reconciled_event`.
  function Reconcile(s: State, id: Ref, event: Event, hash: Ref): Result<State> {
    if id in s.inbox && s.inbox[id].status == Processed then Ok(s)
    else
      var row := if id in s.inbox then s.inbox[id] else InboxRow(event, hash, Processing, s.clock);
      Ok(s.(inbox := s.inbox[id := row.(status := Processing, startedAt := s.clock)]))
  }

  // A worker applies the event it was handed. A webhook of a known id has the stored body,
  // and a reconciled event has an id that hashes its transaction: either way a success
  // event of this id means the period of the stored one.
  predicate KeepsPeriod(s: State, id: Ref, event: Event) {
    id in s.inbox && IsSuccess(event.kind) ==> PeriodOf(event, id) == PeriodOf(s.inbox[id].event, id)
  }

  // Last commit of either path: the event's effect with "processed", or "failed" alone.
  function Finish(s: State, id: Ref, event: Event, origin: Option<Ref>): Result<State> {
    if id !in s.inbox then Err(PaymentEventNotReceived)
    else
      var r := ApplyEvent(s, id, event, origin);
      if r.Ok? && id in r.value.inbox then Ok(SetStatus(r.value, id, Processed)) else Ok(SetStatus(s, id, Failed))
  }

  // ---- Administrative adjustments ----

  function ExecuteAdjustment(s: State, target: Ref, amount: int, id: nat): Result<State> {
    var s1 :- EnsureAccount(s, target);
    var k :- AdjustBook(s1.book, target, amount, id);
    Ok(s1.(book := k))
  }

  function RequestAdjustment(s: State, actor: Ref, target: Ref, amount: int, dual: bool): Result<State> {
    if amount == 0 then Err(ZeroCreditAdjustment)
    else if target !in s.users then Err(UserNotFound)
    else
      var row := Adjustment(actor, target, amount, if dual then Pending else Executed, dual, None);
      var s1 := s.(adjustments := s.adjustments + [row]);
      if dual then Ok(s1) else ExecuteAdjustment(s1, target, amount, |s.adjustments|)
  }

  function Decidable(s: State, id: nat, actor: Ref): Result<Adjustment> {
    if id >= |s.adjustments| then Err(AdjustmentNotFound)
    else if s.adjustments[id].status != Pending then Err(AdjustmentAlreadyDecided)
    else if s.adjustments[id].requester == actor then Err(SelfApprovalForbidden)
    else Ok(s.adjustments[id])
  }

  function Decide(s: State, id: nat, actor: Ref, status: AdjustmentStatus): State
    requires id < |s.adjustments|
  {
    s.(adjustments := s.adjustments[id := s.adjustments[id].(status := status, decider := Some(actor))])
  }

  function ApproveAdjustment(s: State, id: nat, actor: Ref): Result<State> {
    var row :- Decidable(s, id, actor);
    ExecuteAdjustment(Decide(s, id, actor, Executed), row.target, row.amount, id)
  }

  function RejectAdjustment(s: State, id: nat, actor: Ref): Result<State> {
    var _ :- Decidable(s, id, actor);
    Ok(Decide(s, id, actor, Rejected))
  }

  // ---- Steps and runs ----

  datatype Op =
    | ReserveOp(user: Ref, verified: bool, policy: Option<Policy>, quote: Quote, minutes: nat, reference: Reference,
      expires: Option<Time>)
    | CaptureOp(captured: Option<nat>)
    | ReleaseOp(released: Option<nat>)
    | RefundOp(refunded: nat)
    | SettleOp(due: nat, outcome: Outcome)
    | ViewOp(user: Ref, verified: bool, policy: Option<Policy>)
    | CheckoutOp(session: Ref, checkout: Checkout)
    | DeliverOp(id: Ref, event: Event, hash: Ref)
    | BeginOp(id: Ref)
    | ReconcileOp(id: Ref, event: Event, hash: Ref)
    | FinishOp(id: Ref, event: Event, origin: Option<Ref>)
    | RequestOp(actor: Ref, target: Ref, amount: int, dual: bool)
    | ApproveOp(adjustment: nat, actor: Ref)
    | RejectOp(adjustment: nat, actor: Ref)

  function Execute(s: State, op: Op): Result<State> {
    match op
    case ReserveOp(user, verified, policy, quote, minutes, reference, expires) =>
      Reserve(s, user, verified, policy, quote, minutes, reference, expires)
    case CaptureOp(id) => Capture(s, id)
    case ReleaseOp(id) => Release(s, id)
    case RefundOp(id) => Refund(s, id)
    case SettleOp(id, outcome) => SettleDue(s, id, outcome)
    case ViewOp(user, verified, policy) => View(s, user, verified, policy)
    case CheckoutOp(session, checkout) =>
      Ok(if session in s.checkouts then s else s.(checkouts := s.checkouts[session := checkout]))
    case DeliverOp(id, event, hash) => Deliver(s, id, event, hash)
    case BeginOp(id) => Begin(s, id)
    case ReconcileOp(id, event, hash) => Reconcile(s, id, event, hash)
    case FinishOp(id, event, origin) =>
      if id in s.inbox && !(OriginOk(s, event, origin) && KeepsPeriod(s, id, event)) then Ok(s)
      else Finish(s, id, event, origin)
    case RequestOp(actor, target, amount, dual) => RequestAdjustment(s, actor, target, amount, dual)
    case ApproveOp(id, actor) => ApproveAdjustment(s, id, actor)
    case RejectOp(id, actor) => RejectAdjustment(s, id, actor)
  }

  // `wait` is the time since the previous step, so the clock never goes back.
  function Step(s: State, wait: nat, op: Op): State {
    var s1 := s.(clock := s.clock + wait);
    var r := Execute(s1, op);
    if r.Ok? then r.value else s1
  }

  datatype Timed = Timed(wait: nat, op: Op)

  function Run(s: State, ops: seq<Timed>): State {
    if |ops| == 0 then s
    else
      var last := ops[|ops| - 1];
      Step(Run(s, ops[..|ops| - 1]), last.wait, last.op)
  }
}
