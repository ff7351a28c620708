/** How `PaddlePaymentAdapter` turns webhooks and reconciliation queries into payment
events: for one transaction they differ in their event id and share the billing period. */
module PaddleEvents {
  import opened Prelude
  import opened Ledger
  import opened Billing
  import opened BillingLaws
  import opened Guarantees
  import opened PaymentOutcomes

  datatype Transaction = Transaction(
    id: Option<Ref>, recurring: bool, subscription: Option<Ref>, offer: Option<Ref>,
    amount: Field<int>, currency: Ref, start: Field<Time>, end: Field<Time>, updated: Ref)

  datatype Action = Refunding | ChargingBack | OtherAction

  datatype Notice =
    | TransactionCompleted(transaction: Transaction)
    | AdjustmentChanged(original: Option<Ref>, action: Action, approved: bool, amount: Field<int>, currency: Ref)
    | SubscriptionCanceled(subscription: Option<Ref>)
    | OtherNotice

  // A provider payload; a missing or empty event id is `None`.
  datatype Payload = Payload(id: Option<Ref>, notice: Notice)

  const NOTHING := Event(Ignored, None, None, None, Missing, 0, None, None, Missing, Missing)

  // `_normalize_event`
  function Normalize(p: Payload): Result<(Ref, Event)> {
    if p.id.None? then Err(PaymentEventInvalid)
    else
      var event := match p.notice
        case TransactionCompleted(t) =>
          Event(if t.recurring then SubscriptionRenewed else CheckoutCompleted, t.id, t.subscription, t.offer,
                t.amount, t.currency, t.id, None, t.start, t.end)
        case AdjustmentChanged(original, action, approved, amount, currency) =>
          if approved && action != OtherAction then
            NOTHING.(kind := if action == Refunding then PaymentRefunded else PaymentChargeback,
                     amount := amount, currency := currency, period := original)
          else NOTHING
        case SubscriptionCanceled(subscription) => NOTHING.(kind := SubscriptionEnded, subscription := subscription)
        case OtherNotice => NOTHING;
      Ok((p.id.value, event))
  }

  // `_reconciliation_payload`; `digest` hashes the transaction's id and version.
  function ReconciliationPayload(t: Transaction, digest: (Option<Ref>, Ref) -> Ref): Payload {
    Payload(Some(digest(t.id, t.updated)), TransactionCompleted(t))
  }

  // The webhook of a transaction and a reconciliation that reads it again, perhaps in a
  // later version, mean the same period if and only if the transaction has an id or the
  // two event ids coincide.
  lemma SamePeriod(webhook: Ref, t: Transaction, later: Transaction, digest: (Option<Ref>, Ref) -> Ref)
    requires later.id == t.id
    ensures
      var w := Normalize(Payload(Some(webhook), TransactionCompleted(t)));
      var r := Normalize(ReconciliationPayload(later, digest));
      && w.Ok? && r.Ok?
      && (PeriodOf(w.value.1, w.value.0) == PeriodOf(r.value.1, r.value.0) <==>
          t.id.Some? || digest(later.id, later.updated) == webhook)
  {}

  // So once a transaction was granted, whatever else happened since, no event about it
  // under any event id changes credits or reversal state.
  lemma GrantedOnce(s: State, ops: seq<Timed>, t: Transaction, p: Payload)
    requires Reachable(s) && t.id.Some? && t.id.value in s.payments
    requires p.id.Some? && p.notice.TransactionCompleted? && p.notice.transaction.id == t.id
    ensures
      var now, event := Run(s, ops), Normalize(p).value;
      var r := PaymentSucceeded(now, event.0, event.1);
      r.Ok? ==> r.value.book == now.book && r.value.payments == now.payments
  {
    var event := Normalize(p).value;
    GrantStays(s, ops, t.id.value);
    hide PaymentSucceeded, Reachable, Run;
    if PaymentSucceeded(Run(s, ops), event.0, event.1).Ok? {
      RepeatedSuccess(Run(s, ops), event.0, event.1);
    }
  }

  // A refund or chargeback of a transaction matches the success event of that transaction,
  // whether a webhook or a reconciliation brought it.
  lemma ReversalMatches(p: Payload, q: Payload)
    requires p.notice.TransactionCompleted? && q.notice.AdjustmentChanged? && Normalize(p).Ok? && Normalize(q).Ok?
    requires q.notice.approved && q.notice.action != OtherAction
    ensures Matches(Normalize(p).value.1, Normalize(q).value.1) <==>
      p.notice.transaction.id.Some? && q.notice.original == p.notice.transaction.id
  {}

  // A completed transaction that pays for the first time grants, under its id as the period,
  // the credits of the offer it pays exactly: its subscription's if it recurs, else its
  // checkout's. A subscription's credits last until the end the transaction names, or
  // thirty days from its start.
  lemma TransactionPays(s: State, t: Transaction, id: Ref)
    requires Reachable(s) && t.id.Some? && t.id.value !in s.payments
    requires Normalize(Payload(Some(id), TransactionCompleted(t))).Ok?
    ensures
      var (key, event) := Normalize(Payload(Some(id), TransactionCompleted(t))).value;
      var out := PaymentSucceeded(s, key, event);
      out.Ok? ==>
        && key == id
        && (if t.recurring then t.subscription.Some? && t.subscription.value in s.subscriptions
            else t.id.value in s.checkouts)
        && if t.recurring then
             var sub := s.subscriptions[t.subscription.value];
             Grants(s, out.value, t, sub.user, sub.offer)
           else Grants(s, out.value, t, s.checkouts[t.id.value].user, s.checkouts[t.id.value].offer)
  {
    hide Reachable, PaymentSucceeded;
    var (key, event) := Normalize(Payload(Some(id), TransactionCompleted(t))).value;
    if PaymentSucceeded(s, key, event).Ok? {
      FirstSuccess(s, key, event);
      SuccessOutcome(s, key, event);
      hide GrantItem, PaidSubscription, Renewed;
    }
  }

  ghost predicate Grants(s: State, next: State, t: Transaction, user: Ref, offerId: Ref) {
    && t.id.Some? && offerId in s.offers
    && var offer := s.offers[offerId];
    var start := if t.start.Given? then t.start.value else s.clock;
    var end := if t.end.Given? then t.end.value else start + 30 * 24 * 60 * 60;
    && t.amount == Given(offer.amount) && t.currency == offer.currency && (t.offer.None? || t.offer.value == offerId)
    && next.book.buckets == s.book.buckets +
      [if offer.kind == SubscriptionOffer then
         Bucket(user, SubscriptionBucket, PaymentSource(t.id.value), offer.credits, offer.credits, 0, Some(end))
       else Bucket(user, TopupBucket, PaymentSource(t.id.value), offer.credits, offer.credits, 0, None)]
  }

  // An approved refund or chargeback reverses the amount it names of the payment of its
  // transaction, or all of it; any other adjustment does nothing. A cancelled subscription
  // is marked, and other notices do nothing.
  lemma NoticeActs(s: State, id: Ref, notice: Notice, origin: Option<Ref>)
    requires !notice.TransactionCompleted?
    ensures Normalize(Payload(Some(id), notice)).Ok?
    ensures
      var (key, event) := Normalize(Payload(Some(id), notice)).value;
      var out := ApplyEvent(s, key, event, origin);
      key == id &&
      match notice
      case AdjustmentChanged(original, action, approved, amount, currency) =>
        if !approved || action == OtherAction then out == Ok(s)
        else out.Ok? ==> original.Some? && Reverses(s, out.value, original.value, amount)
      case SubscriptionCanceled(subscription) =>
        out == Ok(s.(subscriptions := Cancelled(s.subscriptions, subscription)))
      case _ => out == Ok(s)
  {
    var (key, event) := Normalize(Payload(Some(id), notice)).value;
    hide PaymentReversed, PaymentSucceeded;
    if PaymentReversed(s, key, event, origin).Ok? { ReversalCountsEachTime(s, key, event, origin); }
    if notice.AdjustmentChanged? && notice.original.None? { NoPeriodNoReversal(s, key, event, origin); }
  }

  ghost predicate Reverses(s: State, next: State, period: Ref, amount: Field<int>) {
    period in next.payments &&
    var st := next.payments[period];
    st.amount == Claimed(amount, st.original) + if period in s.payments then s.payments[period].amount else 0
  }

  lemma NoPeriodNoReversal(s: State, id: Ref, event: Event, origin: Option<Ref>)
    requires event.period.None? && event.original.None?
    ensures PaymentReversed(s, id, event, origin).Err?
  {}

  // In every reachable state, two payment grant entries whose events tell of one transaction
  // are the same entry, whatever brought the events and under whatever ids.
  lemma OneGrantPerTransaction(s: State, i: nat, j: nat, p: Payload, q: Payload)
    requires Reachable(s) && i < |s.book.journal| && j < |s.book.journal|
    requires Normalize(p).Ok? && p.notice.TransactionCompleted? && p.notice.transaction.id.Some?
    requires Normalize(q).Ok? && q.notice.TransactionCompleted? && q.notice.transaction.id == p.notice.transaction.id
    requires GrantOf(s, i, p) && GrantOf(s, j, q)
    ensures i == j
  {
    hide Reachable;
    OneGrantPerPeriod(s, i, j, p.id.value, q.id.value);
  }

  // Entry `i` is the grant of the inbox event that this payload normalises to.
  predicate GrantOf(s: State, i: nat, p: Payload)
    requires i < |s.book.journal| && Normalize(p).Ok?
  {
    var (id, event) := Normalize(p).value;
    && s.book.journal[i].entry.kind == GRANT && s.book.journal[i].entry.key == PaymentKey(id)
    && (id in s.inbox ==> s.inbox[id].event == event)
  }
}
