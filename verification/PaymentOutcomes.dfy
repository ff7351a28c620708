/** What payment events leave behind, told from the event and the tables before it: which
credits a payment grants and until when, how much a reversal takes and what becomes debt,
and which error refuses. */
module PaymentOutcomes {
  import opened Prelude
  import opened Ledger
  import opened LedgerInvariants
  import opened LedgerMoves
  import opened CreditOps
  import opened CreditLaws
  import opened Reversal
  import opened Billing
  import opened BillingLaws
  import opened Guarantees
  import opened Dropped
  import Inbox
  import opened SpendingOutcomes
  import opened ReserveOutcomes

  // ---- The releases of a reversal ----

  // The reservation still holds credits of bucket `b`.
  predicate Holds(r: Reservation, b: nat) {
    r.status == Status.Reserved && Alloc(r.rows, b) != 0
  }

  // Credits of bucket `c` that the reservations holding credits of bucket `b` hold.
  function HeldWith(rs: seq<Reservation>, b: nat, c: nat): int {
    if |rs| == 0 then 0
    else HeldWith(rs[..|rs| - 1], b, c) + if Holds(rs[|rs| - 1], b) then Alloc(rs[|rs| - 1].rows, c) else 0
  }

  function LetGo(r: Reservation, b: nat, now: Time): Reservation {
    if Holds(r, b) then r.(status := Released, releasedAt := Some(now)) else r
  }

  // Every holder of `b` is released and gives all its credits back, of other buckets too.
  ghost predicate HoldersReleased(k: Book, next: Book, b: nat, now: Time) {
    && |next.reservations| == |k.reservations| && |next.buckets| == |k.buckets| && next.journal == k.journal
    && (forall r :: 0 <= r < |k.reservations| ==> next.reservations[r] == LetGo(k.reservations[r], b, now))
    && (forall c :: 0 <= c < |k.buckets| ==> next.buckets[c] == Freed(k.buckets[c], HeldWith(k.reservations, b, c)))
  }

  function Freed(x: Bucket, credits: int): Bucket {
    x.(available := x.available + credits, reserved := x.reserved - credits)
  }

  lemma {:induction false} ReleasedTally(rs: seq<Reservation>, next: seq<Reservation>, b: nat, c: nat, now: Time)
    requires |rs| == |next| && forall r :: 0 <= r < |rs| ==> next[r] == LetGo(rs[r], b, now)
    ensures Tally(next, c, InStatus(Status.Reserved)) == Tally(rs, c, InStatus(Status.Reserved)) - HeldWith(rs, b, c)
    ensures Tally(next, c, InStatus(Captured)) == Tally(rs, c, InStatus(Captured))
    ensures forall e :: Tally(next, c, RefundedAfter(e)) == Tally(rs, c, RefundedAfter(e))
  {
    if |rs| > 0 { ReleasedTally(rs[..|rs| - 1], next[..|next| - 1], b, c, now); }
  }

  lemma ReleasesHolders(k: Book, now: Time, b: nat)
    requires Inv(k, now) && b < |k.buckets|
    ensures HoldersReleased(k, ReleaseHolders(k, b, now), b, now) && Inv(ReleaseHolders(k, b, now), now)
  {
    var next, ids := ReleaseHolders(k, b, now), Holders(k.reservations, b, |k.reservations|);
    HoldersCorrect(k.reservations, b, |k.reservations|);
    ReleaseAllKeeps(k, now, now, ids);
    forall r | 0 <= r < |k.reservations| ensures next.reservations[r] == LetGo(k.reservations[r], b, now) {
      assert ReservationOk(k.buckets, k.reservations[r]);
      AllocSign(k.reservations[r].rows, b);
    }
    forall c | 0 <= c < |k.buckets| ensures next.buckets[c] == Freed(k.buckets[c], HeldWith(k.reservations, b, c)) {
      ReleasedTally(k.reservations, next.reservations, b, c, now);
      assert BucketAt(k, c) && BucketAt(next, c);
    }
  }

  // ---- Reversals ----

  // The amount a reversal event claims: all of the payment when it names none or zero.
  function Claimed(amount: Field<int>, original: int): int {
    if amount.Given? && amount.value != 0 then amount.value else original
  }

  // What the event of the original payment says was paid.
  function PaidAmount(s: State, origin: Option<Ref>): Field<int> {
    if origin.Some? && origin.value in s.inbox then s.inbox[origin.value].event.amount else Missing
  }

  // The credits still to be reversed once `amount` more of the payment is reversed.
  function Rise(s: State, period: Ref, amount: int): int
    requires period in s.payments && s.payments[period].bucket < |s.book.buckets| && s.payments[period].original > 0
  {
    var st := s.payments[period];
    Ceil(s.book.buckets[st.bucket].granted * (st.amount + amount), st.original) - st.credits
  }

  // What the payment's bucket still holds, available or reserved.
  function StillHeld(s: State, period: Ref): int
    requires period in s.payments && s.payments[period].bucket < |s.book.buckets|
  {
    var x := s.book.buckets[s.payments[period].bucket];
    x.available + x.reserved
  }

  function DebtOf(s: State, a: Ref): int {
    if a in s.accounts then s.accounts[a].debt else 0
  }

  // The tables other than the book after `due` credits of account `a` could not be taken.
  ghost predicate Indebted(s: State, next: State, id: Ref, reason: EventType, period: Ref, a: Ref, due: int) {
    if due == 0 then next.accounts == s.accounts && next.reviews == s.reviews
    else
      && next.accounts == s.accounts[a := Account(Review, DebtOf(s, a) + due)]
      && next.reviews == s.reviews + [DebtReview(a, id, reason, due, period)]
  }

  // The bucket gives what it can of `rise`, and one entry tells what it gave; its holders
  // were released first.
  ghost predicate TakenBack(k: Book, next: Book, b: nat, rise: int, id: Ref, now: Time)
    requires b < |k.buckets|
  {
    var x := k.buckets[b];
    var held := x.available + x.reserved;
    var taken := if rise <= held then rise else held;
    && |next.reservations| == |k.reservations| && |next.buckets| == |k.buckets|
    && (forall r :: 0 <= r < |k.reservations| ==> next.reservations[r] == LetGo(k.reservations[r], b, now))
    && next.buckets[b] == x.(available := held - taken, reserved := 0)
    && (forall c :: 0 <= c < |k.buckets| && c != b ==>
      next.buckets[c] == Freed(k.buckets[c], HeldWith(k.reservations, b, c)))
    && if taken == 0 then next.journal == k.journal else Reversed(k, next, b, taken, id)
  }

  // One reversal entry, which the ledger drops if this event took credits of the account before.
  ghost predicate Reversed(k: Book, next: Book, b: nat, taken: int, id: Ref)
    requires b < |k.buckets|
  {
    var a := k.buckets[b].account;
    next.journal == k.journal +
      [Item(Entry(a, Some(b), -taken, REVERSAL, Balance(k.buckets, a) - taken, ReversalKey(id)),
            !Used(k.journal, a, ReversalKey(id)), [Row(b, taken)])]
  }

  // Taking credits back from bucket `b`: one bucket and one entry.
  lemma TakesOne(k: Book, b: nat, taken: int, id: Ref)
    requires b < |k.buckets|
    ensures
      var next := TakeBack(k, b, taken, id);
      && next.reservations == k.reservations
      && next.buckets == k.buckets[b := k.buckets[b].(available := k.buckets[b].available - taken)]
      && if taken == 0 then next.journal == k.journal else Reversed(k, next, b, taken, id)
  {
    hide Used, Balance;
    if taken != 0 {
      ShiftOne(k.buckets, Row(b, taken), Drain);
      OneRow([Row(b, taken)]);
      BalanceUpdate(k.buckets, b, k.buckets[b].(available := k.buckets[b].available - taken), k.buckets[b].account);
    }
  }

  lemma SameBalance(k: Book, next: Book, now: Time, a: Ref)
    requires Inv(k, now) && Inv(next, now) && next.journal == k.journal
    ensures Balance(next.buckets, a) == Balance(k.buckets, a)
  {}

  // The bucket side of a reversal, from its parts.
  lemma TakesBack(k: Book, now: Time, b: nat, rise: int, id: Ref)
    requires Inv(k, now) && b < |k.buckets| && rise >= 0
    ensures
      var mid := ReleaseHolders(k, b, now);
      b < |mid.buckets| && mid.buckets[b].available == k.buckets[b].available + k.buckets[b].reserved &&
      TakenBack(k, TakeBack(mid, b, Min(mid.buckets[b].available, rise), id), b, rise, id, now)
  {
    hide Inv, ReleaseHolders, HeldWith, Balance, Used, TakeBack;
    var mid := ReleaseHolders(k, b, now);
    ReleasesHolders(k, now, b);
    ReleasedAvailable(k, now, b);
    ReleaseHoldersCorrect(k, now, now, b);
    SameBalance(k, mid, now, k.buckets[b].account);
    TakesOne(mid, b, Min(mid.buckets[b].available, rise), id);
  }

  // A period has a reversal state exactly when its bucket exists.
  lemma PeriodBucket(s: State, period: Ref)
    requires SInv(s)
    ensures
      var found := FindSource(s.book.buckets, PaymentSource(period));
      && (period in s.payments <==> found.Some?)
      && (found.Some? ==>
        && found == Some(s.payments[period].bucket) && found.value < |s.book.buckets|
        && s.book.buckets[found.value].granted > 0
        && 0 <= s.payments[period].amount <= s.payments[period].original && s.payments[period].original > 0
        && s.payments[period].credits ==
           Ceil(s.book.buckets[found.value].granted * s.payments[period].amount, s.payments[period].original))
  {
    FindSourceCorrect(s.book.buckets, PaymentSource(period));
    if period in s.payments { assert PaymentAt(s.book, s.reviews, period, s.payments[period]); }
    hide Inv, FindSource, Ceil;
    if FindSource(s.book.buckets, PaymentSource(period)).Some? {
      FoundPayment(s, period, FindSource(s.book.buckets, PaymentSource(period)).value);
    }
  }

  // The step a plan takes, from the event and the tables.
  lemma PlanOutcome(s: State, event: Event, origin: Option<Ref>, period: Ref)
    requires SInv(s) && period in s.payments
    requires (if event.period.Some? then event.period else event.original) == Some(period)
    requires !event.amount.Malformed? && !PaidAmount(s, origin).Malformed?
    requires Claimed(PaidAmount(s, origin), 0) == s.payments[period].original
    ensures s.payments[period].bucket < |s.book.buckets| && s.payments[period].original > 0
    ensures
      var st, plan := s.payments[period], PlanReversal(s, event, origin);
      var v := Claimed(event.amount, st.original);
      if v <= 0 || st.amount + v > st.original then plan == Err(PaymentReversalAmountInvalid)
      else
        var rise := Rise(s, period, v);
        && rise >= 0
        && plan == Ok(ReversalPlan(period, st.bucket,
                                   ReversalState(st.bucket, st.original, st.amount + v, st.credits + rise), rise))
  {
    hide SInv, FindSource, CumulativeReversal, Ceil;
    PeriodBucket(s, period);
    var st := s.payments[period];
    var v := Claimed(event.amount, st.original);
    StepExact(st.original, s.book.buckets[st.bucket].granted, st.amount, v);
    CumulativeErr(st.original, s.book.buckets[st.bucket].granted, st.amount, st.credits, v);
  }

  lemma CumulativeErr(original: int, granted: int, amount: int, credits: int, event: int)
    requires original > 0
    ensures event <= 0 || amount + event > original ==>
      CumulativeReversal(original, granted, amount, credits, event) == Err(PaymentReversalAmountInvalid)
  {
    hide Ceil;
  }

  // A reversal counts the amount its event names, or the whole payment when it names none
  // or zero, on top of what was reversed before: its credits rise to the rounded share of
  // the new amount, the bucket gives up what it still holds of that, and the rest is debt.
  lemma ReversalOutcome(s: State, id: Ref, event: Event, origin: Option<Ref>)
    requires Reachable(s)
    ensures
      var out := PaymentReversed(s, id, event, origin);
      var reversed := if event.period.Some? then event.period else event.original;
      if reversed.None? then out == Err(PaymentPeriodRequired)
      else if reversed.value !in s.payments then out == Err(PaymentGrantNotFound)
      else
        var period, paid := reversed.value, PaidAmount(s, origin);
        var st := s.payments[period];
        if event.amount.Malformed? || paid.Malformed? then out == Err(PaymentAmountRequired)
        else if Claimed(paid, 0) != st.original then out == Err(PaymentReversalStateConflict)
        else
          && st.bucket < |s.book.buckets| && st.original > 0
          && var v := Claimed(event.amount, st.original);
            if v <= 0 || st.amount + v > st.original then out == Err(PaymentReversalAmountInvalid)
            else ReversalTakes(s, id, event.kind, period, v, out)
  {
    hide Reachable, SInv, FindSource, CumulativeReversal, Ceil, ReverseCredits, ReversalTakes;
    ReachableInv(s);
    var reversed := if event.period.Some? then event.period else event.original;
    if reversed.Some? {
      PeriodBucket(s, reversed.value);
      var paid := PaidAmount(s, origin);
      if reversed.value in s.payments && !event.amount.Malformed? && !paid.Malformed?
        && Claimed(paid, 0) == s.payments[reversed.value].original {
        PlanOutcome(s, event, origin, reversed.value);
        var st := s.payments[reversed.value];
        var v := Claimed(event.amount, st.original);
        if !(v <= 0 || st.amount + v > st.original) { ReverseTakes(s, id, event.kind, reversed.value, v); }
      }
    }
  }

  // What becomes of the tables when `v` of the period's payment is reversed; a second
  // review for one event refuses.
  ghost predicate ReversalTakes(s: State, id: Ref, reason: EventType, period: Ref, v: int, out: Result<State>)
    requires period in s.payments && s.payments[period].bucket < |s.book.buckets| && s.payments[period].original > 0
  {
    var st, rise := s.payments[period], Rise(s, period, v);
    var due := if rise <= StillHeld(s, period) then 0 else rise - StillHeld(s, period);
    if due > 0 && exists r :: 0 <= r < |s.reviews| && s.reviews[r].event == id then
      out == Err(ReviewAlreadyRecorded)
    else
      && out.Ok? && rise >= 0
      && var next := out.value;
        && next == s.(book := next.book, payments := next.payments, accounts := next.accounts, reviews := next.reviews)
        && next.payments ==
          s.payments[period := ReversalState(st.bucket, st.original, st.amount + v, st.credits + rise)]
        && Indebted(s, next, id, reason, period, s.book.buckets[st.bucket].account, due)
        && TakenBack(s.book, next.book, st.bucket, rise, id, s.clock)
  }

  lemma ReverseTakes(s: State, id: Ref, reason: EventType, period: Ref, v: int)
    requires SInv(s) && period in s.payments
    requires s.payments[period].bucket < |s.book.buckets| && s.payments[period].original > 0
    requires Rise(s, period, v) >= 0
    ensures
      var st, rise := s.payments[period], Rise(s, period, v);
      ReversalTakes(s, id, reason, period, v,
        ReverseCredits(s, id, reason, period, st.bucket,
          ReversalState(st.bucket, st.original, st.amount + v, st.credits + rise), rise))
  {
    hide SInv, Inv, ReleaseHolders, TakeBack, TakenBack, Rise, BucketAt;
    BookInv(s);
    var b, rise := s.payments[period].bucket, Rise(s, period, v);
    BucketHolds(s.book, s.clock, b);
    ReleasesHolders(s.book, s.clock, b);
    ReleasedAvailable(s.book, s.clock, b);
    TakesBack(s.book, s.clock, b, rise, id);
  }

  // ---- Payments ----

  // Who paid for what: the checkout's user and offer, or the renewed subscription's.
  function Payer(s: State, event: Event): Result<(Ref, Ref)> {
    if event.kind == CheckoutCompleted then
      if event.checkout.Some? && event.checkout.value in s.checkouts then
        Ok((s.checkouts[event.checkout.value].user, s.checkouts[event.checkout.value].offer))
      else Err(CheckoutSessionNotFound)
    else if event.subscription.None? then Err(SubscriptionIdRequired)
    else if event.subscription.value in s.subscriptions then
      Ok((s.subscriptions[event.subscription.value].user, s.subscriptions[event.subscription.value].offer))
    else Err(SubscriptionNotFound)
  }

  // Why a payment for `offer` is refused, if it is; the offer's price must be paid exactly.
  function Refusal(s: State, event: Event, user: Ref, offerId: Ref): Option<Error> {
    if offerId !in s.offers then Some(BillingOfferNotFound)
    else
      var offer := s.offers[offerId];
      if !event.amount.Given? then Some(PaymentAmountRequired)
      else if event.amount.value != offer.amount || event.currency != offer.currency then Some(PaymentAmountMismatch)
      else if event.offer.Some? && event.offer.value != offerId then Some(PaymentOfferMismatch)
      else if user !in s.accounts && user !in s.users then Some(UserNotFound)
      else if offer.kind == TopupOffer then None
      else if event.kind == SubscriptionRenewed && event.period.None? then Some(BillingPeriodRequired)
      else if event.start.Malformed? || event.end.Malformed? then Some(InvalidPaymentTimestamp)
      else None
  }

  // A paid period starts when its event says, or now, and ends when it says, or thirty days later.
  function PeriodStart(event: Event, now: Time): Time {
    if event.start.Given? then event.start.value else now
  }

  function PeriodEnd(event: Event, now: Time): Time {
    if event.end.Given? then event.end.value else PeriodStart(event, now) + 30 * 24 * 60 * 60
  }

  function PaidBucket(event: Event, now: Time, user: Ref, offer: Offer, period: Ref): Bucket {
    if offer.kind == SubscriptionOffer then
      Bucket(user, SubscriptionBucket, PaymentSource(period), offer.credits, offer.credits, 0,
             Some(PeriodEnd(event, now)))
    else Bucket(user, TopupBucket, PaymentSource(period), offer.credits, offer.credits, 0, None)
  }

  // The grant entry of the next bucket, inserted unless this event granted credits of the account before.
  function GrantItem(k: Book, user: Ref, credits: int, id: Ref): Item {
    Item(Entry(user, Some(|k.buckets|), credits, GRANT, Balance(k.buckets, user) + credits, PaymentKey(id)),
         !Used(k.journal, user, PaymentKey(id)), [])
  }

  // A period not granted before gets its bucket, its grant entry and its reversal state.
  ghost predicate Granted(s: State, next: State, id: Ref, event: Event, user: Ref, offer: Offer, period: Ref) {
    var b, n := PaidBucket(event, s.clock, user, offer, period), |s.book.buckets|;
    && next.book.reservations == s.book.reservations && next.book.buckets == s.book.buckets + [b]
    && next.book.journal == s.book.journal + [GrantItem(s.book, user, offer.credits, id)]
    && next.payments == s.payments[period := ReversalState(n, offer.amount, 0, 0)]
  }

  // The subscription a payment opens or renews.
  function PaidSubscription(s: State, event: Event): Ref {
    if event.subscription.Some? then event.subscription.value
    else if event.checkout.Some? && event.checkout.value in s.checkouts then s.checkouts[event.checkout.value].id
    else 0
  }

  function Renewed(s: State, event: Event, user: Ref, offerId: Ref, period: Ref): Subscription {
    var id := PaidSubscription(s, event);
    var start, end := PeriodStart(event, s.clock), PeriodEnd(event, s.clock);
    if id in s.subscriptions then
      Subscription(s.subscriptions[id].user, s.subscriptions[id].offer, SubscriptionActive, period, start, end)
    else Subscription(user, offerId, SubscriptionActive, period, start, end)
  }

  // What a payment leaves in the tables besides book and reversal state.
  ghost predicate Noted(s: State, next: State, event: Event, user: Ref, offerId: Ref, period: Ref)
    requires offerId in s.offers
    requires event.kind == CheckoutCompleted ==> event.checkout.Some? && event.checkout.value in s.checkouts
  {
    && next == s.(book := next.book, payments := next.payments, accounts := next.accounts,
                  subscriptions := next.subscriptions, checkouts := next.checkouts)
    && next.accounts == WithAccount(s.accounts, user)
    && next.subscriptions ==
      (if s.offers[offerId].kind == SubscriptionOffer
       then s.subscriptions[PaidSubscription(s, event) := Renewed(s, event, user, offerId, period)]
       else s.subscriptions)
    && next.checkouts ==
      (if event.kind == CheckoutCompleted
       then s.checkouts[event.checkout.value := s.checkouts[event.checkout.value].(completed := true)]
       else s.checkouts)
  }

  // The period's bucket is of this payer and offer type, and its payment was of this price.
  predicate SamePayment(s: State, period: Ref, user: Ref, offer: Offer)
    requires period in s.payments && s.payments[period].bucket < |s.book.buckets|
  {
    var x := s.book.buckets[s.payments[period].bucket];
    && x.account == user && s.payments[period].original == offer.amount
    && x.kind == if offer.kind == SubscriptionOffer then SubscriptionBucket else TopupBucket
  }

  // Granting a period's credits: once, and afterwards only the same payment is accepted.
  lemma GrantOutcome(s: State, id: Ref, user: Ref, offer: Offer, period: Ref, expires: Option<Time>)
    requires SInv(s) && offer.credits > 0 && period !in s.payments
    ensures
      var kind := if offer.kind == SubscriptionOffer then SubscriptionBucket else TopupBucket;
      var out, n := GrantPayment(s, id, period, user, offer, expires), |s.book.buckets|;
      && out.Ok? && out.value == s.(book := out.value.book, payments := out.value.payments)
      && out.value.payments == s.payments[period := ReversalState(n, offer.amount, 0, 0)]
      && out.value.book.reservations == s.book.reservations
      && out.value.book.buckets ==
        s.book.buckets + [Bucket(user, kind, PaymentSource(period), offer.credits, offer.credits, 0, expires)]
      && out.value.book.journal == s.book.journal + [GrantItem(s.book, user, offer.credits, id)]
  {
    var kind := if offer.kind == SubscriptionOffer then SubscriptionBucket else TopupBucket;
    assert forall b :: 0 <= b < |s.book.buckets| ==> s.book.buckets[b].source != PaymentSource(period);
    hide SInv, FindBucket, Used, Balance;
    FindBucketCorrect(s.book.buckets, user, kind, PaymentSource(period));
    var b := Bucket(user, kind, PaymentSource(period), offer.credits, offer.credits, 0, expires);
    BalanceAppend(s.book.buckets, b, user);
  }

  lemma GrantAgain(s: State, id: Ref, user: Ref, offer: Offer, period: Ref, expires: Option<Time>)
    requires SInv(s) && offer.credits > 0 && period in s.payments
    ensures s.payments[period].bucket < |s.book.buckets|
    ensures GrantPayment(s, id, period, user, offer, expires) ==
      if SamePayment(s, period, user, offer) then Ok(s) else Err(PaymentReversalStateConflict)
  {
    var kind := if offer.kind == SubscriptionOffer then SubscriptionBucket else TopupBucket;
    assert PaymentAt(s.book, s.reviews, period, s.payments[period]);
    FindBucketCorrect(s.book.buckets, user, kind, PaymentSource(period));
    var b := s.payments[period].bucket;
    assert forall c :: 0 <= c < |s.book.buckets| && s.book.buckets[c].source == PaymentSource(period) ==> c == b;
    hide SInv, FindBucket, Used, Balance, AddGrant;
  }

  // The offer's exact price pays for a period. Paid for the first time, it grants the offer's
  // credits to the payer: for a subscription until the period ends, for a top-up for good.
  // The same payment again grants nothing, and another payment for the period is refused.
  lemma SuccessOutcome(s: State, id: Ref, event: Event)
    requires Reachable(s)
    ensures
      var out, payer := PaymentSucceeded(s, id, event), Payer(s, event);
      if payer.Err? then out == Err(payer.error)
      else
        var (user, offerId) := payer.value;
        var refusal := Refusal(s, event, user, offerId);
        if refusal.Some? then out == Err(refusal.value)
        else PaymentGrants(s, id, event, user, offerId, out)
  {
    hide Reachable, SInv, PaymentGrants, GrantPayment, Subscribe;
    ReachableInv(s);
    if Payer(s, event).Ok? {
      var (user, offerId) := Payer(s, event).value;
      if Refusal(s, event, user, offerId).None? {
        PaymentStep(s, id, event, user, offerId);
      } else {
        PaymentRefused(s, id, event, user, offerId);
      }
    }
  }

  ghost predicate PaymentGrants(s: State, id: Ref, event: Event, user: Ref, offerId: Ref, out: Result<State>)
    requires offerId in s.offers
    requires event.kind == CheckoutCompleted ==> event.checkout.Some? && event.checkout.value in s.checkouts
  {
    var offer, period := s.offers[offerId], if event.period.Some? then event.period.value else id;
    if period in s.payments
      && !(s.payments[period].bucket < |s.book.buckets| && SamePayment(s, period, user, offer)) then
      out == Err(PaymentReversalStateConflict)
    else
      && out.Ok? && Noted(s, out.value, event, user, offerId, period)
      && if period in s.payments then out.value.book == s.book && out.value.payments == s.payments
         else Granted(s, out.value, id, event, user, offer, period)
  }

  lemma PaymentRefused(s: State, id: Ref, event: Event, user: Ref, offerId: Ref)
    requires Payer(s, event) == Ok((user, offerId)) && Refusal(s, event, user, offerId).Some?
    ensures PaymentSucceeded(s, id, event) == Err(Refusal(s, event, user, offerId).value)
  {
    hide GrantPayment;
  }

  // The tables once account and subscription are there, before the grant.
  function Opened(s: State, event: Event, user: Ref, offerId: Ref, period: Ref): State
    requires offerId in s.offers
  {
    var s1 := s.(accounts := WithAccount(s.accounts, user));
    if s.offers[offerId].kind == SubscriptionOffer then
      s1.(subscriptions := s.subscriptions[PaidSubscription(s, event) := Renewed(s, event, user, offerId, period)])
    else s1
  }

  // The checkouts after the event's is marked completed.
  function Completed(s: State, event: Event): map<Ref, Checkout> {
    if event.kind == CheckoutCompleted && event.checkout.Some? && event.checkout.value in s.checkouts then
      s.checkouts[event.checkout.value := s.checkouts[event.checkout.value].(completed := true)]
    else s.checkouts
  }

  lemma Subscribes(s: State, event: Event, user: Ref, offerId: Ref, period: Ref)
    requires !event.start.Malformed? && !event.end.Malformed?
    ensures Subscribe(s, event, user, offerId, period) ==
      Ok((s.(subscriptions := s.subscriptions[PaidSubscription(s, event) := Renewed(s, event, user, offerId, period)]),
          PeriodEnd(event, s.clock)))
  {}

  // Account and subscription rows come first, then the grant, then the checkout.
  lemma PaymentParts(s: State, id: Ref, event: Event, user: Ref, offerId: Ref)
    requires Payer(s, event) == Ok((user, offerId)) && Refusal(s, event, user, offerId).None?
    ensures
      var period := if event.period.Some? then event.period.value else id;
      var offer := s.offers[offerId];
      var paid := GrantPayment(Opened(s, event, user, offerId, period), id, period, user, offer,
        PaidBucket(event, s.clock, user, offer, period).expires);
      PaymentSucceeded(s, id, event) ==
        if paid.Err? then paid else Ok(paid.value.(checkouts := Completed(paid.value, event)))
  {
    hide GrantPayment, Subscribe, Renewed, PaidSubscription;
    var s1 := s.(accounts := WithAccount(s.accounts, user));
    if s.offers[offerId].kind == SubscriptionOffer {
      Subscribes(s1, event, user, offerId, PeriodOf(event, id));
      SameSubscription(s, s1, event, user, offerId, PeriodOf(event, id));
    }
  }

  lemma SameSubscription(s: State, s1: State, event: Event, user: Ref, offerId: Ref, period: Ref)
    requires s1 == s.(accounts := s1.accounts)
    ensures PaidSubscription(s1, event) == PaidSubscription(s, event)
    ensures Renewed(s1, event, user, offerId, period) == Renewed(s, event, user, offerId, period)
  {}

  lemma OpenedOk(s: State, event: Event, user: Ref, offerId: Ref, period: Ref)
    requires SInv(s) && offerId in s.offers && (user in s.accounts || user in s.users)
    ensures SInv(Opened(s, event, user, offerId, period)) && s.offers[offerId].credits > 0
  {
    PositiveOffer(s, offerId);
    EnsureAccountKeeps(s, user);
    hide SInv, Renewed, PaidSubscription;
    SideTables(s.(accounts := WithAccount(s.accounts, user)), Opened(s, event, user, offerId, period));
  }

  lemma PaymentStep(s: State, id: Ref, event: Event, user: Ref, offerId: Ref)
    requires SInv(s) && Payer(s, event) == Ok((user, offerId)) && Refusal(s, event, user, offerId).None?
    ensures PaymentGrants(s, id, event, user, offerId, PaymentSucceeded(s, id, event))
  {
    hide SInv, GrantPayment, GrantItem, PaymentSucceeded, Renewed, PaidSubscription, SamePayment;
    var offer, period := s.offers[offerId], if event.period.Some? then event.period.value else id;
    OpenedOk(s, event, user, offerId, period);
    PaymentParts(s, id, event, user, offerId);
    var mid := Opened(s, event, user, offerId, period);
    var expires := PaidBucket(event, s.clock, user, offer, period).expires;
    if period in s.payments {
      GrantAgain(mid, id, user, offer, period, expires);
      assert SamePayment(mid, period, user, offer) == SamePayment(s, period, user, offer) by {
        SamePaymentOpened(s, mid, period, user, offer);
      }
    } else {
      GrantOutcome(mid, id, user, offer, period, expires);
    }
  }

  lemma SamePaymentOpened(s: State, mid: State, period: Ref, user: Ref, offer: Offer)
    requires period in s.payments && s.payments[period].bucket < |s.book.buckets|
    requires mid.book == s.book && mid.payments == s.payments
    ensures SamePayment(mid, period, user, offer) == SamePayment(s, period, user, offer)
  {}

  // A first success event for a period grants the paid offer's credits to the payer. A
  // subscription's credits expire when the paid period ends, which its event says or else is
  // thirty days after its start; a top-up's never do.
  lemma FirstSuccess(s: State, id: Ref, event: Event)
    requires Reachable(s) && PeriodOf(event, id) !in s.payments && PaymentSucceeded(s, id, event).Ok?
    ensures Payer(s, event).Ok? && Payer(s, event).value.1 in s.offers
    ensures
      var next, (user, offerId) := PaymentSucceeded(s, id, event).value, Payer(s, event).value;
      var offer, period, n := s.offers[offerId], PeriodOf(event, id), |s.book.buckets|;
      var start := if event.start.Given? then event.start.value else s.clock;
      var end := if event.end.Given? then event.end.value else start + 30 * 24 * 60 * 60;
      && |next.book.buckets| == n + 1 && next.book.buckets[..n] == s.book.buckets
      && period in next.payments && next.payments[period] == ReversalState(n, offer.amount, 0, 0)
      && var b := next.book.buckets[n];
         && b.account == user && b.source == PaymentSource(period)
         && b.granted == b.available == offer.credits && b.reserved == 0
         && (offer.kind == SubscriptionOffer ==>
           && b.kind == SubscriptionBucket && b.expires == Some(end)
           && PaidSubscription(s, event) in next.subscriptions
           && var sub := next.subscriptions[PaidSubscription(s, event)];
             sub.status == SubscriptionActive && sub.period == period && sub.start == start && sub.end == end)
         && (offer.kind == TopupOffer ==>
           b.kind == TopupBucket && b.expires == None && next.subscriptions == s.subscriptions)
  {
    SuccessOutcome(s, id, event);
    hide Reachable, PaymentSucceeded, Payer, Refusal, GrantItem, PaidSubscription;
  }

  // ---- The inbox ----

  // The stored event `o` is a success event of the period that `event` reverses.
  predicate Original(s: State, event: Event, o: Ref) {
    && o in s.inbox && s.inbox[o].event.kind in {CheckoutCompleted, SubscriptionRenewed}
    && s.inbox[o].event.period.Some?
    && s.inbox[o].event.period == if event.period.Some? then event.period else event.original
  }

  // The worker's event may only differ from the stored one of its id where a success event
  // keeps its period.
  predicate SameSuccess(s: State, id: Ref, event: Event) {
    event.kind in {CheckoutCompleted, SubscriptionRenewed} && id in s.inbox ==>
      (if event.period.Some? then event.period.value else id) ==
      (if s.inbox[id].event.period.Some? then s.inbox[id].event.period.value else id)
  }

  // Finishing an event leaves the effect its kind has and a processed row, or, when the
  // effect is refused, nothing but a failed row.
  lemma FinishOutcome(s: State, id: Ref, event: Event, origin: Option<Ref>)
    requires SameSuccess(s, id, event)
    requires if origin.Some? then Original(s, event, origin.value)
      else forall o :: o in s.inbox ==> !Original(s, event, o)
    ensures id !in s.inbox ==> Execute(s, FinishOp(id, event, origin)) == Err(PaymentEventNotReceived)
    ensures id in s.inbox ==>
      var out := Execute(s, FinishOp(id, event, origin));
      var effect :=
        match event.kind
        case CheckoutCompleted => PaymentSucceeded(s, id, event)
        case SubscriptionRenewed => PaymentSucceeded(s, id, event)
        case PaymentRefunded => PaymentReversed(s, id, event, origin)
        case PaymentChargeback => PaymentReversed(s, id, event, origin)
        case SubscriptionEnded => Ok(s.(subscriptions := Cancelled(s.subscriptions, event.subscription)))
        case Ignored => Ok(s);
      && out.Ok?
      && out.value == (if effect.Ok? then effect.value else s).(
        inbox := s.inbox[id := s.inbox[id].(status := if effect.Ok? then Processed else Failed)])
  {
    hide PaymentSucceeded, PaymentReversed, Execute, OriginOk, KeepsPeriod;
    FinishAllowed(s, id, event, origin);
    Dispatch(s, FinishOp(id, event, origin));
    if ApplyEvent(s, id, event, origin).Ok? { Inbox.AppliedKeepsInbox(s, id, event, origin); }
  }

  lemma FinishAllowed(s: State, id: Ref, event: Event, origin: Option<Ref>)
    requires SameSuccess(s, id, event)
    requires if origin.Some? then Original(s, event, origin.value)
      else forall o :: o in s.inbox ==> !Original(s, event, o)
    ensures KeepsPeriod(s, id, event) && OriginOk(s, event, origin)
    ensures id !in s.inbox ==> Execute(s, FinishOp(id, event, origin)) == Err(PaymentEventNotReceived)
  {
    hide ApplyEvent;
    forall o | o in s.inbox ensures Matches(s.inbox[o].event, event) <==> Original(s, event, o) {}
  }

  function Cancelled(subscriptions: map<Ref, Subscription>, id: Option<Ref>): map<Ref, Subscription> {
    if id.Some? && id.value in subscriptions then
      subscriptions[id.value := subscriptions[id.value].(status := SubscriptionCancelled)]
    else subscriptions
  }

  // Only the row of event `id` differs, and it has the body and hash that came first.
  ghost predicate RowBecomes(s: State, next: State, id: Ref, event: Event, hash: Ref, status: InboxStatus,
                             startedAt: Time)
  {
    && next == s.(inbox := next.inbox)
    && next.inbox == s.inbox[id :=
      if id in s.inbox then InboxRow(s.inbox[id].event, s.inbox[id].hash, status, startedAt)
      else InboxRow(event, hash, status, startedAt)]
  }

  // The other commits: a delivery is refused exactly when another body came under its id
  // before; a processed event is never started over by a delivery or a takeover, and no
  // commit replaces a stored body.
  lemma CommitOutcome(s: State, id: Ref, event: Event, hash: Ref)
    ensures
      var out, known := Execute(s, DeliverOp(id, event, hash)), id in s.inbox;
      && (out.Err? <==> known && s.inbox[id].hash != hash) && (out.Err? ==> out.error == PaymentEventConflict)
      && (out.Ok? ==>
        if known && s.inbox[id].status in {Processed, Processing} then out.value == s
        else
          var startedAt := if known then s.inbox[id].startedAt else 0;
          RowBecomes(s, out.value, id, event, hash, InboxStatus.Received, startedAt))
    ensures
      var out := Execute(s, BeginOp(id));
      if id !in s.inbox then out == Err(PaymentEventNotReceived)
      else out.Ok? && RowBecomes(s, out.value, id, event, hash, Processing, s.clock)
    ensures
      var out := Execute(s, ReconcileOp(id, event, hash));
      && out.Ok?
      && if id in s.inbox && s.inbox[id].status == Processed then out.value == s
         else RowBecomes(s, out.value, id, event, hash, Processing, s.clock)
  {
    hide Execute;
    Dispatch(s, DeliverOp(id, event, hash));
    Dispatch(s, BeginOp(id));
    Dispatch(s, ReconcileOp(id, event, hash));
  }

  // A stored checkout is never replaced by another of its session.
  lemma CheckoutOutcome(s: State, session: Ref, checkout: Checkout)
    ensures Execute(s, CheckoutOp(session, checkout)) ==
      Ok(s.(checkouts := if session in s.checkouts then s.checkouts else s.checkouts[session := checkout]))
  {}
}
