/** The invariants of the billing state machine, kept by every step. */
module BillingLaws {
  import opened Prelude
  import opened Ledger
  import opened LedgerInvariants
  import opened LedgerMoves
  import opened CreditOps
  import opened CreditLaws
  import opened Reversal
  import opened Billing

  // ---- Invariants ----

  // A grant entry names the bucket of its key's source.
  ghost predicate GrantTargetAt(bs: seq<Bucket>, inbox: map<Ref, InboxRow>, i: Item) {
    Target(i) < |bs| &&
    match i.entry.key
    case TrialKey(p, u) => bs[Target(i)].kind == TrialBucket && bs[Target(i)].source == TrialSource(p, u)
    case PaymentKey(e) => e in inbox && bs[Target(i)].source == PaymentSource(PeriodOf(inbox[e].event, e))
    case _ => false
  }

  ghost predicate GrantTargets(k: Book, inbox: map<Ref, InboxRow>) {
    forall i :: 0 <= i < |k.journal| && k.journal[i].entry.kind == GRANT ==>
      GrantTargetAt(k.buckets, inbox, k.journal[i])
  }

  function PeriodDebt(reviews: seq<DebtReview>, p: Ref): int {
    if |reviews| == 0 then 0
    else PeriodDebt(reviews[..|reviews| - 1], p) + if reviews[|reviews| - 1].period == p
      then reviews[|reviews| - 1].debt else 0
  }

  function AccountDebt(reviews: seq<DebtReview>, a: Ref): int {
    if |reviews| == 0 then 0
    else AccountDebt(reviews[..|reviews| - 1], a) + if reviews[|reviews| - 1].account == a
      then reviews[|reviews| - 1].debt else 0
  }

  // The credits a payment's reversals took are the rounded share of the reversed
  // amount, and were either taken from its bucket or booked as debt.
  ghost predicate PaymentAt(k: Book, reviews: seq<DebtReview>, p: Ref, st: ReversalState) {
    && st.bucket < |k.buckets| && k.buckets[st.bucket].source == PaymentSource(p)
    && 0 <= st.amount <= st.original && st.original > 0
    && st.credits == Ceil(k.buckets[st.bucket].granted * st.amount, st.original)
    && st.credits == Drained(k.journal, st.bucket, REVERSAL) + PeriodDebt(reviews, p)
  }

  // Each payment period has one bucket, and each payment bucket its period's state.
  ghost predicate PaymentsOk(k: Book, payments: map<Ref, ReversalState>, reviews: seq<DebtReview>) {
    && (forall p :: p in payments ==> PaymentAt(k, reviews, p, payments[p]))
    && (forall b :: 0 <= b < |k.buckets| && k.buckets[b].source.PaymentSource? ==>
      k.buckets[b].source.period in payments && payments[k.buckets[b].source.period].bucket == b)
  }

  ghost predicate ReviewsOk(reviews: seq<DebtReview>, accounts: map<Ref, Account>, payments: map<Ref, ReversalState>) {
    forall r :: 0 <= r < |reviews| ==>
      reviews[r].debt > 0 && reviews[r].account in accounts && reviews[r].period in payments
  }

  ghost predicate AccountsOk(accounts: map<Ref, Account>, reviews: seq<DebtReview>) {
    forall a :: a in accounts ==>
      accounts[a].debt == AccountDebt(reviews, a) && (accounts[a].debt > 0 ==> accounts[a].status != Active)
  }

  // The journal items under adjustment `n`'s key.
  function AdjustmentStep(i: Item, n: nat): seq<(Ref, int)> {
    if i.posted && i.entry.key == AdjustmentKey(n) then [(i.entry.account, i.entry.amount)] else []
  }

  function AdjustmentItems(j: seq<Item>, n: nat): seq<(Ref, int)> {
    if |j| == 0 then [] else AdjustmentItems(j[..|j| - 1], n) + AdjustmentStep(j[|j| - 1], n)
  }

  function ExpectedItems(rows: seq<Adjustment>, n: nat): seq<(Ref, int)> {
    if n < |rows| && rows[n].status == Executed then [(rows[n].target, rows[n].amount)] else []
  }

  // Executed adjustments, and only they, have their one ledger entry; a dual-control
  // adjustment is decided by someone other than its requester.
  ghost predicate AdjustmentsOk(j: seq<Item>, rows: seq<Adjustment>) {
    && (forall n: nat :: AdjustmentItems(j, n) == ExpectedItems(rows, n))
    && (forall n :: 0 <= n < |rows| && rows[n].status != Pending && rows[n].dual ==>
      rows[n].decider.Some? && rows[n].decider.value != rows[n].requester)
    && (forall n :: 0 <= n < |rows| ==> rows[n].amount != 0 && (rows[n].status == Pending ==> rows[n].dual))
  }

  ghost predicate OffersOk(offers: map<Ref, Offer>) {
    forall o :: o in offers ==> offers[o].amount > 0 && offers[o].credits > 0
  }

  // The part of the state invariant that reads the book beside another table.
  ghost predicate BookLinks(s: State) {
    && GrantTargets(s.book, s.inbox) && PaymentsOk(s.book, s.payments, s.reviews)
    && AdjustmentsOk(s.book.journal, s.adjustments)
  }

  ghost predicate SInv(s: State) {
    && Inv(s.book, s.clock) && BookLinks(s)
    && ReviewsOk(s.reviews, s.accounts, s.payments) && AccountsOk(s.accounts, s.reviews) && OffersOk(s.offers)
  }

  // ---- Steps of the book that concern no other table ----

  ghost predicate Quiet(k: Book, next: Book) {
    && Extends(k.buckets, next.buckets)
    && (forall b :: |k.buckets| <= b < |next.buckets| ==> next.buckets[b].source.RefundSource?)
    && |k.journal| <= |next.journal| && next.journal[..|k.journal|] == k.journal
    && (forall i :: |k.journal| <= i < |next.journal| ==> next.journal[i].entry.kind in {EXPIRE, CHARGE, REFUND})
  }

  lemma {:induction false} QuietSums(j: seq<Item>, next: seq<Item>)
    requires |j| <= |next| && next[..|j|] == j
    requires forall i :: |j| <= i < |next| ==> next[i].entry.kind in {EXPIRE, CHARGE, REFUND} && Shaped(next[i])
    ensures forall b: nat :: Drained(next, b, REVERSAL) == Drained(j, b, REVERSAL)
    ensures forall n: nat :: AdjustmentItems(next, n) == AdjustmentItems(j, n)
  {
    if |next| == |j| {
      assert next == j;
    } else {
      var init := next[..|next| - 1];
      assert init[..|j|] == j;
      QuietSums(j, init);
    }
  }

  lemma QuietLinks(s: State, next: Book)
    requires BookLinks(s) && Quiet(s.book, next) && TablesOk(next)
    ensures BookLinks(s.(book := next))
  {
    var k := s.book;
    QuietSums(k.journal, next.journal);
    forall i | 0 <= i < |next.journal| && next.journal[i].entry.kind == GRANT
      ensures GrantTargetAt(next.buckets, s.inbox, next.journal[i])
    {
      assert next.journal[i] == k.journal[i];
      assert GrantTargetAt(k.buckets, s.inbox, k.journal[i]);
    }
    forall p | p in s.payments ensures PaymentAt(next, s.reviews, p, s.payments[p]) {
      assert PaymentAt(k, s.reviews, p, s.payments[p]);
    }
  }

  lemma QuietKeeps(s: State, next: Book)
    requires SInv(s) && Quiet(s.book, next) && Inv(next, s.clock)
    ensures SInv(s.(book := next))
  {
    QuietLinks(s, next);
  }

  lemma {:induction false} ExpireQuiet(k: Book, now: Time, ids: seq<nat>)
    requires Inv(k, now)
    requires forall i :: 0 <= i < |ids| ==>
      ids[i] < |k.buckets| && Expired(k.buckets[ids[i]].expires, now) && k.buckets[ids[i]].available > 0
    requires forall i, j :: 0 <= i < j < |ids| ==> ids[i] < ids[j]
    ensures Quiet(k, ExpireAll(k, ids))
  {
    if |ids| > 0 {
      var init := ids[..|ids| - 1];
      var k1 := ExpireAll(k, init);
      ExpireQuiet(k, now, init);
      ShiftExtends(k1.buckets, [Row(ids[|ids| - 1], k1.buckets[ids[|ids| - 1]].available)], Drain);
    }
  }

  lemma ExpireBucketsQuiet(k: Book, a: Ref, now: Time)
    requires Inv(k, now)
    ensures Quiet(k, ExpireBuckets(k, a, now))
  {
    ExpiredIdsInRange(k.buckets, a, now, |k.buckets|);
    ExpireQuiet(k, now, ExpiredIds(k.buckets, a, now, |k.buckets|));
  }

  lemma ReserveQuiet(k: Book, now: Time, a: Ref, cost: int, reference: Reference, expires: Time)
    requires Inv(k, now) && cost > 0 && ReserveBook(k, a, cost, reference, expires, now).Ok?
    ensures Quiet(k, ReserveBook(k, a, cost, reference, expires, now).value)
  {
    hide Inv, Greedy, Offered, ReserveOrder, Shift, ExpireBuckets;
    var k1 := ExpireBuckets(k, a, now);
    var next := ReserveBook(k, a, cost, reference, expires, now).value;
    ExpireBucketsQuiet(k, a, now);
    ExpireBucketsKeeps(k, now, now, a);
    ReserveKeeps(k, now, now, a, cost, reference, expires);
    var r := next.reservations[|k.reservations|];
    ShiftExtends(k1.buckets, r.rows, Hold);
  }

  lemma CaptureQuiet(k: Book, now: Time, id: Option<nat>)
    requires Inv(k, now) && CaptureBook(k, id, now).Ok?
    ensures Quiet(k, CaptureBook(k, id, now).value)
  {
    if id.Some? && id.value < |k.reservations| && k.reservations[id.value].status == Status.Reserved {
      assert ReservationOk(k.buckets, k.reservations[id.value]);
      ShiftExtends(k.buckets, k.reservations[id.value].rows, Settle);
    }
  }

  lemma ReleaseQuiet(k: Book, now: Time, id: Option<nat>)
    requires Inv(k, now)
    ensures Quiet(k, ReleaseBook(k, id, now))
  {
    if id.Some? && id.value < |k.reservations| && k.reservations[id.value].status == Status.Reserved {
      assert ReservationOk(k.buckets, k.reservations[id.value]);
      ShiftExtends(k.buckets, k.reservations[id.value].rows, Return);
    }
  }

  lemma RefundQuiet(k: Book, now: Time, id: nat)
    requires Inv(k, now) && RefundBook(k, id, now).Ok?
    ensures Quiet(k, RefundBook(k, id, now).value)
  {
    if id < |k.reservations| && k.reservations[id].status == Captured {
      assert ReservationOk(k.buckets, k.reservations[id]);
      RefundExtends(k, id, now);
    }
  }

  // ---- Accounts and trials ----

  lemma {:induction false} NoDebtOutside(reviews: seq<DebtReview>, a: Ref)
    requires forall r :: 0 <= r < |reviews| ==> reviews[r].account != a
    ensures AccountDebt(reviews, a) == 0
  {
    if |reviews| > 0 { NoDebtOutside(reviews[..|reviews| - 1], a); }
  }

  lemma {:induction false} NoPeriodDebt(reviews: seq<DebtReview>, p: Ref)
    requires forall r :: 0 <= r < |reviews| ==> reviews[r].period != p
    ensures PeriodDebt(reviews, p) == 0
  {
    if |reviews| > 0 { NoPeriodDebt(reviews[..|reviews| - 1], p); }
  }

  lemma EnsureAccountKeeps(s: State, user: Ref)
    requires SInv(s) && EnsureAccount(s, user).Ok?
    ensures SInv(EnsureAccount(s, user).value)
  {
    if user !in s.accounts { NoDebtOutside(s.reviews, user); }
  }

  // Only a grant entry can carry a grant key.
  lemma UsedGrant(s: State, a: Ref, key: Key) returns (b: nat)
    requires SInv(s) && (key.TrialKey? || key.PaymentKey?) && Used(s.book.journal, a, key)
    ensures b < |s.book.buckets| && s.book.buckets[b].account == a
    ensures key.TrialKey? ==>
      s.book.buckets[b].kind == TrialBucket && s.book.buckets[b].source == TrialSource(key.policy, key.user)
    ensures key.PaymentKey? ==>
      && key.event in s.inbox
      && s.book.buckets[b].source == PaymentSource(PeriodOf(s.inbox[key.event].event, key.event))
  {
    var j := s.book.journal;
    var i :| 0 <= i < |j| && j[i].posted && j[i].entry.account == a && j[i].entry.key == key;
    assert Shaped(j[i]);
    assert GrantTargetAt(s.book.buckets, s.inbox, j[i]);
    b := Target(j[i]);
  }

  // A new grant entry names its own bucket.
  lemma GrantTargetsAppend(k: Book, inbox: map<Ref, InboxRow>, b: Bucket, key: Key)
    requires GrantTargets(k, inbox)
    requires GrantTargetAt(k.buckets + [b], inbox, AddGrant(k, b, GRANT, key).journal[|k.journal|])
    ensures GrantTargets(AddGrant(k, b, GRANT, key), inbox)
  {
    var next := AddGrant(k, b, GRANT, key);
    forall i | 0 <= i < |next.journal| && next.journal[i].entry.kind == GRANT
      ensures GrantTargetAt(next.buckets, inbox, next.journal[i])
    {
      if i < |k.journal| { assert GrantTargetAt(k.buckets, inbox, k.journal[i]); }
    }
  }

  // A new grant changes no payment's accounts and no adjustment's entries.
  lemma GrantLeaves(k: Book, b: Bucket, key: Key)
    requires key.TrialKey? || key.PaymentKey?
    ensures
      var next := AddGrant(k, b, GRANT, key);
      && (forall reviews, p, st :: PaymentAt(k, reviews, p, st) ==> PaymentAt(next, reviews, p, st))
      && (forall rows :: AdjustmentsOk(k.journal, rows) ==> AdjustmentsOk(next.journal, rows))
  {
    var x := AddGrant(k, b, GRANT, key).journal[|k.journal|];
    AppendSums(k.journal, x);
    AppendItems(k.journal, x);
  }

  lemma AppendItems(j: seq<Item>, x: Item)
    ensures forall n: nat :: AdjustmentItems(j + [x], n) == AdjustmentItems(j, n) + AdjustmentStep(x, n)
  {
    assert (j + [x])[..|j|] == j;
  }

  lemma EnsureTrialKeeps(s: State, user: Ref, verified: bool, policy: Option<Policy>)
    requires SInv(s) && EnsureTrial(s, user, verified, policy).Ok?
    ensures
      var s1 := EnsureTrial(s, user, verified, policy).value;
      SInv(s1) && s1.clock == s.clock
  {
    hide SInv;
    if verified && policy.Some? && policy.value.enabled && (user, policy.value.key) !in s.trials {
      EnsureAccountKeeps(s, user);
      TrialGrantKeeps(EnsureAccount(s, user).value, user, policy.value);
    }
  }

  lemma TrialGrantKeeps(s: State, user: Ref, p: Policy)
    requires SInv(s)
    ensures
      var r := GrantBook(s.book, user, TrialBucket, TrialSource(p.id, user), p.credits, Some(s.clock + p.validFor),
        TrialKey(p.id, user));
      r.Ok? ==> SInv(s.(book := r.value.0, trials := s.trials + {(user, p.key)}))
  {
    hide Inv, AdjustmentsOk, PaymentAt, AccountsOk, ReviewsOk, OffersOk;
    var source, key := TrialSource(p.id, user), TrialKey(p.id, user);
    FindBucketCorrect(s.book.buckets, user, TrialBucket, source);
    if FindBucket(s.book.buckets, user, TrialBucket, source).None? && p.credits > 0 {
      if Used(s.book.journal, user, key) { var b := UsedGrant(s, user, key); }
      var b := Bucket(user, TrialBucket, source, p.credits, p.credits, 0, Some(s.clock + p.validFor));
      GrantKeeps(s.book, s.clock, s.clock, b, GRANT, key);
      TrialTargets(s.book, s.inbox, b, key);
      GrantLeaves(s.book, b, key);
    }
  }

  lemma TrialTargets(k: Book, inbox: map<Ref, InboxRow>, b: Bucket, key: Key)
    requires GrantTargets(k, inbox) && key.TrialKey?
    requires b.kind == TrialBucket && b.source == TrialSource(key.policy, key.user)
    ensures GrantTargets(AddGrant(k, b, GRANT, key), inbox)
  {
    GrantTargetsAppend(k, inbox, b, key);
  }

  // ---- Payments ----

  lemma PaymentGrantKeeps(s: State, id: Ref, user: Ref, offer: Offer, expires: Option<Time>)
    requires SInv(s) && id in s.inbox && offer.amount > 0 && offer.credits > 0
    ensures
      var r := GrantPayment(s, id, PeriodOf(s.inbox[id].event, id), user, offer, expires);
      r.Ok? ==> SInv(r.value)
  {
    var period := PeriodOf(s.inbox[id].event, id);
    var kind := if offer.kind == SubscriptionOffer then SubscriptionBucket else TopupBucket;
    var r := GrantPayment(s, id, period, user, offer, expires);
    FindBucketCorrect(s.book.buckets, user, kind, PaymentSource(period));
    if r.Ok? && FindBucket(s.book.buckets, user, kind, PaymentSource(period)).None? {
      NewPaymentKeeps(s, id, Bucket(user, kind, PaymentSource(period), offer.credits, offer.credits, 0, expires),
        offer.amount);
    }
  }

  // The state of a period whose bucket was just created.
  lemma NewPaymentLinks(k: Book, payments: map<Ref, ReversalState>, reviews: seq<DebtReview>, b: Bucket, key: Key,
      amount: int)
    requires TablesOk(k) && PaymentsOk(k, payments, reviews) && key.PaymentKey?
    requires b.source.PaymentSource? && b.source.period !in payments && b.granted > 0 && amount > 0
    requires forall r :: 0 <= r < |reviews| ==> reviews[r].period != b.source.period
    ensures PaymentsOk(AddGrant(k, b, GRANT, key),
                       payments[b.source.period := ReversalState(|k.buckets|, amount, 0, 0)], reviews)
  {
    var next := AddGrant(k, b, GRANT, key);
    GrantLeaves(k, b, key);
    AppendSums(k.journal, next.journal[|k.journal|]);
    DrainedFresh(k.buckets, k.journal, |k.buckets|, REVERSAL);
    NoPeriodDebt(reviews, b.source.period);
    CeilWhole(b.granted, amount);
    assert PaymentAt(next, reviews, b.source.period, ReversalState(|k.buckets|, amount, 0, 0));
  }

  lemma NewPaymentKeeps(s: State, id: Ref, b: Bucket, amount: int)
    requires SInv(s) && id in s.inbox && b.granted > 0 && b.available == b.granted && b.reserved == 0 && amount > 0
    requires b.source == PaymentSource(PeriodOf(s.inbox[id].event, id)) && b.source.period !in s.payments
    ensures SInv(s.(book := AddGrant(s.book, b, GRANT, PaymentKey(id)),
                    payments := s.payments[b.source.period := ReversalState(|s.book.buckets|, amount, 0, 0)]))
  {
    var key := PaymentKey(id);
    if Used(s.book.journal, b.account, key) { var c := UsedGrant(s, b.account, key); }
    GrantKeeps(s.book, s.clock, s.clock, b, GRANT, key);
    GrantTargetsAppend(s.book, s.inbox, b, key);
    GrantLeaves(s.book, b, key);
    NewPaymentLinks(s.book, s.payments, s.reviews, b, key, amount);
    hide Inv, GrantTargets, PaymentsOk, AdjustmentsOk, AddGrant;
  }

  // Checkouts and subscriptions are no part of the invariant.
  lemma SideTables(s: State, next: State)
    requires SInv(s) && next == s.(subscriptions := next.subscriptions, checkouts := next.checkouts)
    ensures SInv(next)
  {}

  lemma PositiveOffer(s: State, o: Ref)
    requires SInv(s) && o in s.offers
    ensures s.offers[o].amount > 0 && s.offers[o].credits > 0
  {}

  lemma SucceededKeeps(s: State, id: Ref, event: Event)
    requires SInv(s) && id in s.inbox && PeriodOf(event, id) == PeriodOf(s.inbox[id].event, id)
    requires PaymentSucceeded(s, id, event).Ok?
    ensures SInv(PaymentSucceeded(s, id, event).value)
    ensures id in PaymentSucceeded(s, id, event).value.inbox
  {
    hide SInv;
    var (user, offerId) := Payee(s, event).value;
    var offer := PaidOffer(s, event, offerId).value;
    PositiveOffer(s, offerId);
    EnsureAccountKeeps(s, user);
    var s1 := EnsureAccount(s, user).value;
    var s3;
    if offer.kind == SubscriptionOffer {
      var (s2, end) := Subscribe(s1, event, user, offerId, PeriodOf(event, id)).value;
      SideTables(s1, s2);
      PaymentGrantKeeps(s2, id, user, offer, Some(end));
      s3 := GrantPayment(s2, id, PeriodOf(event, id), user, offer, Some(end)).value;
    } else {
      PaymentGrantKeeps(s1, id, user, offer, None);
      s3 := GrantPayment(s1, id, PeriodOf(event, id), user, offer, None).value;
    }
    SideTables(s3, CompleteCheckout(s3, event));
  }

  // ---- Reversals ----

  lemma DebtAppend(reviews: seq<DebtReview>, r: DebtReview)
    ensures forall p: Ref :: PeriodDebt(reviews + [r], p) == PeriodDebt(reviews, p) + if r.period == p then r.debt
      else 0
    ensures forall a: Ref :: AccountDebt(reviews + [r], a) == AccountDebt(reviews, a) + if r.account == a then r.debt
      else 0
  {
    assert (reviews + [r])[..|reviews|] == reviews;
  }

  // Releasing reservations concerns no other table.
  lemma HoldersQuiet(k: Book, now: Time, b: nat)
    requires Inv(k, now) && b < |k.buckets|
    ensures Quiet(k, ReleaseHolders(k, b, now))
  {
    ReleaseHoldersCorrect(k, now, now, b);
  }

  // Taking credits back from one payment's bucket, and booking the rest as its debt,
  // leaves every payment's accounts straight.
  lemma TakeBackLinks(k: Book, payments: map<Ref, ReversalState>, reviews: seq<DebtReview>, more: seq<DebtReview>,
                      b: nat, unspent: int, event: Ref, period: Ref, state: ReversalState)
    requires PaymentsOk(k, payments, reviews) && b < |k.buckets| && k.buckets[b].source == PaymentSource(period)
    requires var next := TakeBack(k, b, unspent, event);
      && Extends(k.buckets, next.buckets) && |next.buckets| == |k.buckets|
      && (forall c: nat ::
        Drained(next.journal, c, REVERSAL) == Drained(k.journal, c, REVERSAL) + (if c == b then unspent else 0))
    requires state.bucket == b && 0 <= state.amount <= state.original && state.original > 0
    requires state.credits == Ceil(k.buckets[b].granted * state.amount, state.original)
    requires state.credits == payments[period].credits + unspent +
      PeriodDebt(more, period) - PeriodDebt(reviews, period)
    requires forall p: Ref :: p != period ==> PeriodDebt(more, p) == PeriodDebt(reviews, p)
    ensures PaymentsOk(TakeBack(k, b, unspent, event), payments[period := state], more)
  {
    hide Ceil, TakeBack, Drained, PeriodDebt;
    var next := TakeBack(k, b, unspent, event);
    assert PaymentAt(k, reviews, period, payments[period]);
    forall p | p in payments ensures PaymentAt(next, more, p, payments[period := state][p]) {
      assert PaymentAt(k, reviews, p, payments[p]);
    }
  }

  lemma TakeBackOthers(k: Book, inbox: map<Ref, InboxRow>, rows: seq<Adjustment>, b: nat, unspent: int, event: Ref)
    requires GrantTargets(k, inbox) && AdjustmentsOk(k.journal, rows) && b < |k.buckets|
    requires Extends(k.buckets, TakeBack(k, b, unspent, event).buckets)
    ensures GrantTargets(TakeBack(k, b, unspent, event), inbox)
    ensures AdjustmentsOk(TakeBack(k, b, unspent, event).journal, rows)
  {
    var next := TakeBack(k, b, unspent, event);
    if unspent != 0 {
      AppendItems(k.journal, next.journal[|k.journal|]);
    }
    forall i | 0 <= i < |next.journal| && next.journal[i].entry.kind == GRANT
      ensures GrantTargetAt(next.buckets, inbox, next.journal[i])
    {
      assert GrantTargetAt(k.buckets, inbox, k.journal[i]);
    }
  }

  function MoreReviews(s: State, id: Ref, reason: EventType, period: Ref, a: Ref, due: int): seq<DebtReview> {
    if due == 0 then s.reviews else s.reviews + [DebtReview(a, id, reason, due, period)]
  }

  ghost predicate ReversalInput(s: State, period: Ref, b: nat, state: ReversalState, credits: int) {
    && period in s.payments && b == s.payments[period].bucket && credits >= 0 && b < |s.book.buckets|
    && state.bucket == b && 0 <= state.amount <= state.original && state.original > 0
    && state.credits == Ceil(s.book.buckets[b].granted * state.amount, state.original) == s.payments[period].credits +
      credits
  }

  // The book side of a reversal, from a state whose bucket has no holders left.
  lemma ReversalBook(s: State, id: Ref, reason: EventType, period: Ref, b: nat, state: ReversalState, credits: int)
    requires SInv(s) && ReversalInput(s, period, b, state, credits)
    ensures
      var unspent := Min(s.book.buckets[b].available, credits);
      var next := TakeBack(s.book, b, unspent, id);
      && unspent >= 0 && Inv(next, s.clock) && GrantTargets(next, s.inbox) && AdjustmentsOk(next.journal, s.adjustments)
      && PaymentsOk(next, s.payments[period := state],
                    MoreReviews(s, id, reason, period, s.book.buckets[b].account, credits - unspent))
  {
    var unspent := Min(s.book.buckets[b].available, credits);
    var r := DebtReview(s.book.buckets[b].account, id, reason, credits - unspent, period);
    assert BucketAt(s.book, b);
    assert PaymentAt(s.book, s.reviews, period, s.payments[period]);
    TakeBackKeeps(s.book, s.clock, s.clock, b, unspent, id);
    TakeBackOthers(s.book, s.inbox, s.adjustments, b, unspent, id);
    DebtAppend(s.reviews, r);
    hide Inv, GrantTargets, AdjustmentsOk, PaymentsOk, TakeBack;
    TakeBackLinks(s.book, s.payments, s.reviews, MoreReviews(s, id, reason, period, r.account, r.debt), b, unspent, id,
      period, state);
  }

  function Owing(s: State, a: Ref, due: int): map<Ref, Account> {
    if due == 0 then s.accounts else s.accounts[a := Account(Review, AccountOf(s, a).debt + due)]
  }

  // The account side: the account owes what the bucket could not give back.
  lemma ReversalDebt(s: State, id: Ref, reason: EventType, period: Ref, a: Ref, due: int,
      payments: map<Ref, ReversalState>)
    requires ReviewsOk(s.reviews, s.accounts, s.payments) && AccountsOk(s.accounts, s.reviews) && due >= 0
    requires period in payments && s.payments.Keys <= payments.Keys
    ensures ReviewsOk(MoreReviews(s, id, reason, period, a, due), Owing(s, a, due), payments)
    ensures AccountsOk(Owing(s, a, due), MoreReviews(s, id, reason, period, a, due))
  {
    DebtAppend(s.reviews, DebtReview(a, id, reason, due, period));
    if a !in s.accounts { NoDebtOutside(s.reviews, a); }
  }

  lemma ReversalKeeps(s: State, id: Ref, reason: EventType, period: Ref, b: nat, state: ReversalState, credits: int)
    requires SInv(s) && ReversalInput(s, period, b, state, credits)
    ensures
      var a := s.book.buckets[b].account;
      var unspent := Min(s.book.buckets[b].available, credits);
      var due := credits - unspent;
      SInv(s.(book := TakeBack(s.book, b, unspent, id), payments := s.payments[period := state],
              accounts := Owing(s, a, due), reviews := MoreReviews(s, id, reason, period, a, due)))
  {
    hide Inv, GrantTargets, PaymentsOk, AdjustmentsOk, ReviewsOk, AccountsOk, OffersOk, TakeBack, Owing, MoreReviews;
    var due := credits - Min(s.book.buckets[b].available, credits);
    ReversalBook(s, id, reason, period, b, state, credits);
    ReversalDebt(s, id, reason, period, s.book.buckets[b].account, due, s.payments[period := state]);
  }

  // The bucket a reversal finds is its period's, and its holders can be released first.
  lemma FoundPayment(s: State, period: Ref, b: nat)
    requires SInv(s) && FindSource(s.book.buckets, PaymentSource(period)) == Some(b)
    ensures period in s.payments && s.payments[period].bucket == b && b < |s.book.buckets|
    ensures s.book.buckets[b].granted > 0
    ensures var st := s.payments[period];
      0 <= st.amount <= st.original && st.original > 0
        && st.credits == Ceil(s.book.buckets[b].granted * st.amount, st.original)
    ensures
      var k1 := ReleaseHolders(s.book, b, s.clock);
      && SInv(s.(book := k1)) && |k1.buckets| == |s.book.buckets| && k1.buckets[b].reserved == 0
      && k1.buckets[b].granted == s.book.buckets[b].granted && k1.buckets[b].account == s.book.buckets[b].account
  {
    FindSourceCorrect(s.book.buckets, PaymentSource(period));
    assert PaymentAt(s.book, s.reviews, period, s.payments[period]);
    assert BucketAt(s.book, b);
    ReleaseHoldersCorrect(s.book, s.clock, s.clock, b);
    HoldersQuiet(s.book, s.clock, b);
    hide Inv, BookLinks, ReviewsOk, AccountsOk, OffersOk;
    QuietKeeps(s, ReleaseHolders(s.book, b, s.clock));
  }

  lemma ReverseCreditsKeeps(s: State, id: Ref, reason: EventType, period: Ref, b: nat, state: ReversalState,
      credits: int)
    requires SInv(s) && FindSource(s.book.buckets, PaymentSource(period)) == Some(b)
    requires ReversalInput(s, period, b, state, credits)
    requires ReverseCredits(s, id, reason, period, b, state, credits).Ok?
    ensures SInv(ReverseCredits(s, id, reason, period, b, state, credits).value)
    ensures ReverseCredits(s, id, reason, period, b, state, credits).value.inbox == s.inbox
  {
    hide SInv, ReleaseHolders, TakeBack, Ceil, FindSource;
    FoundPayment(s, period, b);
    ReversalKeeps(s.(book := ReleaseHolders(s.book, b, s.clock)), id, reason, period, b, state, credits);
  }

  lemma ReversedKeeps(s: State, id: Ref, event: Event, origin: Option<Ref>)
    requires SInv(s) && PaymentReversed(s, id, event, origin).Ok?
    ensures SInv(PaymentReversed(s, id, event, origin).value)
    ensures PaymentReversed(s, id, event, origin).value.inbox == s.inbox
  {
    hide SInv, ReleaseHolders, ReverseCredits, Ceil, FindSource, CumulativeReversal;
    var period := ReversedPeriod(event).value;
    var b := FindSource(s.book.buckets, PaymentSource(period)).value;
    FoundPayment(s, period, b);
    var st := s.payments[period];
    var amount := AmountOr(event.amount, st.original).value;
    StepExact(st.original, s.book.buckets[b].granted, st.amount, amount);
    var (total, cumulative, credits) :=
      CumulativeReversal(st.original, s.book.buckets[b].granted, st.amount, st.credits, amount).value;
    ReverseCreditsKeeps(s, id, event.kind, period, b, st.(amount := total, credits := cumulative), credits);
  }

  // ---- Adjustments ----

  lemma {:induction false} UsedAdjustment(j: seq<Item>, a: Ref, n: nat)
    requires Used(j, a, AdjustmentKey(n))
    ensures AdjustmentItems(j, n) != []
  {
    var i :| 0 <= i < |j| && j[i].posted && j[i].entry.account == a && j[i].entry.key == AdjustmentKey(n);
    if i < |j| - 1 {
      assert j[..|j| - 1][i] == j[i];
      UsedAdjustment(j[..|j| - 1], a, n);
    }
  }

  // An adjustment entry touches no grant entry and no payment's accounts.
  lemma AdjustmentLeaves(k: Book, next: Book, inbox: map<Ref, InboxRow>, payments: map<Ref, ReversalState>,
      reviews: seq<DebtReview>)
    requires GrantTargets(k, inbox) && PaymentsOk(k, payments, reviews) && Extends(k.buckets, next.buckets)
    requires forall b :: |k.buckets| <= b < |next.buckets| ==> next.buckets[b].source.AdjustmentSource?
    requires |next.journal| == |k.journal| + 1 && next.journal[..|k.journal|] == k.journal
    requires next.journal[|k.journal|].entry.kind == ADJUSTMENT
    ensures GrantTargets(next, inbox) && PaymentsOk(next, payments, reviews)
  {
    assert next.journal == k.journal + [next.journal[|k.journal|]];
    AppendSums(k.journal, next.journal[|k.journal|]);
    forall i | 0 <= i < |next.journal| && next.journal[i].entry.kind == GRANT
      ensures GrantTargetAt(next.buckets, inbox, next.journal[i])
    {
      assert next.journal[i] == k.journal[i];
      assert GrantTargetAt(k.buckets, inbox, k.journal[i]);
    }
    forall p | p in payments ensures PaymentAt(next, reviews, p, payments[p]) {
      assert PaymentAt(k, reviews, p, payments[p]);
    }
  }

  // What `_apply_credit_adjustment` appends for a fresh key.
  lemma AdjustBookShape(k: Book, now: Time, a: Ref, amount: int, n: nat)
    requires Inv(k, now) && !Used(k.journal, a, AdjustmentKey(n)) && AdjustBook(k, a, amount, n).Ok?
    ensures
      var next := AdjustBook(k, a, amount, n).value;
      && Extends(k.buckets, next.buckets)
      && (forall b :: |k.buckets| <= b < |next.buckets| ==> next.buckets[b].source.AdjustmentSource?)
      && |next.journal| == |k.journal| + 1 && next.journal[..|k.journal|] == k.journal
      && var x := next.journal[|k.journal|];
         x.posted && x.entry.kind == ADJUSTMENT && x.entry.key == AdjustmentKey(n) && x.entry.account == a
           && x.entry.amount == amount
  {
    if amount <= 0 {
      var order := CreationOrder(k.buckets, a, |k.buckets|);
      TakeKeeps(k, now, now, a, -amount, order, n);
      var rows := Greedy(k.buckets, order, -amount);
      GreedyRange(k.buckets, order, -amount);
      ShiftExtends(k.buckets, rows, Drain);
      hide Inv, Extends, Greedy, Shift, Total, Offered, CreationOrder, Balance;
      assert AdjustBook(k, a, amount, n).value == DrainMove(k, a, rows, ADJUSTMENT, AdjustmentKey(n), None);
    }
  }

  lemma {:induction false} GreedyRange(bs: seq<Bucket>, order: seq<nat>, need: int)
    requires forall i :: 0 <= i < |order| ==> order[i] < |bs|
    ensures InRange(Greedy(bs, order, need), |bs|)
  {
    if |order| > 0 { GreedyRange(bs, order[..|order| - 1], need); }
  }

  // The rows after adjustment `n` is marked executed, whether new or pending before.
  ghost predicate MarksExecuted(rows: seq<Adjustment>, next: seq<Adjustment>, n: nat, target: Ref, amount: int) {
    && n < |next| && next[n].status == Executed && next[n].target == target && next[n].amount == amount != 0
    && (next[n].dual ==> next[n].decider.Some? && next[n].decider.value != next[n].requester)
    && ExpectedItems(rows, n) == []
    && |rows| <= |next| <= |rows| + 1 && (|next| > |rows| ==> n == |rows|)
    && (forall m :: 0 <= m < |rows| && m != n ==> next[m] == rows[m])
  }

  lemma ExecutedRows(k: Book, next: Book, rows: seq<Adjustment>, after: seq<Adjustment>, n: nat, target: Ref,
      amount: int)
    requires AdjustmentsOk(k.journal, rows) && MarksExecuted(rows, after, n, target, amount)
    requires |next.journal| == |k.journal| + 1 && next.journal[..|k.journal|] == k.journal
    requires var x := next.journal[|k.journal|];
      x.posted && x.entry.key == AdjustmentKey(n) && x.entry.account == target && x.entry.amount == amount
    ensures AdjustmentsOk(next.journal, after)
  {
    hide AdjustmentItems;
    assert next.journal == k.journal + [next.journal[|k.journal|]];
    AppendItems(k.journal, next.journal[|k.journal|]);
    forall m: nat ensures AdjustmentItems(next.journal, m) == ExpectedItems(after, m) {
      assert AdjustmentItems(k.journal, m) == ExpectedItems(rows, m);
    }
  }

  lemma AdjustKeeps(s: State, after: seq<Adjustment>, target: Ref, amount: int, n: nat)
    requires SInv(s) && MarksExecuted(s.adjustments, after, n, target, amount)
    requires ExecuteAdjustment(s.(adjustments := after), target, amount, n).Ok?
    ensures SInv(ExecuteAdjustment(s.(adjustments := after), target, amount, n).value)
  {
    EnsureAccountKeeps(s, target);
    var s1 := EnsureAccount(s, target).value;
    assert AdjustmentItems(s.book.journal, n) == ExpectedItems(s.adjustments, n);
    if Used(s.book.journal, target, AdjustmentKey(n)) { UsedAdjustment(s.book.journal, target, n); }
    AdjustBookKeeps(s.book, s.clock, s.clock, target, amount, n);
    AdjustBookShape(s.book, s.clock, target, amount, n);
    var next := AdjustBook(s.book, target, amount, n).value;
    ExecutedRows(s.book, next, s.adjustments, after, n, target, amount);
    AdjustmentLeaves(s.book, next, s.inbox, s.payments, s.reviews);
    hide Inv, GrantTargets, PaymentsOk, AdjustmentsOk, AccountsOk, ReviewsOk, AdjustBook;
  }

  lemma RequestKeeps(s: State, actor: Ref, target: Ref, amount: int, dual: bool)
    requires SInv(s) && RequestAdjustment(s, actor, target, amount, dual).Ok?
    ensures SInv(RequestAdjustment(s, actor, target, amount, dual).value)
  {
    var row := Adjustment(actor, target, amount, if dual then Pending else Executed, dual, None);
    var after := s.adjustments + [row];
    if dual {
      forall n: nat ensures AdjustmentItems(s.book.journal, n) == ExpectedItems(after, n) {
        assert AdjustmentItems(s.book.journal, n) == ExpectedItems(s.adjustments, n);
      }
      assert AdjustmentsOk(s.book.journal, after);
    } else {
      AdjustKeeps(s, after, target, amount, |s.adjustments|);
    }
  }

  lemma PendingRow(s: State, id: nat)
    requires SInv(s) && id < |s.adjustments| && s.adjustments[id].status == Pending
    ensures s.adjustments[id].amount != 0 && ExpectedItems(s.adjustments, id) == []
  {}

  lemma ApproveKeeps(s: State, id: nat, actor: Ref)
    requires SInv(s) && ApproveAdjustment(s, id, actor).Ok?
    ensures SInv(ApproveAdjustment(s, id, actor).value)
  {
    hide SInv, ExecuteAdjustment;
    PendingRow(s, id);
    AdjustKeeps(s, Decide(s, id, actor, Executed).adjustments, s.adjustments[id].target, s.adjustments[id].amount, id);
  }

  lemma RejectKeeps(s: State, id: nat, actor: Ref)
    requires SInv(s) && RejectAdjustment(s, id, actor).Ok?
    ensures SInv(RejectAdjustment(s, id, actor).value)
  {
    hide AdjustmentItems, Inv, GrantTargets, PaymentsOk, AccountsOk, ReviewsOk;
    var after := Decide(s, id, actor, Rejected).adjustments;
    forall n: nat ensures AdjustmentItems(s.book.journal, n) == ExpectedItems(after, n) {
      assert AdjustmentItems(s.book.journal, n) == ExpectedItems(s.adjustments, n);
    }
    assert AdjustmentsOk(s.book.journal, after);
  }

  // ---- Spending ----

  lemma DeferKeeps(k: Book, was: Time, now: Time, i: nat, until: Time)
    requires Inv(k, was) && was <= now && i < |k.reservations|
    ensures Inv(k.(reservations := k.reservations[i := k.reservations[i].(expires := until)]), now)
  {
    hide Shaped, Footprint, Balance, Journaled, Drained;
    var r := k.reservations[i].(expires := until);
    var after := SetReservation(k, i, r, k.buckets);
    assert ReservationOk(k.buckets, k.reservations[i]);
    ReplaceTables(k, k.buckets, i, r);
    forall b | 0 <= b < |after.buckets| ensures BucketAt(after, b) {
      assert BucketAt(k, b);
      StatusChange(k.reservations, i, r, b);
    }
    QuietJournal(k, after, was, now);
  }

  lemma ClockKeeps(s: State, wait: nat)
    requires SInv(s)
    ensures SInv(s.(clock := s.clock + wait))
  {
    QuietJournal(s.book, s.book, s.clock, s.clock + wait);
    hide TablesOk, Partitioned, Conserved, JournalOk, BookLinks, AccountsOk, ReviewsOk;
  }

  lemma BookInv(s: State)
    requires SInv(s)
    ensures Inv(s.book, s.clock)
  {}

  lemma ReserveStep(s: State, user: Ref, verified: bool, policy: Option<Policy>, quote: Quote, minutes: nat,
                    reference: Reference, expires: Option<Time>)
    requires SInv(s) && Reserve(s, user, verified, policy, quote, minutes, reference, expires).Ok?
    ensures SInv(Reserve(s, user, verified, policy, quote, minutes, reference, expires).value)
  {
    hide SInv, EnsureTrial, ReserveBook;
    EnsureTrialKeeps(s, user, verified, policy);
    var s1 := EnsureTrial(s, user, verified, policy).value;
    if quote.cost != 0 && FindReference(s1.book.reservations, reference).None? {
      EnsureAccountKeeps(s1, user);
      var s2 := EnsureAccount(s1, user).value;
      var until := if expires.Some? then expires.value else s.clock + RESERVATION_TTL;
      BookInv(s2);
      hide Inv;
      ReserveKeeps(s2.book, s2.clock, s2.clock, user, quote.cost, reference, until);
      ReserveQuiet(s2.book, s2.clock, user, quote.cost, reference, until);
      QuietKeeps(s2, ReserveBook(s2.book, user, quote.cost, reference, until, s2.clock).value);
    }
  }

  lemma ViewStep(s: State, user: Ref, verified: bool, policy: Option<Policy>)
    requires SInv(s) && View(s, user, verified, policy).Ok?
    ensures SInv(View(s, user, verified, policy).value)
  {
    hide SInv, EnsureTrial, ExpireBuckets;
    EnsureTrialKeeps(s, user, verified, policy);
    var s1 := EnsureTrial(s, user, verified, policy).value;
    EnsureAccountKeeps(s1, user);
    var s2 := EnsureAccount(s1, user).value;
    BookInv(s2);
    hide Inv;
    ExpireBucketsKeeps(s2.book, s2.clock, s2.clock, user);
    ExpireBucketsQuiet(s2.book, user, s2.clock);
    QuietKeeps(s2, ExpireBuckets(s2.book, user, s2.clock));
  }

  lemma SettleStep(s: State, id: nat, outcome: Outcome)
    requires SInv(s) && SettleDue(s, id, outcome).Ok?
    ensures SInv(SettleDue(s, id, outcome).value)
  {
    hide SInv, CaptureBook, ReleaseBook;
    BookInv(s);
    match outcome {
      case CaptureIt => CaptureStep(s, Some(id));
      case ReleaseIt => ReleaseStep(s, Some(id));
      case DeferIt =>
        if id < |s.book.reservations| {
          DeferKeeps(s.book, s.clock, s.clock, id, s.clock + DEFER_BY);
          var deferred := s.book.reservations[id].(expires := s.clock + DEFER_BY);
          QuietKeeps(s, s.book.(reservations := s.book.reservations[id := deferred]));
        }
    }
  }

  lemma CaptureStep(s: State, id: Option<nat>)
    requires SInv(s)
    ensures Capture(s, id).Ok? ==> SInv(Capture(s, id).value)
  {
    if Capture(s, id).Ok? {
      CaptureBookKeeps(s.book, s.clock, s.clock, id);
      CaptureQuiet(s.book, s.clock, id);
      hide SInv, CaptureBook;
      QuietKeeps(s, CaptureBook(s.book, id, s.clock).value);
    }
  }

  lemma ReleaseStep(s: State, id: Option<nat>)
    requires SInv(s)
    ensures SInv(Release(s, id).value)
  {
    ReleaseBookKeeps(s.book, s.clock, s.clock, id);
    ReleaseQuiet(s.book, s.clock, id);
    hide SInv, ReleaseBook;
    QuietKeeps(s, ReleaseBook(s.book, id, s.clock));
  }

  lemma RefundStep(s: State, id: nat)
    requires SInv(s)
    ensures Refund(s, id).Ok? ==> SInv(Refund(s, id).value)
  {
    if Refund(s, id).Ok? {
      RefundBookKeeps(s.book, s.clock, s.clock, id);
      RefundQuiet(s.book, s.clock, id);
      hide SInv, RefundBook;
      QuietKeeps(s, RefundBook(s.book, id, s.clock).value);
    }
  }

  // ---- The inbox ----

  // Inbox commits keep every event's payload.
  lemma InboxKeeps(s: State, id: Ref, row: InboxRow)
    requires SInv(s) && (id in s.inbox ==> row.event == s.inbox[id].event)
    ensures SInv(s.(inbox := s.inbox[id := row]))
  {
    forall i | 0 <= i < |s.book.journal| && s.book.journal[i].entry.kind == GRANT
      ensures GrantTargetAt(s.book.buckets, s.inbox[id := row], s.book.journal[i])
    {
      assert GrantTargetAt(s.book.buckets, s.inbox, s.book.journal[i]);
    }
  }

  lemma FinishStep(s: State, id: Ref, event: Event, origin: Option<Ref>)
    requires SInv(s) && KeepsPeriod(s, id, event) && Finish(s, id, event, origin).Ok?
    ensures SInv(Finish(s, id, event, origin).value)
  {
    hide SInv, PaymentSucceeded, PaymentReversed;
    var r := ApplyEvent(s, id, event, origin);
    if r.Ok? {
      match event.kind {
        case CheckoutCompleted => SucceededKeeps(s, id, event);
        case SubscriptionRenewed => SucceededKeeps(s, id, event);
        case PaymentRefunded => ReversedKeeps(s, id, event, origin);
        case PaymentChargeback => ReversedKeeps(s, id, event, origin);
        case SubscriptionEnded => SideTables(s, r.value);
        case Ignored =>
      }
      if id in r.value.inbox { InboxKeeps(r.value, id, r.value.inbox[id].(status := Processed)); }
    }
    InboxKeeps(s, id, s.inbox[id].(status := Failed));
  }

  // ---- Every step, every run ----

  lemma ExecuteKeeps(s: State, op: Op)
    requires SInv(s) && Execute(s, op).Ok?
    ensures SInv(Execute(s, op).value)
  {
    hide SInv, Reserve, Capture, Release, Refund, SettleDue, View, Finish, RequestAdjustment, ApproveAdjustment,
      RejectAdjustment;
    match op {
      case ReserveOp(user, verified, policy, quote, minutes, reference, expires) =>
        ReserveStep(s, user, verified, policy, quote, minutes, reference, expires);
      case CaptureOp(id) => CaptureStep(s, id);
      case ReleaseOp(id) => ReleaseStep(s, id);
      case RefundOp(id) => RefundStep(s, id);
      case SettleOp(id, outcome) => SettleStep(s, id, outcome);
      case ViewOp(user, verified, policy) => ViewStep(s, user, verified, policy);
      case CheckoutOp(session, checkout) => SideTables(s, Execute(s, op).value);
      case DeliverOp(id, event, hash) =>
        if Execute(s, op).value != s { InboxKeeps(s, id, Execute(s, op).value.inbox[id]); }
      case BeginOp(id) => InboxKeeps(s, id, Execute(s, op).value.inbox[id]);
      case ReconcileOp(id, event, hash) => InboxKeeps(s, id, Execute(s, op).value.inbox[id]);
      case FinishOp(id, event, origin) =>
        if KeepsPeriod(s, id, event) && Finish(s, id, event, origin).Ok? { FinishStep(s, id, event, origin); }
      case RequestOp(actor, target, amount, dual) => RequestKeeps(s, actor, target, amount, dual);
      case ApproveOp(id, actor) => ApproveKeeps(s, id, actor);
      case RejectOp(id, actor) => RejectKeeps(s, id, actor);
    }
  }

  lemma StepKeeps(s: State, wait: nat, op: Op)
    requires SInv(s)
    ensures SInv(Step(s, wait, op))
  {
    hide SInv, Execute;
    ClockKeeps(s, wait);
    var s1 := s.(clock := s.clock + wait);
    if Execute(s1, op).Ok? { ExecuteKeeps(s1, op); }
  }

  lemma InitOk(start: Time, users: set<Ref>, offers: map<Ref, Offer>)
    requires OffersOk(offers)
    ensures SInv(Init(start, users, offers))
  {}

  // Every invariant holds after every sequence of operations.
  lemma {:induction false} RunKeeps(s: State, ops: seq<Timed>)
    requires SInv(s)
    ensures SInv(Run(s, ops))
  {
    if |ops| > 0 {
      hide SInv;
      RunKeeps(s, ops[..|ops| - 1]);
      StepKeeps(Run(s, ops[..|ops| - 1]), ops[|ops| - 1].wait, ops[|ops| - 1].op);
    }
  }
}
