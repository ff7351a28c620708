/** Runs on which the ledger explains every balance.

`_expire_buckets` writes its entry under a key that is used once per bucket, so a
release that refills a bucket already swept makes the next sweep silent. Without
such releases, and without applying one reversal event twice, nothing is silent.
*/
module CleanRuns {
  import opened Prelude
  import opened Ledger
  import opened LedgerInvariants
  import opened LedgerMoves
  import opened CreditOps
  import opened CreditLaws
  import opened Reversal
  import opened Billing
  import opened BillingLaws

  ghost predicate AllPosted(j: seq<Item>) {
    forall i :: 0 <= i < |j| ==> j[i].posted
  }

  // The bucket already has its EXPIRE entry.
  predicate SweptBefore(k: Book, b: nat) {
    b < |k.buckets| && Used(k.journal, k.buckets[b].account, ExpireKey(b))
  }

  ghost predicate SweptEmpty(k: Book) {
    forall b :: 0 <= b < |k.buckets| && SweptBefore(k, b) ==> k.buckets[b].available == 0
  }

  ghost predicate CleanBook(k: Book) {
    AllPosted(k.journal) && SweptEmpty(k)
  }

  // Releasing reservation `r` would refill a bucket that was swept before.
  predicate Refills(k: Book, r: nat) {
    && r < |k.reservations| && k.reservations[r].status == Status.Reserved
    && exists i :: 0 <= i < |k.reservations[r].rows| && SweptBefore(k, k.reservations[r].rows[i].bucket)
  }

  // Whether reversal event `id` refills a swept bucket or was applied with an entry before.
  predicate CleanReversal(k: Book, id: Ref, event: Event) {
    var found := if ReversedPeriod(event).Some? then FindSource(k.buckets, PaymentSource(ReversedPeriod(event).value))
      else None;
    found.Some? && found.value < |k.buckets| ==>
      && !Used(k.journal, k.buckets[found.value].account, ReversalKey(id))
      && forall r :: r in Holders(k.reservations, found.value, |k.reservations|) ==> !Refills(k, r)
  }

  predicate CleanOp(s: State, op: Op) {
    match op
    case ReleaseOp(id) => id.Some? ==> !Refills(s.book, id.value)
    case SettleOp(id, outcome) => outcome == ReleaseIt ==> !Refills(s.book, id)
    case FinishOp(id, event, origin) => id in s.inbox ==> IsSuccess(event.kind) || CleanReversal(s.book, id, event)
    case _ => true
  }

  predicate CleanRun(s: State, ops: seq<Timed>) {
    |ops| > 0 ==> CleanRun(s, ops[..|ops| - 1]) && CleanOp(Run(s, ops[..|ops| - 1]), ops[|ops| - 1].op)
  }

  // ---- One step of the book ----

  // `next` adds at most one entry, no expiry, and refills no swept bucket.
  ghost predicate Tame(k: Book, next: Book) {
    && |k.buckets| <= |next.buckets| && |k.journal| <= |next.journal| <= |k.journal| + 1
    && next.journal[..|k.journal|] == k.journal
    && (|next.journal| > |k.journal| ==>
      var x := next.journal[|k.journal|]; x.entry.kind != EXPIRE && (x.entry.kind == REVERSAL ==> x.posted))
    && forall b :: 0 <= b < |k.buckets| ==>
      next.buckets[b].account == k.buckets[b].account
      && (next.buckets[b].available <= k.buckets[b].available || !SweptBefore(k, b))
  }

  lemma SweptTame(k: Book, next: Book, was: Time, now: Time, b: nat)
    requires Inv(k, was) && Inv(next, now) && Tame(k, next) && SweptBefore(next, b)
    ensures SweptBefore(k, b)
  {
    var j := next.journal;
    var a := next.buckets[b].account;
    var i :| 0 <= i < |j| && j[i].posted && j[i].entry.account == a && j[i].entry.key == ExpireKey(b);
    assert Shaped(j[i]);
    assert j[i] == k.journal[i];
    assert k.journal[i].entry.kind == EXPIRE;
  }

  lemma TameClean(k: Book, next: Book, was: Time, now: Time)
    requires Inv(k, was) && Inv(next, now) && CleanBook(k) && Tame(k, next)
    ensures CleanBook(next)
  {
    forall i | 0 <= i < |next.journal| ensures next.journal[i].posted {
      if i < |k.journal| { assert next.journal[i] == k.journal[i]; }
    }
    forall b | 0 <= b < |next.buckets| && SweptBefore(next, b) ensures next.buckets[b].available == 0 {
      SweptTame(k, next, was, now, b);
      assert BucketAt(next, b);
    }
  }

  // A bucket with its EXPIRE entry has expired.
  lemma SweptExpired(k: Book, now: Time, b: nat)
    requires Inv(k, now) && SweptBefore(k, b)
    ensures Expired(k.buckets[b].expires, now)
  {
    var j := k.journal;
    var i :| 0 <= i < |j| && j[i].posted && j[i].entry.account == k.buckets[b].account
      && j[i].entry.key == ExpireKey(b);
    assert Shaped(j[i]);
  }

  // ---- Operations ----

  lemma {:induction false} ExpireAllClean(k: Book, now: Time, ids: seq<nat>)
    requires Inv(k, now) && CleanBook(k)
    requires forall i :: 0 <= i < |ids| ==>
      ids[i] < |k.buckets| && Expired(k.buckets[ids[i]].expires, now) && k.buckets[ids[i]].available > 0
    requires forall i, j :: 0 <= i < j < |ids| ==> ids[i] < ids[j]
    ensures CleanBook(ExpireAll(k, ids))
  {
    if |ids| > 0 {
      var init, b := ids[..|ids| - 1], ids[|ids| - 1];
      ExpireAllKeeps(k, now, now, init);
      ExpireAllClean(k, now, init);
      ExpireOneClean(ExpireAll(k, init), now, b);
    }
  }

  lemma ExpireOneClean(k: Book, now: Time, b: nat)
    requires Inv(k, now) && CleanBook(k) && b < |k.buckets| && Expired(k.buckets[b].expires, now)
    requires k.buckets[b].available > 0
    ensures CleanBook(ExpireOne(k, b))
  {
    var next := ExpireOne(k, b);
    ExpireOneKeeps(k, now, b);
    var x := next.journal[|k.journal|];
    assert !SweptBefore(k, b);
    forall c | 0 <= c < |next.buckets| && SweptBefore(next, c) ensures next.buckets[c].available == 0 {
      UsedAppend(k.journal, x, next.buckets[c].account, ExpireKey(c));
      if c != b { assert SweptBefore(k, c); }
    }
  }

  lemma ExpireBucketsClean(k: Book, now: Time, a: Ref)
    requires Inv(k, now) && CleanBook(k)
    ensures CleanBook(ExpireBuckets(k, a, now))
  {
    ExpiredIdsInRange(k.buckets, a, now, |k.buckets|);
    ExpireAllClean(k, now, ExpiredIds(k.buckets, a, now, |k.buckets|));
  }

  lemma HoldTame(k: Book, r: Reservation)
    requires RowsOf(k.buckets, r.rows, r.account)
    ensures Tame(k, AddHold(k, r))
  {
    forall b | 0 <= b < |k.buckets|
      ensures AddHold(k, r).buckets[b].account == k.buckets[b].account
      ensures AddHold(k, r).buckets[b].available <= k.buckets[b].available
    {
      ShiftAt(k.buckets, r.rows, Hold, b);
      AllocSign(r.rows, b);
    }
  }

  lemma ReserveClean(k: Book, now: Time, a: Ref, cost: int, reference: Reference, expires: Time)
    requires Inv(k, now) && CleanBook(k) && cost > 0 && ReserveBook(k, a, cost, reference, expires, now).Ok?
    ensures CleanBook(ReserveBook(k, a, cost, reference, expires, now).value)
  {
    var k1 := ExpireBuckets(k, a, now);
    var next := ReserveBook(k, a, cost, reference, expires, now).value;
    ExpireBucketsKeeps(k, now, now, a);
    ExpireBucketsClean(k, now, a);
    ReserveKeeps(k, now, now, a, cost, reference, expires);
    var order := ReserveOrder(k1.buckets, a, |k1.buckets|);
    ReserveOrderCorrect(k1.buckets, a, |k1.buckets|);
    AccountOrder(k1, a, order);
    GreedyCovered(k1.buckets, order, cost, a);
    hide Inv, CleanBook, Tame, ExpireBuckets, Greedy, ReserveOrder, Offered;
    HoldTame(k1, next.reservations[|k1.reservations|]);
    TameClean(k1, next, now, now);
  }

  lemma CaptureClean(k: Book, now: Time, id: Option<nat>)
    requires Inv(k, now) && CleanBook(k) && CaptureBook(k, id, now).Ok?
    ensures CleanBook(CaptureBook(k, id, now).value)
  {
    if id.Some? && id.value < |k.reservations| && k.reservations[id.value].status == Status.Reserved {
      var next := CaptureMove(k, id.value, now);
      assert ReservationOk(k.buckets, k.reservations[id.value]);
      CaptureKeeps(k, now, now, id.value);
      forall b | 0 <= b < |k.buckets|
        ensures next.buckets[b].account == k.buckets[b].account && next.buckets[b].available == k.buckets[b].available
      {
        ShiftAt(k.buckets, k.reservations[id.value].rows, Settle, b);
      }
      hide Inv, CleanBook;
      TameClean(k, next, now, now);
    }
  }

  lemma ReleaseClean(k: Book, now: Time, id: Option<nat>)
    requires Inv(k, now) && CleanBook(k) && (id.Some? ==> !Refills(k, id.value))
    ensures CleanBook(ReleaseBook(k, id, now))
  {
    if id.Some? && id.value < |k.reservations| && k.reservations[id.value].status == Status.Reserved {
      var next := ReleaseMove(k, id.value, now);
      var rows := k.reservations[id.value].rows;
      assert ReservationOk(k.buckets, k.reservations[id.value]);
      ReleaseKeeps(k, now, now, id.value);
      forall b | 0 <= b < |k.buckets|
        ensures next.buckets[b].account == k.buckets[b].account
        ensures next.buckets[b].available <= k.buckets[b].available || !SweptBefore(k, b)
      {
        ShiftAt(k.buckets, rows, Return, b);
        AllocSign(rows, b);
      }
      hide Inv, CleanBook, Refills;
      TameClean(k, next, now, now);
    }
  }

  lemma RefundClean(k: Book, now: Time, id: nat)
    requires Inv(k, now) && CleanBook(k) && RefundBook(k, id, now).Ok?
    ensures CleanBook(RefundBook(k, id, now).value)
  {
    if id < |k.reservations| && k.reservations[id].status == Captured {
      var next := RefundMove(k, id, now);
      var r := k.reservations[id];
      assert ReservationOk(k.buckets, r);
      RefundKeeps(k, now, now, id);
      forall b | 0 <= b < |k.buckets|
        ensures next.buckets[b].account == k.buckets[b].account
        ensures next.buckets[b].available <= k.buckets[b].available || !SweptBefore(k, b)
      {
        RefundAt(k.buckets, r.account, id, r.rows, now, b);
        if SweptBefore(k, b) { SweptExpired(k, now, b); }
      }
      RefundAtSize(k, id, now);
      hide Inv, CleanBook, RefundBuckets;
      TameClean(k, next, now, now);
    }
  }

  lemma RefundAtSize(k: Book, i: nat, now: Time)
    requires i < |k.reservations|
    ensures |k.buckets| <= |RefundMove(k, i, now).buckets|
  {}

  lemma GrantClean(k: Book, now: Time, a: Ref, kind: BucketType, source: Source, amount: int, expires: Option<Time>,
      key: Key)
    requires Inv(k, now) && CleanBook(k)
    requires GrantBook(k, a, kind, source, amount, expires, key).Ok?
    requires Inv(GrantBook(k, a, kind, source, amount, expires, key).value.0, now)
    ensures CleanBook(GrantBook(k, a, kind, source, amount, expires, key).value.0)
  {
    var next := GrantBook(k, a, kind, source, amount, expires, key).value.0;
    hide Inv, CleanBook;
    TameClean(k, next, now, now);
  }

  lemma AdjustClean(k: Book, now: Time, a: Ref, amount: int, n: nat)
    requires Inv(k, now) && CleanBook(k) && AdjustBook(k, a, amount, n).Ok?
    ensures CleanBook(AdjustBook(k, a, amount, n).value)
  {
    var next := AdjustBook(k, a, amount, n).value;
    AdjustBookKeeps(k, now, now, a, amount, n);
    if amount > 0 || Used(k.journal, a, AdjustmentKey(n)) {
      hide Inv, CleanBook;
      TameClean(k, next, now, now);
    } else {
      TakeTame(k, now, a, amount, n);
      hide Inv, CleanBook, AdjustBook, Tame;
      TameClean(k, next, now, now);
    }
  }

  lemma TakeTame(k: Book, now: Time, a: Ref, amount: int, n: nat)
    requires Inv(k, now) && amount <= 0 && !Used(k.journal, a, AdjustmentKey(n)) && AdjustBook(k, a, amount, n).Ok?
    ensures Tame(k, AdjustBook(k, a, amount, n).value)
  {
    var order := CreationOrder(k.buckets, a, |k.buckets|);
    TakeCovered(k, a, -amount, order);
    DrainTame(k, a, Greedy(k.buckets, order, -amount), ADJUSTMENT, AdjustmentKey(n), None);
    hide Inv, Tame, Greedy, CreationOrder, Offered, DrainMove;
  }

  lemma DrainTame(k: Book, a: Ref, rows: seq<Row>, kind: EntryKind, key: Key, bucket: Option<nat>)
    requires RowsOf(k.buckets, rows, a) && kind != EXPIRE && (kind == REVERSAL ==> !Used(k.journal, a, key))
    ensures Tame(k, DrainMove(k, a, rows, kind, key, bucket))
  {
    forall b | 0 <= b < |k.buckets|
      ensures Shift(k.buckets, rows, Drain)[b].account == k.buckets[b].account
      ensures Shift(k.buckets, rows, Drain)[b].available <= k.buckets[b].available
    {
      ShiftAt(k.buckets, rows, Drain, b);
      AllocSign(rows, b);
    }
  }

  lemma RefillsEarlier(k: Book, k1: Book, r: nat)
    requires k1.journal == k.journal && Extends(k.buckets, k1.buckets) && |k1.buckets| == |k.buckets|
    requires r < |k1.reservations| && k1.reservations[r].status == Status.Reserved ==>
      r < |k.reservations| && k1.reservations[r] == k.reservations[r]
    ensures Refills(k1, r) ==> Refills(k, r)
  {
    assert forall b :: SweptBefore(k1, b) ==> SweptBefore(k, b);
  }

  // Releasing posts nothing, so what was swept before stays so through all releases.
  lemma {:induction false} ReleaseAllClean(k: Book, now: Time, ids: seq<nat>)
    requires Inv(k, now) && CleanBook(k) && forall i :: 0 <= i < |ids| ==> !Refills(k, ids[i])
    ensures CleanBook(ReleaseAll(k, ids, now))
  {
    if |ids| > 0 {
      var init, id := ids[..|ids| - 1], ids[|ids| - 1];
      ReleaseAllKeeps(k, now, now, init);
      ReleaseAllClean(k, now, init);
      var k1 := ReleaseAll(k, init, now);
      assert !Refills(k, id);
      hide Inv, CleanBook, ReleaseAll;
      RefillsEarlier(k, k1, id);
      ReleaseClean(k1, now, Some(id));
    }
  }

  lemma TakeBackClean(k: Book, now: Time, b: nat, unspent: int, event: Ref)
    requires Inv(k, now) && CleanBook(k) && b < |k.buckets| && 0 <= unspent <= k.buckets[b].available
    requires !Used(k.journal, k.buckets[b].account, ReversalKey(event))
    ensures CleanBook(TakeBack(k, b, unspent, event))
  {
    if unspent > 0 {
      TakeBackKeeps(k, now, now, b, unspent, event);
      var a := k.buckets[b].account;
      DrainTame(k, a, [Row(b, unspent)], REVERSAL, ReversalKey(event), Some(b));
      hide Inv, CleanBook, Tame, DrainMove;
      TameClean(k, TakeBack(k, b, unspent, event), now, now);
    }
  }

  // ---- Steps ----

  lemma TrialGrantClean(s: State, user: Ref, p: Policy)
    requires SInv(s) && CleanBook(s.book)
    ensures
      var r := GrantBook(s.book, user, TrialBucket, TrialSource(p.id, user), p.credits, Some(s.clock + p.validFor),
        TrialKey(p.id, user));
      r.Ok? ==> CleanBook(r.value.0)
  {
    var source, key, expires := TrialSource(p.id, user), TrialKey(p.id, user), Some(s.clock + p.validFor);
    TrialGrantKeeps(s, user, p);
    hide CleanBook, GrantBook;
    var r := GrantBook(s.book, user, TrialBucket, source, p.credits, expires, key);
    BookInv(s);
    if r.Ok? {
      BookInv(s.(book := r.value.0, trials := s.trials + {(user, p.key)}));
      hide SInv, Inv;
      GrantClean(s.book, s.clock, user, TrialBucket, source, p.credits, expires, key);
    }
  }

  lemma TrialClean(s: State, user: Ref, verified: bool, policy: Option<Policy>)
    requires SInv(s) && CleanBook(s.book) && EnsureTrial(s, user, verified, policy).Ok?
    ensures CleanBook(EnsureTrial(s, user, verified, policy).value.book)
  {
    hide SInv, CleanBook, GrantBook;
    if verified && policy.value.enabled && (user, policy.value.key) !in s.trials {
      TrialGrantClean(s, user, policy.value);
    }
  }

  lemma ReserveOpClean(s: State, user: Ref, verified: bool, policy: Option<Policy>, quote: Quote, minutes: nat,
                       reference: Reference, expires: Option<Time>)
    requires SInv(s) && CleanBook(s.book) && Reserve(s, user, verified, policy, quote, minutes, reference, expires).Ok?
    ensures CleanBook(Reserve(s, user, verified, policy, quote, minutes, reference, expires).value.book)
  {
    hide SInv, CleanBook, Inv, EnsureTrial, ReserveBook;
    TrialClean(s, user, verified, policy);
    EnsureTrialKeeps(s, user, verified, policy);
    var s1 := EnsureTrial(s, user, verified, policy).value;
    if quote.cost != 0 && FindReference(s1.book.reservations, reference).None? {
      BookInv(s1);
      ReserveClean(s1.book, s1.clock, user, quote.cost, reference,
        if expires.Some? then expires.value else s.clock + RESERVATION_TTL);
    }
  }

  lemma ViewClean(s: State, user: Ref, verified: bool, policy: Option<Policy>)
    requires SInv(s) && CleanBook(s.book) && View(s, user, verified, policy).Ok?
    ensures CleanBook(View(s, user, verified, policy).value.book)
  {
    hide SInv, CleanBook, Inv, EnsureTrial, ExpireBuckets;
    TrialClean(s, user, verified, policy);
    EnsureTrialKeeps(s, user, verified, policy);
    var s1 := EnsureTrial(s, user, verified, policy).value;
    BookInv(s1);
    ExpireBucketsClean(s1.book, s1.clock, user);
  }

  lemma PaymentGrantClean(s: State, id: Ref, user: Ref, offer: Offer, expires: Option<Time>)
    requires SInv(s) && CleanBook(s.book) && id in s.inbox && offer.amount > 0 && offer.credits > 0
    requires GrantPayment(s, id, PeriodOf(s.inbox[id].event, id), user, offer, expires).Ok?
    ensures CleanBook(GrantPayment(s, id, PeriodOf(s.inbox[id].event, id), user, offer, expires).value.book)
  {
    var period := PeriodOf(s.inbox[id].event, id);
    var kind := if offer.kind == SubscriptionOffer then SubscriptionBucket else TopupBucket;
    PaymentGrantKeeps(s, id, user, offer, expires);
    BookInv(s);
    BookInv(GrantPayment(s, id, period, user, offer, expires).value);
    hide SInv, CleanBook, Inv, GrantBook;
    GrantClean(s.book, s.clock, user, kind, PaymentSource(period), offer.credits, expires, PaymentKey(id));
  }

  lemma SucceededClean(s: State, id: Ref, event: Event)
    requires SInv(s) && CleanBook(s.book) && id in s.inbox && PeriodOf(event, id) == PeriodOf(s.inbox[id].event, id)
    requires PaymentSucceeded(s, id, event).Ok?
    ensures CleanBook(PaymentSucceeded(s, id, event).value.book)
  {
    var (user, offerId) := Payee(s, event).value;
    var offer := PaidOffer(s, event, offerId).value;
    PositiveOffer(s, offerId);
    EnsureAccountKeeps(s, user);
    hide SInv, CleanBook, GrantPayment, Payee, PaidOffer;
    var s1 := EnsureAccount(s, user).value;
    if offer.kind == SubscriptionOffer {
      var (s2, end) := Subscribe(s1, event, user, offerId, PeriodOf(event, id)).value;
      SideTables(s1, s2);
      PaymentGrantClean(s2, id, user, offer, Some(end));
    } else {
      PaymentGrantClean(s1, id, user, offer, None);
    }
  }

  lemma ReverseCreditsClean(s: State, id: Ref, reason: EventType, period: Ref, b: nat, state: ReversalState,
      credits: int)
    requires SInv(s) && CleanBook(s.book) && b < |s.book.buckets| && credits >= 0
    requires !Used(s.book.journal, s.book.buckets[b].account, ReversalKey(id))
    requires forall r :: r in Holders(s.book.reservations, b, |s.book.reservations|) ==> !Refills(s.book, r)
    requires ReverseCredits(s, id, reason, period, b, state, credits).Ok?
    ensures CleanBook(ReverseCredits(s, id, reason, period, b, state, credits).value.book)
  {
    BookInv(s);
    var k1 := ReleaseHolders(s.book, b, s.clock);
    ReleaseHoldersCorrect(s.book, s.clock, s.clock, b);
    ReleaseAllClean(s.book, s.clock, Holders(s.book.reservations, b, |s.book.reservations|));
    assert k1.buckets[b].available >= 0 by { assert BucketAt(k1, b); }
    hide SInv, CleanBook, Inv, TakeBack, ReleaseHolders, Refills;
    TakeBackClean(k1, s.clock, b, Min(k1.buckets[b].available, credits), id);
  }

  lemma ReversedClean(s: State, id: Ref, event: Event, origin: Option<Ref>)
    requires SInv(s) && CleanBook(s.book) && CleanReversal(s.book, id, event)
    requires PaymentReversed(s, id, event, origin).Ok?
    ensures CleanBook(PaymentReversed(s, id, event, origin).value.book)
  {
    hide SInv, CleanBook, ReverseCredits, FindSource, Ceil, Used, Refills, Holders;
    var plan := PlanReversal(s, event, origin).value;
    ReverseCreditsClean(s, id, event.kind, plan.period, plan.bucket, plan.state, plan.credits);
  }

  lemma FinishClean(s: State, id: Ref, event: Event, origin: Option<Ref>)
    requires SInv(s) && CleanBook(s.book) && CleanOp(s, FinishOp(id, event, origin)) && KeepsPeriod(s, id, event)
    requires Finish(s, id, event, origin).Ok?
    ensures CleanBook(Finish(s, id, event, origin).value.book)
  {
    hide SInv, CleanBook, CleanReversal, PaymentSucceeded, PaymentReversed;
    if ApplyEvent(s, id, event, origin).Ok? {
      match event.kind {
        case CheckoutCompleted => SucceededClean(s, id, event);
        case SubscriptionRenewed => SucceededClean(s, id, event);
        case PaymentRefunded => ReversedClean(s, id, event, origin);
        case PaymentChargeback => ReversedClean(s, id, event, origin);
        case SubscriptionEnded =>
        case Ignored =>
      }
    }
  }

  lemma ExecuteAdjustmentClean(s: State, target: Ref, amount: int, n: nat)
    requires Inv(s.book, s.clock) && CleanBook(s.book) && ExecuteAdjustment(s, target, amount, n).Ok?
    ensures CleanBook(ExecuteAdjustment(s, target, amount, n).value.book)
  {
    AdjustClean(s.book, s.clock, target, amount, n);
    hide Inv, CleanBook, AdjustBook;
  }

  lemma SettleClean(s: State, id: nat, outcome: Outcome)
    requires SInv(s) && CleanBook(s.book) && CleanOp(s, SettleOp(id, outcome)) && SettleDue(s, id, outcome).Ok?
    ensures CleanBook(SettleDue(s, id, outcome).value.book)
  {
    BookInv(s);
    hide SInv, Inv, CaptureBook, ReleaseBook, Refills, AllPosted;
    match outcome {
      case CaptureIt => if CaptureBook(s.book, Some(id), s.clock).Ok? { CaptureClean(s.book, s.clock, Some(id)); }
      case ReleaseIt => if !Refills(s.book, id) { ReleaseClean(s.book, s.clock, Some(id)); }
      case DeferIt =>
    }
  }

  lemma ExecuteClean(s: State, op: Op)
    requires SInv(s) && CleanBook(s.book) && CleanOp(s, op) && Execute(s, op).Ok?
    ensures CleanBook(Execute(s, op).value.book)
  {
    BookInv(s);
    hide SInv, CleanBook, Inv, Reserve, SettleDue, View, Finish, ExecuteAdjustment, CaptureBook, ReleaseBook,
      RefundBook, Refills;
    match op {
      case ReserveOp(user, verified, policy, quote, minutes, reference, expires) =>
        ReserveOpClean(s, user, verified, policy, quote, minutes, reference, expires);
      case CaptureOp(id) => CaptureClean(s.book, s.clock, id);
      case ReleaseOp(id) => ReleaseClean(s.book, s.clock, id);
      case RefundOp(id) => RefundClean(s.book, s.clock, id);
      case SettleOp(id, outcome) => SettleClean(s, id, outcome);
      case ViewOp(user, verified, policy) => ViewClean(s, user, verified, policy);
      case FinishOp(id, event, origin) =>
        if KeepsPeriod(s, id, event) && Finish(s, id, event, origin).Ok? { FinishClean(s, id, event, origin); }
      case RequestOp(actor, target, amount, dual) =>
        if !dual {
          var row := Adjustment(actor, target, amount, Executed, false, None);
          ExecuteAdjustmentClean(s.(adjustments := s.adjustments + [row]), target, amount, |s.adjustments|);
        }
      case ApproveOp(id, actor) =>
        ExecuteAdjustmentClean(Decide(s, id, actor, Executed), s.adjustments[id].target, s.adjustments[id].amount, id);
      case RejectOp(id, actor) =>
      case CheckoutOp(session, checkout) =>
      case DeliverOp(id, event, hash) =>
      case BeginOp(id) =>
      case ReconcileOp(id, event, hash) =>
    }
  }

  lemma StepClean(s: State, wait: nat, op: Op)
    requires SInv(s) && CleanBook(s.book) && CleanOp(s, op)
    ensures CleanBook(Step(s, wait, op).book)
  {
    hide SInv, CleanBook, Execute, CleanOp;
    var s1 := s.(clock := s.clock + wait);
    ClockKeeps(s, wait);
    SameCleanOp(s, wait, op);
    if Execute(s1, op).Ok? { ExecuteClean(s1, op); }
  }

  // On a clean run every balance change is posted.
  lemma {:induction false} CleanRunPosted(s: State, ops: seq<Timed>)
    requires SInv(s) && CleanBook(s.book) && CleanRun(s, ops)
    ensures CleanBook(Run(s, ops).book)
  {
    if |ops| > 0 {
      hide SInv, CleanBook, Step, CleanOp;
      CleanRunPosted(s, ops[..|ops| - 1]);
      RunKeeps(s, ops[..|ops| - 1]);
      StepClean(Run(s, ops[..|ops| - 1]), ops[|ops| - 1].wait, ops[|ops| - 1].op);
    }
  }

  // Cleanness does not depend on the clock.
  lemma SameCleanOp(s: State, wait: nat, op: Op)
    ensures CleanOp(s, op) == CleanOp(s.(clock := s.clock + wait), op)
  {}
}
