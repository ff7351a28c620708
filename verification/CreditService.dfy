/** The credit and payment methods of `BillingService` as they update their tables in place.

Every public method carries out one step of the billing state machine: it commits what
`Execute` says or restores the tables it started from, and `history` records the step.
*/
module CreditService {
  import opened Prelude
  import opened Ledger
  import opened LedgerInvariants
  import opened CreditOps
  import opened CreditLaws
  import opened CreditLoops
  import opened Reversal
  import opened Billing
  import opened BillingLaws

  // ---- Debt ----

  predicate Reviewed(reviews: seq<DebtReview>, event: Ref) {
    exists r :: 0 <= r < |reviews| && reviews[r].event == event
  }

  function Owed(accounts: map<Ref, Account>, a: Ref, due: int): map<Ref, Account> {
    if due == 0 then accounts
    else accounts[a := Account(Review, (if a in accounts then accounts[a].debt else 0) + due)]
  }

  function Listed(reviews: seq<DebtReview>, a: Ref, event: Ref, reason: EventType, due: int,
      period: Ref): seq<DebtReview> {
    if due == 0 then reviews else reviews + [DebtReview(a, event, reason, due, period)]
  }

  // The credit step of a reversal in terms of its released book and its debt.
  lemma ReversalParts(s: State, id: Ref, reason: EventType, period: Ref, b: nat, state: ReversalState, credits: int)
    requires b < |s.book.buckets|
    ensures
      var k, a := ReleaseHolders(s.book, b, s.clock), s.book.buckets[b].account;
      && |k.buckets| == |s.book.buckets| && k.buckets[b].account == a
      && var unspent := Min(k.buckets[b].available, credits);
         var due := Max(0, credits - unspent);
         ReverseCredits(s, id, reason, period, b, state, credits) ==
           if due != 0 && Reviewed(s.reviews, id) then Err(ReviewAlreadyRecorded)
           else Ok(s.(book := TakeBack(k, b, unspent, id), payments := s.payments[period := state],
                      accounts := Owed(s.accounts, a, due), reviews := Listed(s.reviews, a, id, reason, due, period)))
  {
    hide Balance, Used, Shift;
    var holders := Holders(s.book.reservations, b, |s.book.reservations|);
    ReleaseAllSize(s.book, holders, s.clock);
    ReleaseAllAccounts(s.book, holders, s.clock);
  }

  // ---- Transactions ----

  datatype Tables = Tables(
    accounts: map<Ref, Account>, buckets: seq<Bucket>, reservations: seq<Reservation>, entries: seq<Entry>,
    trials: set<(Ref, Ref)>, checkouts: map<Ref, Checkout>, subscriptions: map<Ref, Subscription>,
    inbox: map<Ref, InboxRow>, payments: map<Ref, ReversalState>, reviews: seq<DebtReview>,
      adjustments: seq<Adjustment>)

  function Refusal(r: Result<State>): Option<Error> {
    if r.Ok? then None else Some(r.error)
  }

  lemma RunNext(s: State, steps: seq<Timed>, t: Timed)
    ensures Run(s, steps + [t]) == Step(Run(s, steps), t.wait, t.op)
  {
    assert (steps + [t])[..|steps|] == steps;
  }

  lemma StepAt(s: State, now: Time, op: Op)
    requires s.clock <= now
    ensures
      var r := Execute(s.(clock := now), op);
      Step(s, now - s.clock, op) == if r.Ok? then r.value else s.(clock := now)
  {
    hide Execute;
  }

  // At any later time, the book of a run keeps the ledger invariant.
  lemma RunInv(start: Time, users: set<Ref>, offers: map<Ref, Offer>, steps: seq<Timed>, wait: nat)
    requires OffersOk(offers)
    ensures var s := Run(Init(start, users, offers), steps); Inv(s.book, s.clock + wait)
  {
    hide Inv;
    InitOk(start, users, offers);
    RunKeeps(Init(start, users, offers), steps);
    ClockKeeps(Run(Init(start, users, offers), steps), wait);
  }

  lemma AmountsPositive(k: Book, now: Time)
    requires Inv(k, now)
    ensures forall r :: 0 <= r < |k.reservations| ==> k.reservations[r].amount > 0
  {
    forall r | 0 <= r < |k.reservations| ensures k.reservations[r].amount > 0 {
      assert ReservationOk(k.buckets, k.reservations[r]);
    }
  }

  class BillingService {
    const start: Time
    const users: set<Ref>
    const offers: map<Ref, Offer>
    var accounts: map<Ref, Account>
    var buckets: seq<Bucket>
    var reservations: seq<Reservation>
    var entries: seq<Entry>
    var trials: set<(Ref, Ref)>
    var checkouts: map<Ref, Checkout>
    var subscriptions: map<Ref, Subscription>
    var inbox: map<Ref, InboxRow>
    var payments: map<Ref, ReversalState>
    var reviews: seq<DebtReview>
    var adjustments: seq<Adjustment>
    // The time of the operation under way.
    var clock: Time
    // The ledger with the entries that `_ledger` dropped, and the steps taken so far.
    ghost var journal: seq<Item>
    ghost var history: seq<Timed>

    ghost function Book(): Book
      reads this
    {
      Ledger.Book(buckets, reservations, journal)
    }

    ghost predicate Synced()
      reads this
    {
      entries == Posted(journal)
    }

    ghost function Snapshot(): State
      reads this
    {
      State(clock, users, offers, accounts, Book(), trials, checkouts, subscriptions, inbox, payments, reviews,
        adjustments)
    }

    // The tables are those of the result, or the operation failed with its error.
    ghost predicate Committed(r: Result<State>, error: Option<Error>)
      reads this
    {
      if r.Ok? then error == None && Synced() && Snapshot() == r.value else error == Some(r.error)
    }

    // ---- Ledger and expiry ----

    // `_ledger`
    method AddLedgerEntry(a: Ref, amount: int, kind: EntryKind, key: Key, bucket: Option<nat>, ghost draws: seq<Row>)
      returns (error: Option<Error>)
      requires Synced()
      modifies this`entries, this`journal
      ensures Synced()
      ensures amount == 0 ==> error == Some(ZeroLedgerEntry) && Book() == old(Book())
      ensures amount != 0 ==> error == None && Book() == Post(old(Book()), a, amount, kind, key, bucket, draws)
    {
      if amount == 0 { return Some(ZeroLedgerEntry); }
      UsedPosted(journal, a, key);
      var balance := Balance(buckets, a);
      var entry := Entry(a, bucket, amount, kind, balance, key);
      ghost var item := Item(entry, !KeyUsed(entries, a, key), draws);
      PostedAppend(journal, item);
      if !KeyUsed(entries, a, key) {
        entries := entries + [entry];
      }
      journal := journal + [item];
      return None;
    }

    // `_expire_buckets`
    method ExpireBuckets(a: Ref, now: Time)
      requires Synced()
      modifies this`buckets, this`entries, this`journal
      ensures Synced() && Book() == CreditOps.ExpireBuckets(old(Book()), a, now)
    {
      var expired := ExpiredIds(buckets, a, now, |buckets|);
      ExpiredIdsInRange(buckets, a, now, |buckets|);
      ExpireListed(a, expired);
    }

    // The loop of `_expire_buckets`.
    method ExpireListed(a: Ref, expired: seq<nat>)
      requires Synced()
      requires forall i :: 0 <= i < |expired| ==>
        expired[i] < |buckets| && buckets[expired[i]].account == a && buckets[expired[i]].available != 0
      requires forall i, j :: 0 <= i < j < |expired| ==> expired[i] < expired[j]
      modifies this`buckets, this`entries, this`journal
      ensures Synced() && Book() == ExpireAll(old(Book()), expired)
    {
      assert expired[..0] == [];
      for i := 0 to |expired|
        invariant Synced() && Book() == ExpireAll(old(Book()), expired[..i])
      {
        hide ExpireAll, Post;
        var b := expired[i];
        ExpireRound(old(Book()), expired, i, a);
        var amount := buckets[b].available;
        buckets := buckets[b := buckets[b].(available := 0)];
        var _ := AddLedgerEntry(a, -amount, EXPIRE, ExpireKey(b), Some(b), [Row(b, amount)]);
      }
      assert expired[..|expired|] == expired;
    }

    // ---- Reservations ----

    // Hold what bucket `b` has of the credits still missing.
    method HoldFrom(b: nat, remaining: int) returns (amount: int)
      requires b < |buckets|
      modifies this`buckets
      ensures amount == Min(old(buckets)[b].available, remaining)
      ensures buckets == if amount == 0 then old(buckets)
        else old(buckets)[b := Ledger.Adjust(old(buckets)[b], amount, Hold)]
    {
      amount := Min(buckets[b].available, remaining);
      if amount == 0 { return; }
      buckets := buckets[b := buckets[b].(available := buckets[b].available - amount)];
      buckets := buckets[b := buckets[b].(reserved := buckets[b].reserved + amount)];
    }

    // The loop of `reserve` over the buckets with credits.
    method HoldCredits(order: seq<nat>, cost: int) returns (rows: seq<Row>)
      requires Distinct(order) && Drawable(buckets, order) && cost > 0
      modifies this`buckets
      ensures rows == Greedy(old(buckets), order, cost) && buckets == Shift(old(buckets), rows, Hold)
    {
      ghost var bs := buckets;
      rows := [];
      var remaining := cost;
      DrawStart(bs, order, cost, Hold);
      hide Greedy, Shift, Total, Drawn, Drawable, Distinct, Ledger.Adjust, Min;
      for i := 0 to |order|
        invariant Drawn(bs, order, cost, i, Hold, buckets, rows) && remaining == cost - Total(rows)
      {
        DrawRound(bs, order, cost, i, Hold, buckets, rows);
        var b := order[i];
        var amount := HoldFrom(b, remaining);
        if amount == 0 { continue; }
        rows := rows + [Row(b, amount)];
        remaining := remaining - amount;
        if remaining == 0 {
          DrawEnd(bs, order, cost, i + 1, Hold, buckets, rows);
          return;
        }
      }
      DrawEnd(bs, order, cost, |order|, Hold, buckets, rows);
    }

    // The part of `reserve` that runs once the account is known to be active.
    method ReserveCredits(a: Ref, cost: int, reference: Reference, expires: Time, now: Time)
      returns (error: Option<Error>)
      requires Synced() && cost > 0
      modifies this`buckets, this`reservations, this`entries, this`journal
      ensures match ReserveBook(old(Book()), a, cost, reference, expires, now)
        case Ok(next) => error == None && Synced() && Book() == next
        case Err(e) => error == Some(e)
    {
      ExpireBuckets(a, now);
      var order := ReserveOrder(buckets, a, |buckets|);
      if Offered(buckets, order) < cost { return Some(InsufficientCredits); }
      ReserveOrderCorrect(buckets, a, |buckets|);
      assert forall i :: 0 <= i < |order| ==> order[i] in order;
      var rows := HoldCredits(order, cost);
      reservations := reservations + [Reservation(a, reference, cost, Reserved, rows, expires, None, None, None)];
      return None;
    }

    // The loop of `capture`: settles every row, or stops at one that is not backed.
    method SettleRows(rows: seq<Row>) returns (ok: bool)
      modifies this`buckets
      ensures ok <==> CanSettle(old(buckets), rows)
      ensures ok ==> buckets == Shift(old(buckets), rows, Settle)
    {
      ghost var bs := buckets;
      SettleStart(bs, rows);
      hide Settled, Shift, CanSettle;
      for i := 0 to |rows|
        invariant Settled(bs, rows, i, buckets)
      {
        var x := rows[i];
        SettleRound(bs, rows, i, buckets);
        if x.bucket >= |buckets| || buckets[x.bucket].reserved < x.amount { return false; }
        buckets := buckets[x.bucket := buckets[x.bucket].(reserved := buckets[x.bucket].reserved - x.amount)];
      }
      SettleEnd(bs, rows, buckets);
      return true;
    }

    // `capture`
    method CaptureReservation(id: Option<nat>, now: Time) returns (error: Option<Error>)
      requires Synced() && (id.Some? && id.value < |reservations| ==> reservations[id.value].amount != 0)
      modifies this`buckets, this`reservations, this`entries, this`journal
      ensures match CaptureBook(old(Book()), id, now)
        case Ok(next) => error == None && Synced() && Book() == next
        case Err(e) => error == Some(e)
    {
      if id.None? || id.value >= |reservations| || reservations[id.value].status == Captured { return None; }
      var r := reservations[id.value];
      if r.status != Reserved { return Some(ReservationNotCapturable); }
      var ok := SettleRows(r.rows);
      if !ok { return Some(ReservationCorrupt); }
      reservations := reservations[id.value := r.(status := Captured, capturedAt := Some(now))];
      error := AddLedgerEntry(r.account, -r.amount, CHARGE, CaptureKey(id.value), None, []);
    }

    // The loop of `release`.
    method ReturnRows(rows: seq<Row>)
      modifies this`buckets
      ensures buckets == Shift(old(buckets), rows, Return)
    {
      ghost var bs := buckets;
      assert rows[..0] == [];
      for i := 0 to |rows|
        invariant buckets == Shift(bs, rows[..i], Return)
      {
        var x := rows[i];
        ShiftAppend(bs, rows, i, Return);
        if x.bucket < |buckets| {
          buckets := buckets[x.bucket := buckets[x.bucket].(reserved := buckets[x.bucket].reserved - x.amount)];
          buckets := buckets[x.bucket := buckets[x.bucket].(available := buckets[x.bucket].available + x.amount)];
        }
      }
      assert rows[..|rows|] == rows;
    }

    // `release`
    method ReleaseReservation(id: Option<nat>, now: Time)
      requires Synced()
      modifies this`buckets, this`reservations
      ensures Synced() && Book() == ReleaseBook(old(Book()), id, now)
    {
      if id.None? || id.value >= |reservations| || reservations[id.value].status != Reserved { return; }
      var r := reservations[id.value];
      ReturnRows(r.rows);
      reservations := reservations[id.value := r.(status := Released, releasedAt := Some(now))];
    }

    // The loop of `refund`: live buckets are credited, the rest is summed up.
    method RestoreRows(rows: seq<Row>, now: Time) returns (adjustment: int)
      modifies this`buckets
      ensures buckets == Shift(old(buckets), Split(old(buckets), rows, now, true), Restore)
      ensures adjustment == Total(Split(old(buckets), rows, now, false))
    {
      ghost var bs := buckets;
      adjustment := 0;
      assert rows[..0] == [];
      for i := 0 to |rows|
        invariant buckets == Shift(bs, Split(bs, rows[..i], now, true), Restore)
        invariant adjustment == Total(Split(bs, rows[..i], now, false))
      {
        var x := rows[i];
        RestoreRound(bs, rows, i, now);
        hide Shift, Split, Total;
        if x.bucket < |buckets| && (buckets[x.bucket].expires.None? || buckets[x.bucket].expires.value > now) {
          buckets := buckets[x.bucket := buckets[x.bucket].(available := buckets[x.bucket].available + x.amount)];
        } else {
          adjustment := adjustment + x.amount;
        }
      }
      assert rows[..|rows|] == rows;
    }

    // `refund`
    method RefundReservation(id: nat, now: Time) returns (error: Option<Error>)
      requires Synced() && (id < |reservations| ==> reservations[id].amount != 0)
      modifies this`buckets, this`reservations, this`entries, this`journal
      ensures match RefundBook(old(Book()), id, now)
        case Ok(next) => error == None && Synced() && Book() == next
        case Err(e) => error == Some(e)
    {
      if id >= |reservations| { return Some(ReservationNotFound); }
      var r := reservations[id];
      UsedPosted(journal, r.account, RefundKey(id));
      if KeyUsed(entries, r.account, RefundKey(id)) { return None; }
      if r.status != Captured { return Some(ReservationNotRefundable); }
      var adjustment := RestoreRows(r.rows, now);
      hide Shift, Split, Total, Used, Balance;
      assert buckets + [] == buckets;
      if adjustment != 0 {
        buckets := buckets + [Bucket(r.account, AdjustmentBucket, RefundSource(id), adjustment, adjustment, 0, None)];
      }
      reservations := reservations[id := r.(status := Refunded, refundedAt := Some(now))];
      error := AddLedgerEntry(r.account, r.amount, REFUND, RefundKey(id), None, []);
    }

    // ---- Grants and adjustments ----

    // `_grant_bucket`
    method GrantCredits(a: Ref, kind: BucketType, source: Source, amount: int, expires: Option<Time>, key: Key)
      returns (r: Result<nat>)
      requires Synced()
      modifies this`buckets, this`entries, this`journal
      ensures match GrantBook(old(Book()), a, kind, source, amount, expires, key)
        case Ok((next, b)) => r == Ok(b) && Synced() && Book() == next
        case Err(e) => r == Err(e)
    {
      var existing := FindBucket(buckets, a, kind, source);
      if existing.Some? { return Ok(existing.value); }
      var id := |buckets|;
      buckets := buckets + [Bucket(a, kind, source, amount, amount, 0, expires)];
      var error := AddLedgerEntry(a, amount, GRANT, key, Some(id), []);
      if error.Some? { return Err(error.value); }
      return Ok(id);
    }

    // Take what bucket `b` has of the credits still needed.
    method TakeFrom(b: nat, needed: int) returns (amount: int)
      requires b < |buckets|
      modifies this`buckets
      ensures amount == Min(old(buckets)[b].available, needed)
      ensures buckets == if amount == 0 then old(buckets)
        else old(buckets)[b := Ledger.Adjust(old(buckets)[b], amount, Drain)]
    {
      amount := Min(buckets[b].available, needed);
      buckets := buckets[b := buckets[b].(available := buckets[b].available - amount)];
    }

    // The loop of `_apply_credit_adjustment` over the account's buckets; `taken` lists
    // what each gave.
    method TakeCredits(order: seq<nat>, amount: int) returns (ghost taken: seq<Row>)
      requires Distinct(order) && Drawable(buckets, order) && amount >= 0
      modifies this`buckets
      ensures taken == Greedy(old(buckets), order, amount) && buckets == Shift(old(buckets), taken, Drain)
    {
      ghost var bs := buckets;
      taken := [];
      var needed := amount;
      DrawStart(bs, order, amount, Drain);
      hide Greedy, Shift, Total, Drawn, Drawable, Distinct, Ledger.Adjust, Min;
      for i := 0 to |order|
        invariant Drawn(bs, order, amount, i, Drain, buckets, taken) && needed == amount - Total(taken)
      {
        DrawRound(bs, order, amount, i, Drain, buckets, taken);
        var b := order[i];
        var part := TakeFrom(b, needed);
        if part != 0 { taken := taken + [Row(b, part)]; }
        needed := needed - part;
        if needed == 0 {
          DrawEnd(bs, order, amount, i + 1, Drain, buckets, taken);
          return;
        }
      }
      DrawEnd(bs, order, amount, |order|, Drain, buckets, taken);
    }

    // `_apply_credit_adjustment`
    method ApplyCreditAdjustment(a: Ref, amount: int, adjustment: nat) returns (error: Option<Error>)
      requires Synced()
      modifies this`buckets, this`entries, this`journal
      ensures match AdjustBook(old(Book()), a, amount, adjustment)
        case Ok(next) => error == None && Synced() && Book() == next
        case Err(e) => error == Some(e)
    {
      var key := AdjustmentKey(adjustment);
      UsedPosted(journal, a, key);
      if KeyUsed(entries, a, key) { return None; }
      if amount > 0 {
        var id := |buckets|;
        buckets := buckets + [Bucket(a, AdjustmentBucket, AdjustmentSource(adjustment), amount, amount, 0, None)];
        error := AddLedgerEntry(a, amount, ADJUSTMENT, key, Some(id), []);
      } else {
        error := TakeAdjustment(a, -amount, key);
      }
    }

    // The negative branch of `_apply_credit_adjustment`.
    method TakeAdjustment(a: Ref, amount: int, key: Key) returns (error: Option<Error>)
      requires Synced() && amount >= 0
      modifies this`buckets, this`entries, this`journal
      ensures
        var order := CreationOrder(old(buckets), a, |old(buckets)|);
        if Offered(old(buckets), order) < amount then error == Some(AdjustmentExceedsBalance)
        else if amount == 0 then error == Some(ZeroLedgerEntry)
        else
          && error == None && Synced()
          && Book() == DrainMove(old(Book()), a, Greedy(old(buckets), order, amount), ADJUSTMENT, key, None)
    {
      var order := CreationOrder(buckets, a, |buckets|);
      CreationDraw(buckets, a, amount);
      hide CreationOrder, Offered, Greedy, Shift, Total, Balance, Used, Distinct, Drawable, Posted;
      if Offered(buckets, order) < amount { return Some(AdjustmentExceedsBalance); }
      ghost var taken := TakeCredits(order, amount);
      error := AddLedgerEntry(a, -amount, ADJUSTMENT, key, None, taken);
    }

    // ---- Reversal of credits ----

    // The loop of `_payment_reversed` over the reservations that hold the bucket's credits.
    method ReleaseHolding(b: nat, now: Time)
      requires Synced()
      modifies this`buckets, this`reservations
      ensures Synced() && Book() == ReleaseHolders(old(Book()), b, now)
    {
      var holders := Holders(reservations, b, |reservations|);
      assert holders[..0] == [];
      for i := 0 to |holders|
        invariant Synced() && Book() == ReleaseAll(old(Book()), holders[..i], now)
      {
        assert holders[..i + 1][..i] == holders[..i];
        hide ReleaseBook;
        ReleaseReservation(Some(holders[i]), now);
      }
      assert holders[..|holders|] == holders;
    }

    // ---- Accounts and the signup trial ----

    // `_account`
    method LockAccount(user: Ref) returns (error: Option<Error>)
      requires Synced()
      modifies this`accounts
      ensures Committed(EnsureAccount(old(Snapshot()), user), error)
    {
      if user in accounts { return None; }
      if user !in users { return Some(UserNotFound); }
      accounts := accounts[user := Account(Active, 0)];
      return None;
    }

    // `ensure_signup_trial`
    method EnsureSignupTrial(user: Ref, verified: bool, policy: Option<Policy>) returns (error: Option<Error>)
      requires Synced()
      modifies this`accounts, this`trials, this`buckets, this`entries, this`journal
      ensures Committed(EnsureTrial(old(Snapshot()), user, verified, policy), error)
    {
      if !verified { return None; }
      if policy.None? { return Some(TrialPolicyUnavailable); }
      if !policy.value.enabled || (user, policy.value.key) in trials { return None; }
      error := LockAccount(user);
      if error.None? { error := GrantTrial(user, policy.value); }
    }

    method GrantTrial(user: Ref, p: Policy) returns (error: Option<Error>)
      requires Synced()
      modifies this`trials, this`buckets, this`entries, this`journal
      ensures Committed(TrialGranted(old(Snapshot()), user, p), error)
    {
      hide GrantBook;
      var granted := GrantCredits(user, TrialBucket, TrialSource(p.id, user), p.credits, Some(clock + p.validFor),
        TrialKey(p.id, user));
      if granted.Err? { return Some(granted.error); }
      trials := trials + {(user, p.key)};
      return None;
    }

    // ---- Payments ----

    // Who paid for which offer, as `_payment_succeeded` looks it up.
    method FindPayee(event: Event) returns (r: Result<(Ref, Ref)>)
      ensures r == Payee(Snapshot(), event)
    {
      if event.kind == CheckoutCompleted {
        if event.checkout.None? || event.checkout.value !in checkouts { return Err(CheckoutSessionNotFound); }
        var checkout := checkouts[event.checkout.value];
        return Ok((checkout.user, checkout.offer));
      }
      if event.subscription.None? { return Err(SubscriptionIdRequired); }
      if event.subscription.value !in subscriptions { return Err(SubscriptionNotFound); }
      var subscription := subscriptions[event.subscription.value];
      return Ok((subscription.user, subscription.offer));
    }

    method CheckOffer(event: Event, id: Ref) returns (r: Result<Offer>)
      ensures r == PaidOffer(Snapshot(), event, id)
    {
      if id !in offers { return Err(BillingOfferNotFound); }
      if !event.amount.Given? { return Err(PaymentAmountRequired); }
      if event.amount.value != offers[id].amount || event.currency != offers[id].currency {
        return Err(PaymentAmountMismatch);
      }
      if event.offer.Some? && event.offer.value != id { return Err(PaymentOfferMismatch); }
      return Ok(offers[id]);
    }

    method RenewSubscription(event: Event, user: Ref, offer: Ref, period: Ref) returns (r: Result<Time>)
      modifies this`subscriptions
      ensures match Subscribe(old(Snapshot()), event, user, offer, period)
        case Ok((next, end)) => r == Ok(end) && Snapshot() == next
        case Err(e) => r == Err(e)
    {
      var periodStart, periodEnd := clock, 0;
      if event.start.Malformed? { return Err(InvalidPaymentTimestamp); }
      if event.start.Given? { periodStart := event.start.value; }
      periodEnd := periodStart + SUBSCRIPTION_PERIOD;
      if event.end.Malformed? { return Err(InvalidPaymentTimestamp); }
      if event.end.Given? { periodEnd := event.end.value; }
      var id := 0;
      if event.subscription.Some? {
        id := event.subscription.value;
      } else if event.checkout.Some? && event.checkout.value in checkouts {
        id := checkouts[event.checkout.value].id;
      }
      if id !in subscriptions {
        subscriptions := subscriptions[id := Subscription(user, offer, SubscriptionActive, period, periodStart,
          periodEnd)];
      }
      subscriptions := subscriptions[id := subscriptions[id].(
        status := SubscriptionActive, period := period, start := periodStart, end := periodEnd)];
      return Ok(periodEnd);
    }

    // The grant of `_payment_succeeded` and its reversal state.
    method GrantPaidCredits(id: Ref, period: Ref, user: Ref, offer: Offer, expires: Option<Time>)
      returns (error: Option<Error>)
      requires Synced()
      modifies this`buckets, this`entries, this`journal, this`payments
      ensures Committed(GrantPayment(old(Snapshot()), id, period, user, offer, expires), error)
    {
      hide GrantBook;
      var kind := if offer.kind == SubscriptionOffer then SubscriptionBucket else TopupBucket;
      var granted := GrantCredits(user, kind, PaymentSource(period), offer.credits, expires, PaymentKey(id));
      if granted.Err? { return Some(granted.error); }
      if period !in payments {
        payments := payments[period := ReversalState(granted.value, offer.amount, 0, 0)];
      } else if payments[period].bucket != granted.value || payments[period].original != offer.amount {
        return Some(PaymentReversalStateConflict);
      }
      return None;
    }

    // `_payment_succeeded`
    method ApplySuccess(id: Ref, event: Event) returns (error: Option<Error>)
      requires Synced()
      modifies this`accounts, this`subscriptions, this`buckets, this`entries, this`journal, this`payments,
        this`checkouts
      ensures Committed(PaymentSucceeded(old(Snapshot()), id, event), error)
    {
      hide Payee, PaidOffer, EnsureAccount, Subscribe, GrantPayment;
      var payee := FindPayee(event);
      if payee.Err? { return Some(payee.error); }
      var (user, offerId) := payee.value;
      var found := CheckOffer(event, offerId);
      if found.Err? { return Some(found.error); }
      var offer := found.value;
      error := LockAccount(user);
      if error.Some? { return; }
      var period := if event.period.Some? then event.period.value else id;
      if offer.kind == SubscriptionOffer && event.kind == SubscriptionRenewed && event.period.None? {
        return Some(BillingPeriodRequired);
      }
      var expires: Option<Time> := None;
      if offer.kind == SubscriptionOffer {
        var renewed := RenewSubscription(event, user, offerId, period);
        if renewed.Err? { return Some(renewed.error); }
        expires := Some(renewed.value);
      }
      error := GrantPaidCredits(id, period, user, offer, expires);
      if error.None? && event.kind == CheckoutCompleted && event.checkout.Some? && event.checkout.value in checkouts {
        checkouts := checkouts[event.checkout.value := checkouts[event.checkout.value].(completed := true)];
      }
    }

    // What a reversal could not take back becomes debt under review.
    method BookDebt(a: Ref, id: Ref, reason: EventType, due: int, period: Ref) returns (ok: bool)
      modifies this`accounts, this`reviews
      ensures ok <==> due == 0 || !Reviewed(old(reviews), id)
      ensures ok ==>
        accounts == Owed(old(accounts), a, due) && reviews == Listed(old(reviews), a, id, reason, due, period)
    {
      if due == 0 { return true; }
      if Reviewed(reviews, id) { return false; }
      var debt := if a in accounts then accounts[a].debt else 0;
      accounts := accounts[a := Account(Review, debt + due)];
      reviews := reviews + [DebtReview(a, id, reason, due, period)];
      return true;
    }

    // Take back what is unspent of the bucket and book the rest as debt.
    method TakeOrOwe(a: Ref, id: Ref, reason: EventType, period: Ref, b: nat, credits: int)
      returns (error: Option<Error>)
      requires Synced() && b < |buckets| && a == buckets[b].account
      modifies this`accounts, this`buckets, this`entries, this`journal, this`reviews
      ensures
        var unspent := Min(old(buckets)[b].available, credits);
        var due := Max(0, credits - unspent);
        if due != 0 && Reviewed(old(reviews), id) then error == Some(ReviewAlreadyRecorded)
        else
          && error == None && Synced() && Book() == TakeBack(old(Book()), b, unspent, id)
          && accounts == Owed(old(accounts), a, due) && reviews == Listed(old(reviews), a, id, reason, due, period)
    {
      hide TakeBack, Post, Owed, Listed, Reviewed;
      var unspent := Min(buckets[b].available, credits);
      TakeRow(Book(), b, unspent, id);
      buckets := buckets[b := buckets[b].(available := buckets[b].available - unspent)];
      var ok := BookDebt(a, id, reason, Max(0, credits - unspent), period);
      if !ok { return Some(ReviewAlreadyRecorded); }
      error := None;
      if unspent != 0 {
        error := AddLedgerEntry(a, -unspent, REVERSAL, ReversalKey(id), Some(b), [Row(b, unspent)]);
      }
    }

    // The second half of `_payment_reversed`: release, take back, book the rest as debt.
    method ReversePaidCredits(id: Ref, reason: EventType, period: Ref, b: nat, state: ReversalState, credits: int)
      returns (error: Option<Error>)
      requires Synced() && b < |buckets|
      modifies this`accounts, this`buckets, this`reservations, this`entries, this`journal, this`payments, this`reviews
      ensures Committed(ReverseCredits(old(Snapshot()), id, reason, period, b, state, credits), error)
    {
      ReversalParts(Snapshot(), id, reason, period, b, state, credits);
      hide ReverseCredits, ReleaseHolders, TakeBack, Owed, Listed, Reviewed, Posted;
      payments := payments[period := state];
      var a := buckets[b].account;
      ReleaseHolding(b, clock);
      error := TakeOrOwe(a, id, reason, period, b, credits);
    }

    // `_payment_reversed`; `origin` is the row its query for the original payment found.
    method ApplyReversal(id: Ref, event: Event) returns (error: Option<Error>, ghost origin: Option<Ref>)
      requires Synced()
      modifies this`accounts, this`buckets, this`reservations, this`entries, this`journal, this`payments, this`reviews
      ensures OriginOk(old(Snapshot()), event, origin)
      ensures Committed(PaymentReversed(old(Snapshot()), id, event, origin), error)
    {
      hide ReverseCredits, FindSource, Ceil;
      var recorded: Field<int> := Missing;
      origin := None;
      if o :| o in inbox && Matches(inbox[o].event, event) {
        origin, recorded := Some(o), inbox[o].event.amount;
      }
      var reversed := ReversedPeriod(event);
      if reversed.None? { return Some(PaymentPeriodRequired), origin; }
      var period := reversed.value;
      var found := FindSource(buckets, PaymentSource(period));
      if found.None? || found.value >= |buckets| { return Some(PaymentGrantNotFound), origin; }
      var b := found.value;
      var original := AmountOr(recorded, 0);
      if original.Err? { return Some(original.error), origin; }
      var amount := AmountOr(event.amount, original.value);
      if amount.Err? { return Some(amount.error), origin; }
      var state := if period in payments then payments[period] else ReversalState(b, original.value, 0, 0);
      if state.bucket != b || state.original != original.value { return Some(PaymentReversalStateConflict), origin; }
      var step := CumulativeReversal(state.original, buckets[b].granted, state.amount, state.credits, amount.value);
      if step.Err? { return Some(step.error), origin; }
      var (total, cumulative, credits) := step.value;
      error := ReversePaidCredits(id, event.kind, period, b, state.(amount := total, credits := cumulative), credits);
    }

    // `_apply_payment_event`
    method ApplyPaymentEvent(id: Ref, event: Event) returns (error: Option<Error>, ghost origin: Option<Ref>)
      requires Synced()
      modifies this`accounts, this`subscriptions, this`buckets, this`reservations, this`entries, this`journal,
        this`payments, this`checkouts, this`reviews
      ensures OriginOk(old(Snapshot()), event, origin)
      ensures Committed(ApplyEvent(old(Snapshot()), id, event, origin), error)
    {
      hide PaymentSucceeded, PaymentReversed;
      error, origin := None, None;
      if o :| o in inbox && Matches(inbox[o].event, event) { origin := Some(o); }
      match event.kind {
        case CheckoutCompleted => error := ApplySuccess(id, event);
        case SubscriptionRenewed => error := ApplySuccess(id, event);
        case PaymentRefunded => error, origin := ApplyReversal(id, event);
        case PaymentChargeback => error, origin := ApplyReversal(id, event);
        case SubscriptionEnded =>
          if event.subscription.Some? && event.subscription.value in subscriptions {
            var i := event.subscription.value;
            subscriptions := subscriptions[i := subscriptions[i].(status := SubscriptionCancelled)];
          }
        case Ignored =>
      }
    }

    // ---- Transactions ----

    // The tables are those of a run of the billing state machine, the one `history` tells.
    ghost predicate Valid()
      reads this
    {
      Synced() && OffersOk(offers) && Snapshot() == Run(Init(start, users, offers), history)
    }

    constructor (start: Time, users: set<Ref>, offers: map<Ref, Offer>)
      requires OffersOk(offers)
      ensures Valid() && Snapshot() == Init(start, users, offers) && history == []
    {
      this.start, this.users, this.offers, clock := start, users, offers, start;
      accounts, buckets, reservations, entries, trials := map[], [], [], [], {};
      checkouts, subscriptions, inbox, payments, reviews, adjustments := map[], map[], map[], map[], [], [];
      journal, history := [], [];
    }

    // `saved` holds the tables of `was`.
    ghost predicate Saves(saved: Tables, was: State) {
      && was.users == users && was.offers == offers && was.accounts == saved.accounts
      && was.book.buckets == saved.buckets && was.book.reservations == saved.reservations
        && saved.entries == Posted(was.book.journal)
      && was.trials == saved.trials && was.checkouts == saved.checkouts && was.subscriptions == saved.subscriptions
      && was.inbox == saved.inbox && was.payments == saved.payments && was.reviews == saved.reviews
      && was.adjustments == saved.adjustments
    }

    // A transaction begun at `now` from `before`, the state after `steps`.
    ghost predicate Open(saved: Tables, was: State, before: State, now: Time, steps: seq<Timed>) {
      && Saves(saved, was) && was == before.(clock := now) && before.clock <= now
      && OffersOk(offers) && before == Run(Init(start, users, offers), steps)
    }

    method BeginTransaction(now: Time) returns (saved: Tables, ghost was: State)
      requires Valid() && clock <= now
      modifies this`clock
      ensures clock == now && Open(saved, was, old(Snapshot()), now, history)
      ensures Snapshot() == was && Synced() && Inv(Book(), now)
    {
      hide Run, Init, Inv, Posted, OffersOk;
      RunInv(start, users, offers, history, now - clock);
      clock := now;
      was := Snapshot();
      saved := Tables(accounts, buckets, reservations, entries, trials, checkouts, subscriptions, inbox, payments,
        reviews, adjustments);
    }

    method Rollback(saved: Tables, ghost was: State)
      requires Saves(saved, was) && clock == was.clock
      modifies this
      ensures Snapshot() == was && Synced() && history == old(history)
    {
      RollbackBook(saved, was);
      RollbackPayments(saved);
      accounts, trials, adjustments := saved.accounts, saved.trials, saved.adjustments;
    }

    method RollbackBook(saved: Tables, ghost was: State)
      requires Saves(saved, was)
      modifies this`buckets, this`reservations, this`entries, this`journal
      ensures Book() == was.book && Synced()
    {
      buckets, reservations, entries := saved.buckets, saved.reservations, saved.entries;
      journal := was.book.journal;
    }

    method RollbackPayments(saved: Tables)
      modifies this`checkouts, this`subscriptions, this`inbox, this`payments, this`reviews
      ensures checkouts == saved.checkouts && subscriptions == saved.subscriptions && inbox == saved.inbox
      ensures payments == saved.payments && reviews == saved.reviews
    {
      checkouts, subscriptions, inbox := saved.checkouts, saved.subscriptions, saved.inbox;
      payments, reviews := saved.payments, saved.reviews;
    }

    // The call took the step `op` at `now`, and answered with its error, if any.
    ghost predicate Took(before: State, steps: seq<Timed>, now: Time, op: Op, error: Option<Error>)
      requires before.clock <= now
      reads this
    {
      && history == steps + [Timed(now - before.clock, op)]
      && Snapshot() == Step(before, now - before.clock, op)
      && error == Refusal(Execute(before.(clock := now), op))
    }

    method CommitOrRollback(saved: Tables, ghost was: State, ghost r: Result<State>, error: Option<Error>)
      requires Saves(saved, was) && clock == was.clock && Committed(r, error)
      modifies this
      ensures Synced() && history == old(history)
      ensures Snapshot() == if r.Ok? then r.value else was
    {
      hide Posted, Saves;
      if error.Some? { Rollback(saved, was); }
    }

    // Commits, or rolls back on an error; either way one step of the state machine is taken.
    method EndTransaction(saved: Tables, ghost was: State, ghost before: State, now: Time, ghost op: Op,
        error: Option<Error>)
      requires Open(saved, was, before, now, history) && clock == was.clock
      requires Committed(Execute(was, op), error)
      modifies this
      ensures Valid() && Took(before, old(history), now, op, error)
    {
      RunNext(Init(start, users, offers), history, Timed(now - before.clock, op));
      StepAt(before, now, op);
      hide Execute, Posted, Run, Step, Init, OffersOk, Committed;
      CommitOrRollback(saved, was, Execute(was, op), error);
      history := history + [Timed(now - before.clock, op)];
    }

    // ---- Spending ----

    method CaptureTables(id: Option<nat>) returns (error: Option<Error>)
      requires Synced() && Inv(Book(), clock)
      modifies this`buckets, this`reservations, this`entries, this`journal
      ensures Committed(Billing.Capture(old(Snapshot()), id), error)
    {
      AmountsPositive(Book(), clock);
      hide Inv, CaptureBook, Posted;
      error := CaptureReservation(id, clock);
    }

    // `capture`
    method Capture(id: Option<nat>, now: Time) returns (error: Option<Error>)
      requires Valid() && clock <= now
      modifies this
      ensures Valid() && Took(old(Snapshot()), old(history), now, CaptureOp(id), error)
    {
      ghost var before := Snapshot();
      var saved, was := BeginTransaction(now);
      assert Execute(was, CaptureOp(id)) == Billing.Capture(was, id);
      hide Inv, Run, Open, Took, Posted, Execute, Committed, Billing.Capture;
      error := CaptureTables(id);
      EndTransaction(saved, was, before, now, CaptureOp(id), error);
    }

    // `release`
    method Release(id: Option<nat>, now: Time)
      requires Valid() && clock <= now
      modifies this
      ensures Valid() && Took(old(Snapshot()), old(history), now, ReleaseOp(id), None)
    {
      ghost var before := Snapshot();
      var saved, was := BeginTransaction(now);
      hide Inv, ReleaseBook, Run, Open, Took, Posted;
      ReleaseReservation(id, now);
      EndTransaction(saved, was, before, now, ReleaseOp(id), None);
    }

    method RefundTables(id: nat) returns (error: Option<Error>)
      requires Synced() && Inv(Book(), clock)
      modifies this`buckets, this`reservations, this`entries, this`journal
      ensures Committed(Billing.Refund(old(Snapshot()), id), error)
    {
      AmountsPositive(Book(), clock);
      hide Inv, RefundBook, Posted;
      error := RefundReservation(id, clock);
    }

    // `refund`
    method Refund(id: nat, now: Time) returns (error: Option<Error>)
      requires Valid() && clock <= now
      modifies this
      ensures Valid() && Took(old(Snapshot()), old(history), now, RefundOp(id), error)
    {
      ghost var before := Snapshot();
      var saved, was := BeginTransaction(now);
      assert Execute(was, RefundOp(id)) == Billing.Refund(was, id);
      hide Inv, Run, Open, Took, Posted, Execute, Committed, Billing.Refund;
      error := RefundTables(id);
      EndTransaction(saved, was, before, now, RefundOp(id), error);
    }

    // `reserve`; the catalog's price for the feature is `quote`.
    method ReserveFeature(user: Ref, verified: bool, policy: Option<Policy>, quote: Quote, minutes: nat,
        reference: Reference,
                          expires: Option<Time>) returns (error: Option<Error>)
      requires Synced()
      modifies this`accounts, this`trials, this`buckets, this`reservations, this`entries, this`journal
      ensures Committed(Billing.Reserve(old(Snapshot()), user, verified, policy, quote, minutes, reference, expires),
        error)
    {
      hide EnsureTrial, FindReference, ReserveBook, Posted;
      error := EnsureSignupTrial(user, verified, policy);
      if error.Some? { return; }
      if quote.NoCatalog? { return Some(BillingCatalogUnavailable); }
      if quote.NoPrice? { return Some(FeaturePricingUnavailable); }
      if quote.maxMinutes != 0 && minutes > quote.maxMinutes { return Some(FeatureLimitExceeded); }
      if quote.cost == 0 || FindReference(reservations, reference).Some? { return None; }
      error := LockAccount(user);
      if error.Some? { return; }
      if accounts[user].status != Active { return Some(CreditAccountRestricted); }
      var until := if expires.Some? then expires.value else clock + RESERVATION_TTL;
      error := ReserveCredits(user, quote.cost, reference, until, clock);
    }

    method Reserve(user: Ref, verified: bool, policy: Option<Policy>, quote: Quote, minutes: nat, reference: Reference,
                   expires: Option<Time>, now: Time) returns (error: Option<Error>)
      requires Valid() && clock <= now
      modifies this
      ensures Valid()
      ensures Took(old(Snapshot()), old(history), now,
        ReserveOp(user, verified, policy, quote, minutes, reference, expires), error)
    {
      ghost var before := Snapshot();
      var saved, was := BeginTransaction(now);
      assert Execute(was, ReserveOp(user, verified, policy, quote, minutes, reference, expires)) ==
        Billing.Reserve(was, user, verified, policy, quote, minutes, reference, expires);
      hide Inv, Run, Open, Took, Posted, Execute, Committed, Billing.Reserve;
      error := ReserveFeature(user, verified, policy, quote, minutes, reference, expires);
      EndTransaction(saved, was, before, now, ReserveOp(user, verified, policy, quote, minutes, reference, expires),
        error);
    }

    // One reservation of `reconcile_expired_reservations`.
    method SettleDueReservation(id: nat, outcome: Outcome) returns (error: Option<Error>)
      requires Synced() && Inv(Book(), clock)
      modifies this`buckets, this`reservations, this`entries, this`journal
      ensures Committed(SettleDue(old(Snapshot()), id, outcome), error)
    {
      hide Inv, Billing.Capture, ReleaseBook, Posted;
      error := None;
      if id >= |reservations| || reservations[id].status != Status.Reserved || reservations[id].expires > clock {
        return;
      }
      match outcome {
        case CaptureIt => error := CaptureTables(Some(id));
        case ReleaseIt => ReleaseReservation(Some(id), clock);
        case DeferIt => reservations := reservations[id := reservations[id].(expires := clock + DEFER_BY)];
      }
    }

    method ReconcileExpired(id: nat, outcome: Outcome, now: Time) returns (error: Option<Error>)
      requires Valid() && clock <= now
      modifies this
      ensures Valid() && Took(old(Snapshot()), old(history), now, SettleOp(id, outcome), error)
    {
      ghost var before := Snapshot();
      var saved, was := BeginTransaction(now);
      assert Execute(was, SettleOp(id, outcome)) == SettleDue(was, id, outcome);
      hide Inv, Run, Open, Took, Posted, Execute, Committed, SettleDue;
      error := SettleDueReservation(id, outcome);
      EndTransaction(saved, was, before, now, SettleOp(id, outcome), error);
    }

    // The writes of `credit_account`.
    method RefreshAccount(user: Ref, verified: bool, policy: Option<Policy>) returns (error: Option<Error>)
      requires Synced()
      modifies this`accounts, this`trials, this`buckets, this`entries, this`journal
      ensures Committed(View(old(Snapshot()), user, verified, policy), error)
    {
      hide EnsureTrial, CreditOps.ExpireBuckets;
      error := EnsureSignupTrial(user, verified, policy);
      if error.None? { error := LockAccount(user); }
      if error.None? { ExpireBuckets(user, clock); }
    }

    method ViewAccount(user: Ref, verified: bool, policy: Option<Policy>, now: Time) returns (error: Option<Error>)
      requires Valid() && clock <= now
      modifies this
      ensures Valid() && Took(old(Snapshot()), old(history), now, ViewOp(user, verified, policy), error)
    {
      ghost var before := Snapshot();
      var saved, was := BeginTransaction(now);
      assert Execute(was, ViewOp(user, verified, policy)) == View(was, user, verified, policy);
      hide Inv, Run, Open, Took, Posted, Execute, Committed, View;
      error := RefreshAccount(user, verified, policy);
      EndTransaction(saved, was, before, now, ViewOp(user, verified, policy), error);
    }

    // ---- Checkouts and the payment inbox ----

    // A provider checkout session of this service.
    method CreateCheckout(session: Ref, checkout: Checkout, now: Time)
      requires Valid() && clock <= now
      modifies this
      ensures Valid() && Took(old(Snapshot()), old(history), now, CheckoutOp(session, checkout), None)
    {
      ghost var before := Snapshot();
      var saved, was := BeginTransaction(now);
      hide Inv, Run, Open, Took, Posted;
      if session !in checkouts { checkouts := checkouts[session := checkout]; }
      EndTransaction(saved, was, before, now, CheckoutOp(session, checkout), None);
    }

    // First commit of `process_webhook`.
    method ReceiveEvent(id: Ref, event: Event, hash: Ref, now: Time) returns (error: Option<Error>)
      requires Valid() && clock <= now
      modifies this
      ensures Valid() && Took(old(Snapshot()), old(history), now, DeliverOp(id, event, hash), error)
    {
      ghost var before := Snapshot();
      var saved, was := BeginTransaction(now);
      hide Inv, Run, Open, Took, Posted;
      error := None;
      if id !in inbox {
        inbox := inbox[id := InboxRow(event, hash, InboxStatus.Received, 0)];
      } else if inbox[id].hash != hash {
        error := Some(PaymentEventConflict);
      } else if inbox[id].status != Processed && inbox[id].status != Processing {
        inbox := inbox[id := inbox[id].(status := InboxStatus.Received)];
      }
      EndTransaction(saved, was, before, now, DeliverOp(id, event, hash), error);
    }

    // Second commit of `process_webhook`.
    method StartEvent(id: Ref, now: Time) returns (error: Option<Error>)
      requires Valid() && clock <= now
      modifies this
      ensures Valid() && Took(old(Snapshot()), old(history), now, BeginOp(id), error)
    {
      ghost var before := Snapshot();
      var saved, was := BeginTransaction(now);
      hide Inv, Run, Open, Took, Posted;
      error := if id in inbox then None else Some(PaymentEventNotReceived);
      if id in inbox {
        inbox := inbox[id := inbox[id].(status := Processing, startedAt := clock)];
      }
      EndTransaction(saved, was, before, now, BeginOp(id), error);
    }

    // First commit of `_process_reconciled_event`.
    method TakeOverEvent(id: Ref, event: Event, hash: Ref, now: Time)
      requires Valid() && clock <= now
      modifies this
      ensures Valid() && Took(old(Snapshot()), old(history), now, ReconcileOp(id, event, hash), None)
    {
      ghost var before := Snapshot();
      var saved, was := BeginTransaction(now);
      hide Inv, Run, Open, Took, Posted;
      if id !in inbox || inbox[id].status != Processed {
        var row := if id in inbox then inbox[id] else InboxRow(event, hash, Processing, clock);
        inbox := inbox[id := row.(status := Processing, startedAt := clock)];
      }
      EndTransaction(saved, was, before, now, ReconcileOp(id, event, hash), None);
    }

    // The event's effect with "processed", or "failed" alone.
    method FinishTables(id: Ref, event: Event, saved: Tables, ghost was: State)
      returns (error: Option<Error>, failure: Option<Error>, ghost origin: Option<Ref>)
      requires Snapshot() == was && Synced() && Saves(saved, was)
      modifies this
      ensures id in was.inbox ==> OriginOk(was, event, origin)
      ensures Committed(Finish(was, id, event, origin), error) && clock == was.clock && history == old(history)
      ensures id in was.inbox ==> failure == Refusal(ApplyEvent(was, id, event, origin))
    {
      hide ApplyEvent, Posted, Saves, OriginOk;
      error, failure, origin := None, None, None;
      if id !in inbox { return Some(PaymentEventNotReceived), None, None; }
      failure, origin := ApplyPaymentEvent(id, event);
      if failure.Some? {
        Rollback(saved, was);
        inbox := inbox[id := inbox[id].(status := Failed)];
      } else {
        inbox := inbox[id := inbox[id].(status := Processed)];
      }
    }

    // Last commit of either path, by a worker that holds `event`; `failure` is what applying
    // it raised.
    method CompleteEvent(id: Ref, event: Event, now: Time)
      returns (error: Option<Error>, failure: Option<Error>, ghost origin: Option<Ref>)
      requires Valid() && clock <= now && KeepsPeriod(Snapshot(), id, event)
      modifies this
      ensures Valid() && Took(old(Snapshot()), old(history), now, FinishOp(id, event, origin), error)
      ensures id in old(inbox) ==> failure == Refusal(ApplyEvent(old(Snapshot()).(clock := now), id, event, origin))
    {
      ghost var before := Snapshot();
      var saved, was := BeginTransaction(now);
      assert Saves(saved, was);
      hide Inv, Run, Open, Took, Posted, Saves, Finish, ApplyEvent, OriginOk;
      error, failure, origin := FinishTables(id, event, saved, was);
      EndTransaction(saved, was, before, now, FinishOp(id, event, origin), error);
    }

    // ---- Administrative adjustments ----

    method ExecuteCreditAdjustment(target: Ref, amount: int, id: nat) returns (error: Option<Error>)
      requires Synced()
      modifies this`accounts, this`buckets, this`entries, this`journal
      ensures Committed(ExecuteAdjustment(old(Snapshot()), target, amount, id), error)
    {
      hide AdjustBook;
      error := LockAccount(target);
      if error.None? { error := ApplyCreditAdjustment(target, amount, id); }
    }

    // `request_credit_adjustment`
    method RequestTables(actor: Ref, target: Ref, amount: int, dual: bool) returns (error: Option<Error>)
      requires Synced()
      modifies this`accounts, this`buckets, this`entries, this`journal, this`adjustments
      ensures Committed(RequestAdjustment(old(Snapshot()), actor, target, amount, dual), error)
    {
      hide ExecuteAdjustment;
      if amount == 0 { return Some(ZeroCreditAdjustment); }
      if target !in users { return Some(UserNotFound); }
      var id := |adjustments|;
      adjustments := adjustments + [Adjustment(actor, target, amount, if dual then Pending else Executed, dual, None)];
      error := None;
      if !dual { error := ExecuteCreditAdjustment(target, amount, id); }
    }

    method RequestCreditAdjustment(actor: Ref, target: Ref, amount: int, dual: bool, now: Time)
      returns (error: Option<Error>)
      requires Valid() && clock <= now
      modifies this
      ensures Valid() && Took(old(Snapshot()), old(history), now, RequestOp(actor, target, amount, dual), error)
    {
      ghost var before := Snapshot();
      var saved, was := BeginTransaction(now);
      assert Execute(was, RequestOp(actor, target, amount, dual)) ==
        RequestAdjustment(was, actor, target, amount, dual);
      hide Inv, Run, Open, Took, Posted, Execute, Committed, RequestAdjustment;
      error := RequestTables(actor, target, amount, dual);
      EndTransaction(saved, was, before, now, RequestOp(actor, target, amount, dual), error);
    }

    method FindDecidable(id: nat, actor: Ref) returns (r: Result<Adjustment>)
      ensures r == Decidable(Snapshot(), id, actor)
    {
      if id >= |adjustments| { return Err(AdjustmentNotFound); }
      if adjustments[id].status != Pending { return Err(AdjustmentAlreadyDecided); }
      if adjustments[id].requester == actor { return Err(SelfApprovalForbidden); }
      return Ok(adjustments[id]);
    }

    // `approve_credit_adjustment`
    method ApproveTables(id: nat, actor: Ref) returns (error: Option<Error>)
      requires Synced()
      modifies this`accounts, this`buckets, this`entries, this`journal, this`adjustments
      ensures Committed(ApproveAdjustment(old(Snapshot()), id, actor), error)
    {
      var found := FindDecidable(id, actor);
      if found.Err? { return Some(found.error); }
      adjustments := adjustments[id := adjustments[id].(status := Executed, decider := Some(actor))];
      hide ExecuteAdjustment;
      error := ExecuteCreditAdjustment(found.value.target, found.value.amount, id);
    }

    method ApproveCreditAdjustment(id: nat, actor: Ref, now: Time) returns (error: Option<Error>)
      requires Valid() && clock <= now
      modifies this
      ensures Valid() && Took(old(Snapshot()), old(history), now, ApproveOp(id, actor), error)
    {
      ghost var before := Snapshot();
      var saved, was := BeginTransaction(now);
      assert Execute(was, ApproveOp(id, actor)) == ApproveAdjustment(was, id, actor);
      hide Inv, Run, Open, Took, Posted, Execute, Committed, ApproveAdjustment;
      error := ApproveTables(id, actor);
      EndTransaction(saved, was, before, now, ApproveOp(id, actor), error);
    }

    // `reject_credit_adjustment`
    method RejectCreditAdjustment(id: nat, actor: Ref, now: Time) returns (error: Option<Error>)
      requires Valid() && clock <= now
      modifies this
      ensures Valid() && Took(old(Snapshot()), old(history), now, RejectOp(id, actor), error)
    {
      ghost var before := Snapshot();
      var saved, was := BeginTransaction(now);
      hide Inv, Run, Open, Took, Posted;
      var found := FindDecidable(id, actor);
      error := if found.Err? then Some(found.error) else None;
      if found.Ok? {
        adjustments := adjustments[id := adjustments[id].(status := Rejected, decider := Some(actor))];
      }
      EndTransaction(saved, was, before, now, RejectOp(id, actor), error);
    }
  }
}
