/** Exactly which operations make the ledger and the balance drift apart: those whose
entry `_ledger` drops because its key was used. The condition reads the state before the
operation. */
module Dropped {
  import opened Prelude
  import opened Ledger
  import opened LedgerInvariants
  import opened LedgerMoves
  import opened CreditOps
  import opened CreditLaws
  import opened Reversal
  import opened Billing
  import opened BillingLaws
  import opened CleanRuns
  import opened Guarantees
  import opened ReservationRuns

  // ---- The condition ----

  // A sweep of account `a` would empty bucket `b` once more.
  predicate SweptAgain(k: Book, a: Ref, now: Time, b: nat)
    requires b < |k.buckets|
  {
    k.buckets[b].account == a && Expired(k.buckets[b].expires, now) && k.buckets[b].available > 0 && SweptBefore(k, b)
  }

  predicate SweepDrops(k: Book, a: Ref, now: Time) {
    exists b :: 0 <= b < |k.buckets| && SweptAgain(k, a, now, b)
  }

  // The account whose expired buckets the operation sweeps when it commits.
  function Sweeps(s: State, op: Op): Option<Ref> {
    match op
    case ReserveOp(user, verified, policy, quote, minutes, reference, expires) =>
      if quote.Price? && quote.cost != 0 && Fresh(s.book.reservations, reference) then Some(user)
        else None
    case ViewOp(user, verified, policy) => Some(user)
    case _ => None
  }

  predicate IsReversal(kind: EventType) {
    kind == PaymentRefunded || kind == PaymentChargeback
  }

  // The reversal takes credits back under the key of an earlier application.
  predicate ReversalDrops(s: State, id: Ref, event: Event, origin: Option<Ref>, a: Ref) {
    IsReversal(event.kind) && PaymentReversed(s, id, event, origin).Ok? &&
    var plan := PlanReversal(s, event, origin).value;
    var bucket := s.book.buckets[plan.bucket];
    bucket.account == a && Used(s.book.journal, a, ReversalKey(id)) && plan.credits > 0
      && bucket.available + bucket.reserved > 0
  }

  predicate Drops(s: State, op: Op, a: Ref) {
    && Execute(s, op).Ok?
    && match op
       case FinishOp(id, event, origin) =>
         && id in s.inbox && OriginOk(s, event, origin) && KeepsPeriod(s, id, event)
         && ReversalDrops(s, id, event, origin, a)
       case _ => Sweeps(s, op) == Some(a) && SweepDrops(s.book, a, s.clock)
  }

  // ---- Operations that always get their entry ----

  // `next` has at most one more entry, under a key that is never repeated.
  ghost predicate Plain(j: seq<Item>, next: seq<Item>) {
    && |j| <= |next| <= |j| + 1 && next[..|j|] == j
    && (|next| > |j| ==> next[|j|].entry.kind != EXPIRE && next[|j|].entry.kind != REVERSAL)
  }

  lemma PlainSame(j: seq<Item>, next: seq<Item>, a: Ref)
    requires Plain(j, next) && SilentOk(next)
    ensures Unjournaled(next, a) == Unjournaled(j, a)
  {
    if |next| > |j| {
      UnjournaledAppend(j, next[|j|], a);
      assert next == j + [next[|j|]];
    } else {
      assert next == j;
    }
  }

  lemma BookPlain(k: Book, now: Time)
    ensures forall id :: CaptureBook(k, id, now).Ok? ==> Plain(k.journal, CaptureBook(k, id, now).value.journal)
    ensures forall id :: RefundBook(k, id, now).Ok? ==> Plain(k.journal, RefundBook(k, id, now).value.journal)
    ensures forall id :: ReleaseBook(k, id, now).journal == k.journal
  {
    hide Balance, Used, Shift, RefundBuckets, CanSettle;
  }

  lemma GrantPlain(k: Book, a: Ref, kind: BucketType, source: Source, amount: int, expires: Option<Time>, key: Key)
    requires GrantBook(k, a, kind, source, amount, expires, key).Ok?
    ensures Plain(k.journal, GrantBook(k, a, kind, source, amount, expires, key).value.0.journal)
  {
    hide Balance, Used, FindBucket;
  }

  lemma AdjustPlain(k: Book, a: Ref, amount: int, n: nat)
    requires AdjustBook(k, a, amount, n).Ok?
    ensures Plain(k.journal, AdjustBook(k, a, amount, n).value.journal)
  {
    hide Balance, Used, Shift, CreationOrder, Offered, Greedy, Total;
  }

  lemma SucceededPlain(s: State, id: Ref, event: Event)
    requires PaymentSucceeded(s, id, event).Ok?
    ensures Plain(s.book.journal, PaymentSucceeded(s, id, event).value.book.journal)
  {
    hide PaymentSucceeded, Payee, GrantBook, Plain;
    var mid, user, offer, expires := SucceededShape(s, id, event);
    var kind := if offer.kind == SubscriptionOffer then SubscriptionBucket else TopupBucket;
    GrantPlain(s.book, user, kind, PaymentSource(PeriodOf(event, id)), offer.credits, expires, PaymentKey(id));
  }

  // ---- Sweeps ----

  lemma ExpireOneOther(k: Book, b: nat, a: Ref)
    requires b < |k.buckets| && k.buckets[b].account != a
    ensures Unjournaled(ExpireOne(k, b).journal, a) == Unjournaled(k.journal, a)
    ensures Extends(k.buckets, ExpireOne(k, b).buckets)
  {
    UnjournaledAppend(k.journal, ExpireOne(k, b).journal[|k.journal|], a);
    ShiftOne(k.buckets, Row(b, k.buckets[b].available), Drain);
  }

  // Sweeping one account drops no entry of another.
  lemma {:induction false} SweepOther(k: Book, ids: seq<nat>, user: Ref, a: Ref)
    requires a != user && forall i :: 0 <= i < |ids| ==> ids[i] < |k.buckets| && k.buckets[ids[i]].account == user
    ensures Unjournaled(ExpireAll(k, ids).journal, a) == Unjournaled(k.journal, a)
    ensures Extends(k.buckets, ExpireAll(k, ids).buckets)
  {
    hide ExpireOne, Unjournaled;
    if |ids| > 0 {
      var init, b := ids[..|ids| - 1], ids[|ids| - 1];
      SweepOther(k, init, user, a);
      ExpireOneOther(ExpireAll(k, init), b, a);
    }
  }

  lemma SweepStep(k: Book, now: Time, user: Ref, a: Ref)
    requires Inv(k, now)
    ensures Unjournaled(ExpireBuckets(k, user, now).journal, a) >= Unjournaled(k.journal, a)
    ensures Unjournaled(ExpireBuckets(k, user, now).journal, a) > Unjournaled(k.journal, a) <==>
      a == user && SweepDrops(k, a, now)
  {
    if a == user {
      SweepExact(k, now, a);
      hide Inv, ExpireBuckets, Unjournaled, SweptBefore;
      if Unjournaled(ExpireBuckets(k, a, now).journal, a) == Unjournaled(k.journal, a) {
        assert forall b :: 0 <= b < |k.buckets| ==> !SweptAgain(k, a, now, b);
      } else {
        var b :| 0 <= b < |k.buckets| && k.buckets[b].account == a && Expired(k.buckets[b].expires, now)
          && k.buckets[b].available > 0 && SweptBefore(k, b);
        assert SweptAgain(k, a, now, b);
      }
    } else {
      ExpiredIdsInRange(k.buckets, user, now, |k.buckets|);
      SweepOther(k, ExpiredIds(k.buckets, user, now, |k.buckets|), user, a);
    }
  }

  // A trial grant does not change what a sweep would drop.
  lemma TrialSweeps(k: Book, now: Time, b: Bucket, key: Key, a: Ref)
    requires Inv(k, now) && key.TrialKey?
    ensures SweepDrops(AddGrant(k, b, GRANT, key), a, now) <==> SweepDrops(k, a, now)
  {
    var next := AddGrant(k, b, GRANT, key);
    var n := |k.buckets|;
    forall c | 0 <= c <= n
      ensures c < n ==> SweptBefore(next, c) == SweptBefore(k, c) && next.buckets[c] == k.buckets[c]
    {
      UsedAppend(k.journal, next.journal[|k.journal|], next.buckets[c].account, ExpireKey(c));
    }
    UsedAppend(k.journal, next.journal[|k.journal|], b.account, ExpireKey(n));
    FreshUnswept(k, now, b.account);
    if SweepDrops(k, a, now) {
      var c :| 0 <= c < n && SweptAgain(k, a, now, c);
      assert SweptAgain(next, a, now, c);
    }
    if SweepDrops(next, a, now) {
      var c :| 0 <= c < |next.buckets| && SweptAgain(next, a, now, c);
      assert c < n && SweptAgain(k, a, now, c);
    }
  }

  lemma FreshUnswept(k: Book, now: Time, a: Ref)
    requires Inv(k, now)
    ensures !Used(k.journal, a, ExpireKey(|k.buckets|))
  {
    forall i | 0 <= i < |k.journal| && k.journal[i].entry.key.ExpireKey?
      ensures k.journal[i].entry.key.bucket < |k.buckets|
    {
      assert Shaped(k.journal[i]);
    }
  }

  lemma EnsureTrialSweeps(s: State, user: Ref, verified: bool, policy: Option<Policy>, a: Ref)
    requires SInv(s) && EnsureTrial(s, user, verified, policy).Ok?
    ensures
      var next := EnsureTrial(s, user, verified, policy).value;
      && Plain(s.book.journal, next.book.journal) && next.book.reservations == s.book.reservations
      && (SweepDrops(next.book, a, s.clock) <==> SweepDrops(s.book, a, s.clock))
  {
    hide SInv, Inv, SweepDrops, FindBucket, Balance, Used;
    BookInv(s);
    if verified && policy.Some? && policy.value.enabled && (user, policy.value.key) !in s.trials {
      var p := policy.value;
      GrantPlain(s.book, user, TrialBucket, TrialSource(p.id, user), p.credits, Some(s.clock + p.validFor),
        TrialKey(p.id, user));
      TrialSweeps(s.book, s.clock, Bucket(user, TrialBucket, TrialSource(p.id, user), p.credits, p.credits, 0,
        Some(s.clock + p.validFor)),
                  TrialKey(p.id, user), a);
    }
  }

  lemma ReserveDrops(s: State, user: Ref, verified: bool, policy: Option<Policy>, quote: Quote, minutes: nat,
                     reference: Reference, expires: Option<Time>, a: Ref)
    requires SInv(s) && Reserve(s, user, verified, policy, quote, minutes, reference, expires).Ok?
    ensures
      var next := Reserve(s, user, verified, policy, quote, minutes, reference, expires).value;
      var sweeps := user == a && quote.cost != 0 && Fresh(s.book.reservations, reference);
      && quote.Price?
      && Unjournaled(next.book.journal, a) >= Unjournaled(s.book.journal, a)
      && (Unjournaled(next.book.journal, a) > Unjournaled(s.book.journal, a) <==>
        sweeps && SweepDrops(s.book, a, s.clock))
  {
    FindReferenceCorrect(s.book.reservations, reference);
    hide SInv, Inv, EnsureTrial, EnsureAccount, SweepDrops, FindReference, Fresh, ReserveBook, ExpireBuckets;
    hide Unjournaled, Plain, SilentOk;
    TrialDrops(s, user, verified, policy, a);
    var s1 := EnsureTrial(s, user, verified, policy).value;
    if quote.cost != 0 && FindReference(s1.book.reservations, reference).None? {
      AccountDrops(s1, user, a);
      var s2 := EnsureAccount(s1, user).value;
      var until := if expires.Some? then expires.value else s.clock + RESERVATION_TTL;
      ReservedJournal(s2.book, user, quote.cost, reference, until, s.clock);
    }
  }

  lemma TrialDrops(s: State, user: Ref, verified: bool, policy: Option<Policy>, a: Ref)
    requires SInv(s) && EnsureTrial(s, user, verified, policy).Ok?
    ensures
      var next := EnsureTrial(s, user, verified, policy).value;
      && SInv(next) && next.clock == s.clock && next.book.reservations == s.book.reservations
      && Unjournaled(next.book.journal, a) == Unjournaled(s.book.journal, a)
      && (SweepDrops(next.book, a, s.clock) <==> SweepDrops(s.book, a, s.clock))
  {
    hide SInv, EnsureTrial, SweepDrops, Unjournaled, Plain, SilentOk;
    EnsureTrialKeeps(s, user, verified, policy);
    EnsureTrialSweeps(s, user, verified, policy, a);
    var next := EnsureTrial(s, user, verified, policy).value;
    SilentEntries(next);
    PlainSame(s.book.journal, next.book.journal, a);
  }

  // The account is there, and the sweep of its buckets drops what the condition says.
  lemma AccountDrops(s: State, user: Ref, a: Ref)
    requires SInv(s) && EnsureAccount(s, user).Ok?
    ensures EnsureAccount(s, user).value.book == s.book && EnsureAccount(s, user).value.clock == s.clock
    ensures
      var j := ExpireBuckets(s.book, user, s.clock).journal;
      && Unjournaled(j, a) >= Unjournaled(s.book.journal, a)
      && (Unjournaled(j, a) > Unjournaled(s.book.journal, a) <==> a == user && SweepDrops(s.book, a, s.clock))
  {
    hide SInv, Inv, SweepDrops, Unjournaled, ExpireBuckets;
    BookInv(s);
    SweepStep(s.book, s.clock, user, a);
  }

  lemma ReservedJournal(k: Book, a: Ref, cost: int, reference: Reference, expires: Time, now: Time)
    ensures ReserveBook(k, a, cost, reference, expires, now).Ok? ==>
      ReserveBook(k, a, cost, reference, expires, now).value.journal == ExpireBuckets(k, a, now).journal
  {
    hide ExpireBuckets, ReserveOrder, Greedy, Offered, Shift;
  }

  lemma SilentEntries(s: State)
    requires SInv(s)
    ensures SilentOk(s.book.journal)
  {}

  lemma ViewDrops(s: State, user: Ref, verified: bool, policy: Option<Policy>, a: Ref)
    requires SInv(s) && View(s, user, verified, policy).Ok?
    ensures
      var next := View(s, user, verified, policy).value;
      && Unjournaled(next.book.journal, a) >= Unjournaled(s.book.journal, a)
      && (Unjournaled(next.book.journal, a) > Unjournaled(s.book.journal, a) <==>
        user == a && SweepDrops(s.book, a, s.clock))
  {
    hide SInv, EnsureTrial, EnsureAccount, SweepDrops, ExpireBuckets, Unjournaled;
    TrialDrops(s, user, verified, policy, a);
    AccountDrops(EnsureTrial(s, user, verified, policy).value, user, a);
  }

  // ---- Reversals ----

  // Taking credits back drops exactly what it takes under a used key.
  lemma TakeBackDrops(k: Book, b: nat, unspent: int, event: Ref, a: Ref)
    requires b < |k.buckets|
    ensures Unjournaled(TakeBack(k, b, unspent, event).journal, a) == Unjournaled(k.journal, a) +
      if k.buckets[b].account == a && Used(k.journal, a, ReversalKey(event)) then unspent else 0
  {
    if unspent != 0 {
      OneRow([Row(b, unspent)]);
      UnjournaledAppend(k.journal, TakeBack(k, b, unspent, event).journal[|k.journal|], a);
      hide Used, Balance, Shift, Total;
    }
  }

  lemma {:induction false} SameTally(rs: seq<Reservation>, next: seq<Reservation>, b: nat, sel: Selector)
    requires |rs| == |next| && forall r :: 0 <= r < |rs| ==> Part(next[r], b, sel) == Part(rs[r], b, sel)
    ensures Tally(next, b, sel) == Tally(rs, b, sel)
  {
    if |rs| > 0 { SameTally(rs[..|rs| - 1], next[..|next| - 1], b, sel); }
  }

  // Releasing its holders makes everything a bucket still holds available.
  lemma ReleasedAvailable(k: Book, now: Time, b: nat)
    requires Inv(k, now) && b < |k.buckets|
    ensures ReleaseHolders(k, b, now).journal == k.journal && |ReleaseHolders(k, b, now).buckets| == |k.buckets|
    ensures ReleaseHolders(k, b, now).buckets[b].account == k.buckets[b].account
    ensures ReleaseHolders(k, b, now).buckets[b].available == k.buckets[b].available + k.buckets[b].reserved
  {
    var next := ReleaseHolders(k, b, now);
    ReleaseHoldersCorrect(k, now, now, b);
    ReleaseAllKeeps(k, now, now, Holders(k.reservations, b, |k.reservations|));
    assert BucketAt(k, b) && BucketAt(next, b);
    hide Inv, ReleaseHolders, ReleaseAll, Holders, Tally, Drained;
    SameTally(k.reservations, next.reservations, b, InStatus(Captured));
    SameTally(k.reservations, next.reservations, b, RefundedAfter(k.buckets[b].expires));
  }

  lemma ReversedDrops(s: State, id: Ref, event: Event, origin: Option<Ref>, a: Ref)
    requires SInv(s) && IsReversal(event.kind) && PaymentReversed(s, id, event, origin).Ok?
    ensures
      var next := PaymentReversed(s, id, event, origin).value;
      && Unjournaled(next.book.journal, a) >= Unjournaled(s.book.journal, a)
      && (Unjournaled(next.book.journal, a) > Unjournaled(s.book.journal, a) <==>
        ReversalDrops(s, id, event, origin, a))
  {
    hide SInv, Inv, PlanReversal, ReleaseHolders, TakeBack, Unjournaled, Used;
    var plan := PlanReversal(s, event, origin).value;
    var b := plan.bucket;
    BookInv(s);
    ReleasedAvailable(s.book, s.clock, b);
    PlanCredits(s, event, origin);
    BucketHolds(s.book, s.clock, b);
    var k := ReleaseHolders(s.book, b, s.clock);
    TakeBackDrops(k, b, Min(k.buckets[b].available, plan.credits), id, a);
  }

  lemma PlanCredits(s: State, event: Event, origin: Option<Ref>)
    requires PlanReversal(s, event, origin).Ok?
    ensures PlanReversal(s, event, origin).value.credits >= 0
  {
    hide FindSource, Ceil;
  }

  lemma BucketHolds(k: Book, now: Time, b: nat)
    requires Inv(k, now) && b < |k.buckets|
    ensures k.buckets[b].available >= 0 && k.buckets[b].reserved >= 0
  {
    assert BucketAt(k, b);
    TallyNonNegative(k.buckets, k.reservations, b, InStatus(Status.Reserved));
  }

  lemma FinishDrops(s: State, id: Ref, event: Event, origin: Option<Ref>, a: Ref)
    requires SInv(s) && id in s.inbox && KeepsPeriod(s, id, event) && Finish(s, id, event, origin).Ok?
    ensures
      var next := Finish(s, id, event, origin).value;
      && Unjournaled(next.book.journal, a) >= Unjournaled(s.book.journal, a)
      && (Unjournaled(next.book.journal, a) > Unjournaled(s.book.journal, a) <==>
        ReversalDrops(s, id, event, origin, a))
  {
    hide SInv, PaymentSucceeded, PaymentReversed, ReversalDrops, Unjournaled;
    ReversalOnly(s, id, event, origin, a);
    if IsSuccess(event.kind) && PaymentSucceeded(s, id, event).Ok? {
      SucceededDrops(s, id, event, a);
    }
    if IsReversal(event.kind) && PaymentReversed(s, id, event, origin).Ok? {
      ReversedKeeps(s, id, event, origin);
      ReversedDrops(s, id, event, origin, a);
    }
  }

  lemma SucceededDrops(s: State, id: Ref, event: Event, a: Ref)
    requires SInv(s) && id in s.inbox && PeriodOf(event, id) == PeriodOf(s.inbox[id].event, id)
    requires PaymentSucceeded(s, id, event).Ok?
    ensures
      var next := PaymentSucceeded(s, id, event).value;
      id in next.inbox && Unjournaled(next.book.journal, a) == Unjournaled(s.book.journal, a)
  {
    hide SInv, PaymentSucceeded, Unjournaled, Plain, SilentOk;
    SucceededKeeps(s, id, event);
    SilentEntries(PaymentSucceeded(s, id, event).value);
    SucceededPlain(s, id, event);
    PlainSame(s.book.journal, PaymentSucceeded(s, id, event).value.book.journal, a);
  }

  lemma ReversalOnly(s: State, id: Ref, event: Event, origin: Option<Ref>, a: Ref)
    ensures ReversalDrops(s, id, event, origin, a) ==>
      IsReversal(event.kind) && PaymentReversed(s, id, event, origin).Ok?
  {
    hide PaymentReversed;
  }

  // ---- Every step, every run ----

  lemma OtherDrops(s: State, op: Op, a: Ref)
    requires SInv(s) && !op.ReserveOp? && !op.ViewOp? && !op.FinishOp? && Execute(s, op).Ok?
    ensures Unjournaled(Execute(s, op).value.book.journal, a) == Unjournaled(s.book.journal, a)
  {
    ExecuteKeeps(s, op);
    SilentEntries(Execute(s, op).value);
    assert Plain(s.book.journal, Execute(s, op).value.book.journal) by { OtherPlain(s, op); }
    hide SInv, Execute, Unjournaled, Plain;
    PlainSame(s.book.journal, Execute(s, op).value.book.journal, a);
  }

  lemma SamePlain(j: seq<Item>)
    ensures Plain(j, j)
  {}

  lemma OtherPlain(s: State, op: Op)
    requires !op.ReserveOp? && !op.ViewOp? && !op.FinishOp? && Execute(s, op).Ok?
    ensures Plain(s.book.journal, Execute(s, op).value.book.journal)
  {
    BookPlain(s.book, s.clock);
    SamePlain(s.book.journal);
    hide CaptureBook, ReleaseBook, RefundBook, AdjustBook, Deliver, Begin, Reconcile, Plain;
    match op {
      case RequestOp(actor, target, amount, dual) =>
        if !dual { AdjustPlain(s.book, target, amount, |s.adjustments|); }
      case ApproveOp(id, actor) => AdjustPlain(s.book, s.adjustments[id].target, s.adjustments[id].amount, id);
      case DeliverOp(id, event, hash) => InboxOnly(s, id, event, hash);
      case BeginOp(id) => InboxOnly(s, id, NO_EVENT, 0);
      case ReconcileOp(id, event, hash) => InboxOnly(s, id, event, hash);
      case _ =>
    }
  }

  const NO_EVENT := Event(Ignored, None, None, None, Missing, 0, None, None, Missing, Missing)

  lemma InboxOnly(s: State, id: Ref, event: Event, hash: Ref)
    ensures Deliver(s, id, event, hash).Ok? ==> Deliver(s, id, event, hash).value.book == s.book
    ensures Begin(s, id).Ok? ==> Begin(s, id).value.book == s.book
    ensures Reconcile(s, id, event, hash).Ok? ==> Reconcile(s, id, event, hash).value.book == s.book
  {}

  function At(s: State, wait: nat): State {
    s.(clock := s.clock + wait)
  }

  // A step never lowers what was dropped of an account, and raises it if and only if it
  // empties a bucket of the account that was swept before, or reverses a payment of the
  // account under a used key with something left to take.
  lemma StepDrops(s: State, wait: nat, op: Op, a: Ref)
    requires SInv(s)
    ensures Unjournaled(Step(s, wait, op).book.journal, a) >= Unjournaled(s.book.journal, a)
    ensures Unjournaled(Step(s, wait, op).book.journal, a) > Unjournaled(s.book.journal, a) <==>
      Drops(At(s, wait), op, a)
  {
    var s1 := At(s, wait);
    ClockKeeps(s, wait);
    hide SInv, Unjournaled, SweepDrops, ReversalDrops, OriginOk, KeepsPeriod, Reserve, View, Finish, Fresh;
    hide Capture, Release, Refund, SettleDue, Deliver, Begin, Reconcile, RequestAdjustment, ApproveAdjustment,
      RejectAdjustment;
    match op {
      case ReserveOp(user, verified, policy, quote, minutes, reference, expires) =>
        if Execute(s1, op).Ok? { ReserveDrops(s1, user, verified, policy, quote, minutes, reference, expires, a); }
      case ViewOp(user, verified, policy) =>
        if Execute(s1, op).Ok? { ViewDrops(s1, user, verified, policy, a); }
      case FinishOp(id, event, origin) =>
        if id in s1.inbox && KeepsPeriod(s1, id, event) && Finish(s1, id, event, origin).Ok? {
          FinishDrops(s1, id, event, origin, a);
        }
      case _ =>
        if Execute(s1, op).Ok? { OtherDrops(s1, op, a); }
    }
  }

  // No step of the run drops an entry of the account.
  predicate NoneDropped(s: State, ops: seq<Timed>, a: Ref) {
    |ops| > 0 ==>
      var init, last := ops[..|ops| - 1], ops[|ops| - 1];
      NoneDropped(s, init, a) && !Drops(At(Run(s, init), last.wait), last.op, a)
  }

  lemma {:induction false} RunDrops(s: State, ops: seq<Timed>, a: Ref)
    requires SInv(s)
    ensures Unjournaled(Run(s, ops).book.journal, a) >= Unjournaled(s.book.journal, a)
    ensures Unjournaled(Run(s, ops).book.journal, a) == Unjournaled(s.book.journal, a) <==> NoneDropped(s, ops, a)
  {
    if |ops| > 0 {
      hide SInv, Step, Drops, Unjournaled;
      var init, last := ops[..|ops| - 1], ops[|ops| - 1];
      RunDrops(s, init, a);
      RunKeeps(s, init);
      StepDrops(Run(s, init), last.wait, last.op, a);
    }
  }

  // From an empty database, an account's ledger sums to its balance if and only if no
  // step of the run dropped an entry of the account.
  lemma BalancedIff(start: Time, users: set<Ref>, offers: map<Ref, Offer>, ops: seq<Timed>, a: Ref)
    requires OffersOk(offers)
    ensures
      var k := Run(Init(start, users, offers), ops).book;
      LedgerSum(k.journal, a) == Balance(k.buckets, a) <==> NoneDropped(Init(start, users, offers), ops, a)
  {
    InitOk(start, users, offers);
    RunDrops(Init(start, users, offers), ops, a);
    assert Unjournaled(Init(start, users, offers).book.journal, a) == 0;
    hide Run, Init, NoneDropped, LedgerSum, Balance, Unjournaled;
    assert Reachable(Run(Init(start, users, offers), ops));
    LedgerConservation(Run(Init(start, users, offers), ops), a);
  }
}
