/** Two facts about reservations on every run: their references differ, and a refund entry
belongs to the account of its reservation. */
module ReservationRuns {
  import opened Prelude
  import opened Ledger
  import opened LedgerInvariants
  import opened LedgerMoves
  import opened CreditOps
  import opened CreditLaws
  import opened Billing
  import opened BillingLaws
  import opened BillingHistory
  import opened Guarantees

  // No reservation has this reference yet.
  predicate Fresh(rs: seq<Reservation>, reference: Reference) {
    forall r :: 0 <= r < |rs| ==> rs[r].reference != reference
  }

  lemma {:induction false} FindReferenceCorrect(rs: seq<Reservation>, reference: Reference)
    ensures FindReference(rs, reference).None? <==> Fresh(rs, reference)
    ensures FindReference(rs, reference).Some? ==>
      FindReference(rs, reference).value < |rs| && rs[FindReference(rs, reference).value].reference == reference
  {
    if |rs| > 0 {
      var n := |rs| - 1;
      FindReferenceCorrect(rs[..n], reference);
      assert Fresh(rs, reference) <==> Fresh(rs[..n], reference) && rs[n].reference != reference by {
        assert forall r :: 0 <= r < n ==> rs[..n][r] == rs[r];
      }
    }
  }

  ghost predicate DistinctReferences(rs: seq<Reservation>) {
    forall r, q :: 0 <= r < q < |rs| ==> rs[r].reference != rs[q].reference
  }

  ghost predicate RefundOwned(rs: seq<Reservation>, i: Item) {
    i.entry.key.RefundKey? ==>
      i.entry.key.reservation < |rs| && i.entry.account == rs[i.entry.key.reservation].account
  }

  ghost predicate RefundsOwned(k: Book) {
    forall i :: 0 <= i < |k.journal| ==> RefundOwned(k.reservations, k.journal[i])
  }

  // ---- Books that get no new reservation and no refund entry ----

  ghost predicate Calm(k: Book, next: Book) {
    && |next.reservations| == |k.reservations|
    && |k.journal| <= |next.journal| && next.journal[..|k.journal|] == k.journal
    && forall i :: |k.journal| <= i < |next.journal| ==> !next.journal[i].entry.key.RefundKey?
  }

  lemma CalmTwice(k: Book, mid: Book, next: Book)
    requires Calm(k, mid) && Calm(mid, next)
    ensures Calm(k, next)
  {
    assert next.journal[..|k.journal|] == mid.journal[..|k.journal|];
  }

  lemma {:induction false} SweepCalm(k: Book, ids: seq<nat>)
    requires forall i :: 0 <= i < |ids| ==> ids[i] < |k.buckets|
    ensures Calm(k, ExpireAll(k, ids))
  {
    if |ids| > 0 {
      hide Balance, Used, Shift, Total;
      var init := ids[..|ids| - 1];
      SweepCalm(k, init);
      CalmTwice(k, ExpireAll(k, init), ExpireAll(k, ids));
    }
  }

  lemma ExpireCalm(k: Book, a: Ref, now: Time)
    ensures Calm(k, ExpireBuckets(k, a, now))
  {
    ExpiredIdsInRange(k.buckets, a, now, |k.buckets|);
    SweepCalm(k, ExpiredIds(k.buckets, a, now, |k.buckets|));
  }

  lemma SettleCalm(k: Book, id: Option<nat>, now: Time)
    ensures CaptureBook(k, id, now).Ok? ==> Calm(k, CaptureBook(k, id, now).value)
    ensures Calm(k, ReleaseBook(k, id, now))
  {
    hide Balance, Used, Shift, CanSettle;
  }

  lemma GrantCalm(k: Book, a: Ref, kind: BucketType, source: Source, amount: int, expires: Option<Time>, key: Key)
    requires GrantBook(k, a, kind, source, amount, expires, key).Ok? && !key.RefundKey?
    ensures Calm(k, GrantBook(k, a, kind, source, amount, expires, key).value.0)
  {
    hide Balance, Used, FindBucket;
  }

  lemma AdjustCalm(k: Book, a: Ref, amount: int, n: nat)
    requires AdjustBook(k, a, amount, n).Ok?
    ensures Calm(k, AdjustBook(k, a, amount, n).value)
  {
    hide Balance, Used, Shift, CreationOrder, Offered, Greedy, Total;
  }

  lemma ReversalCalm(k: Book, now: Time, b: nat, unspent: int, event: Ref)
    requires Inv(k, now) && b < |k.buckets|
    ensures
      var mid := ReleaseHolders(k, b, now);
      |mid.buckets| == |k.buckets| && Calm(k, TakeBack(mid, b, unspent, event))
  {
    ReleaseAllKeeps(k, now, now, Holders(k.reservations, b, |k.reservations|));
    hide Inv, Balance, Used, Shift, Total, ReleaseHolders, ReleaseAll;
  }

  // ---- Steps ----

  lemma TrialCalm(s: State, user: Ref, verified: bool, policy: Option<Policy>)
    requires EnsureTrial(s, user, verified, policy).Ok?
    ensures Calm(s.book, EnsureTrial(s, user, verified, policy).value.book)
  {
    hide GrantBook;
    if policy.Some? {
      var p := policy.value;
      if GrantBook(s.book, user, TrialBucket, TrialSource(p.id, user), p.credits, Some(s.clock + p.validFor),
                   TrialKey(p.id, user)).Ok? {
        GrantCalm(s.book, user, TrialBucket, TrialSource(p.id, user), p.credits, Some(s.clock + p.validFor),
          TrialKey(p.id, user));
      }
    }
  }

  lemma ViewCalm(s: State, user: Ref, verified: bool, policy: Option<Policy>)
    requires View(s, user, verified, policy).Ok?
    ensures Calm(s.book, View(s, user, verified, policy).value.book)
  {
    hide EnsureTrial, ExpireBuckets, Calm;
    TrialCalm(s, user, verified, policy);
    var mid := EnsureTrial(s, user, verified, policy).value.book;
    ExpireCalm(mid, user, s.clock);
    CalmTwice(s.book, mid, View(s, user, verified, policy).value.book);
  }

  lemma SucceededCalm(s: State, id: Ref, event: Event)
    requires PaymentSucceeded(s, id, event).Ok?
    ensures Calm(s.book, PaymentSucceeded(s, id, event).value.book)
  {
    hide PaymentSucceeded, Payee, GrantBook, Calm;
    var mid, user, offer, expires := SucceededShape(s, id, event);
    var kind := if offer.kind == SubscriptionOffer then SubscriptionBucket else TopupBucket;
    GrantCalm(s.book, user, kind, PaymentSource(PeriodOf(event, id)), offer.credits, expires, PaymentKey(id));
  }

  lemma ReversedCalm(s: State, id: Ref, event: Event, origin: Option<Ref>)
    requires SInv(s) && PaymentReversed(s, id, event, origin).Ok?
    ensures Calm(s.book, PaymentReversed(s, id, event, origin).value.book)
  {
    BookInv(s);
    var plan := PlanReversal(s, event, origin).value;
    hide SInv, Inv, PlanReversal, ReleaseHolders, TakeBack, Calm;
    var k := ReleaseHolders(s.book, plan.bucket, s.clock);
    ReversalCalm(s.book, s.clock, plan.bucket, 0, id);
    ReversalCalm(s.book, s.clock, plan.bucket, Min(k.buckets[plan.bucket].available, plan.credits), id);
  }

  lemma FinishCalm(s: State, id: Ref, event: Event, origin: Option<Ref>)
    requires SInv(s) && Finish(s, id, event, origin).Ok?
    ensures Calm(s.book, Finish(s, id, event, origin).value.book)
  {
    hide SInv, PaymentSucceeded, PaymentReversed;
    if IsSuccess(event.kind) && PaymentSucceeded(s, id, event).Ok? { SucceededCalm(s, id, event); }
    if PaymentReversed(s, id, event, origin).Ok? { ReversedCalm(s, id, event, origin); }
  }

  lemma OtherCalm(s: State, op: Op)
    requires SInv(s) && !op.ReserveOp? && !op.RefundOp? && Execute(s, op).Ok?
    ensures Calm(s.book, Execute(s, op).value.book)
  {
    hide SInv, Execute, Calm, Capture, Release, View, Finish, ExecuteAdjustment, OriginOk, KeepsPeriod;
    hide CaptureBook, ReleaseBook;
    Dispatch(s, op);
    SameCalm(s.book);
    match op {
      case CaptureOp(id) => CaptureCalm(s, id);
      case ReleaseOp(id) => ReleaseCalm(s, id);
      case SettleOp(id, outcome) => SettleDueCalm(s, id, outcome);
      case ViewOp(user, verified, policy) => ViewCalm(s, user, verified, policy);
      case FinishOp(id, event, origin) =>
        ExecutesFinish(s, op);
        if Finish(s, id, event, origin).Ok? { FinishCalm(s, id, event, origin); }
      case RequestOp(actor, target, amount, dual) => RequestCalm(s, actor, target, amount, dual);
      case ApproveOp(id, actor) =>
        ExecuteAdjustmentCalm(Decide(s, id, actor, Executed), s.adjustments[id].target, s.adjustments[id].amount, id);
      case CheckoutOp(_, _) => ExecutesCheckout(s, op);
      case _ =>
    }
  }

  lemma SameCalm(k: Book)
    ensures Calm(k, k)
  {}

  lemma CaptureCalm(s: State, id: Option<nat>)
    requires Capture(s, id).Ok?
    ensures Calm(s.book, Capture(s, id).value.book)
  {
    hide CaptureBook, Calm;
    SettleCalm(s.book, id, s.clock);
  }

  lemma ReleaseCalm(s: State, id: Option<nat>)
    requires Release(s, id).Ok?
    ensures Calm(s.book, Release(s, id).value.book)
  {
    hide ReleaseBook, Calm;
    SettleCalm(s.book, id, s.clock);
  }

  lemma SettleDueCalm(s: State, id: nat, outcome: Outcome)
    requires SettleDue(s, id, outcome).Ok?
    ensures Calm(s.book, SettleDue(s, id, outcome).value.book)
  {
    hide Capture, Release;
    if Capture(s, Some(id)).Ok? { CaptureCalm(s, Some(id)); }
    if Release(s, Some(id)).Ok? { ReleaseCalm(s, Some(id)); }
  }

  lemma ExecuteAdjustmentCalm(s: State, target: Ref, amount: int, n: nat)
    requires ExecuteAdjustment(s, target, amount, n).Ok?
    ensures Calm(s.book, ExecuteAdjustment(s, target, amount, n).value.book)
  {
    hide AdjustBook, Calm;
    AdjustCalm(s.book, target, amount, n);
  }

  lemma RequestCalm(s: State, actor: Ref, target: Ref, amount: int, dual: bool)
    requires RequestAdjustment(s, actor, target, amount, dual).Ok?
    ensures Calm(s.book, RequestAdjustment(s, actor, target, amount, dual).value.book)
  {
    hide ExecuteAdjustment, Calm;
    SameCalm(s.book);
    if !dual {
      var row := Adjustment(actor, target, amount, Executed, false, None);
      ExecuteAdjustmentCalm(s.(adjustments := s.adjustments + [row]), target, amount, |s.adjustments|);
    }
  }

  lemma ExecutesFinish(s: State, op: Op)
    requires op.FinishOp?
    ensures Execute(s, op) == Ok(s) || Execute(s, op) == Finish(s, op.id, op.event, op.origin)
  {
    hide Finish, OriginOk, KeepsPeriod;
  }

  lemma ExecutesCheckout(s: State, op: Op)
    requires op.CheckoutOp? && Execute(s, op).Ok?
    ensures Execute(s, op).value.book == s.book
  {}

  ghost predicate ReservationFacts(k: Book) {
    DistinctReferences(k.reservations) && RefundsOwned(k)
  }

  lemma CalmFacts(k: Book, next: Book)
    requires ReservationFacts(k) && Calm(k, next) && BookLater(k, next)
    ensures ReservationFacts(next)
  {
    forall r, q | 0 <= r < q < |next.reservations|
      ensures next.reservations[r].reference != next.reservations[q].reference
    {
      assert RowLater(k.reservations[r], next.reservations[r]) && RowLater(k.reservations[q], next.reservations[q]);
    }
    forall i | 0 <= i < |next.journal| ensures RefundOwned(next.reservations, next.journal[i]) {
      if i < |k.journal| {
        assert next.journal[i] == next.journal[..|k.journal|][i];
        assert RefundOwned(k.reservations, k.journal[i]);
        if next.journal[i].entry.key.RefundKey? {
          var r := next.journal[i].entry.key.reservation;
          assert RowLater(k.reservations[r], next.reservations[r]);
        }
      }
    }
  }

  lemma RefundFacts(k: Book, now: Time, id: nat)
    requires ReservationFacts(k) && RefundBook(k, id, now).Ok?
    ensures ReservationFacts(RefundBook(k, id, now).value)
  {
    hide Balance, Used, RefundBuckets;
    var next := RefundBook(k, id, now).value;
    forall i | 0 <= i < |next.journal| ensures RefundOwned(next.reservations, next.journal[i]) {
      assert i < |k.journal| ==> RefundOwned(k.reservations, k.journal[i]);
    }
  }

  // What `reserve` does to the reservations once credits are to be held.
  lemma HeldFacts(k: Book, a: Ref, cost: int, reference: Reference, expires: Time, now: Time)
    requires ReservationFacts(k) && Fresh(k.reservations, reference)
    requires ReserveBook(k, a, cost, reference, expires, now).Ok?
    ensures ReservationFacts(ReserveBook(k, a, cost, reference, expires, now).value)
  {
    ExpireCalm(k, a, now);
    ExpireSameReservations(k, a, now);
    hide ExpireBuckets, ReserveOrder, Greedy, Offered, Shift;
    var mid, next := ExpireBuckets(k, a, now), ReserveBook(k, a, cost, reference, expires, now).value;
    forall i | 0 <= i < |next.journal| ensures RefundOwned(next.reservations, next.journal[i]) {
      if i < |k.journal| {
        assert mid.journal[i] == mid.journal[..|k.journal|][i];
        assert RefundOwned(k.reservations, k.journal[i]);
      }
    }
  }

  lemma {:induction false} SweepSameReservations(k: Book, ids: seq<nat>)
    requires forall i :: 0 <= i < |ids| ==> ids[i] < |k.buckets|
    ensures ExpireAll(k, ids).reservations == k.reservations
  {
    if |ids| > 0 { SweepSameReservations(k, ids[..|ids| - 1]); }
  }

  lemma ExpireSameReservations(k: Book, a: Ref, now: Time)
    ensures ExpireBuckets(k, a, now).reservations == k.reservations
  {
    ExpiredIdsInRange(k.buckets, a, now, |k.buckets|);
    SweepSameReservations(k, ExpiredIds(k.buckets, a, now, |k.buckets|));
  }

  lemma TrialFacts(s: State, user: Ref, verified: bool, policy: Option<Policy>)
    requires ReservationFacts(s.book) && EnsureTrial(s, user, verified, policy).Ok?
    ensures ReservationFacts(EnsureTrial(s, user, verified, policy).value.book)
    ensures EnsureTrial(s, user, verified, policy).value.book.reservations == s.book.reservations
    ensures EnsureTrial(s, user, verified, policy).value.clock == s.clock
  {
    TrialCalm(s, user, verified, policy);
    hide Balance, Used, FindBucket;
    var k, next := s.book, EnsureTrial(s, user, verified, policy).value.book;
    forall i | 0 <= i < |next.journal| ensures RefundOwned(next.reservations, next.journal[i]) {
      if i < |k.journal| {
        assert next.journal[i] == next.journal[..|k.journal|][i];
        assert RefundOwned(k.reservations, k.journal[i]);
      }
    }
  }

  lemma ReserveFacts(s: State, user: Ref, verified: bool, policy: Option<Policy>, quote: Quote, minutes: nat,
                     reference: Reference, expires: Option<Time>)
    requires ReservationFacts(s.book) && Reserve(s, user, verified, policy, quote, minutes, reference, expires).Ok?
    ensures ReservationFacts(Reserve(s, user, verified, policy, quote, minutes, reference, expires).value.book)
  {
    hide ReservationFacts, EnsureTrial, FindReference, Fresh, ReserveBook;
    TrialFacts(s, user, verified, policy);
    FindReferenceCorrect(s.book.reservations, reference);
    var s1 := EnsureTrial(s, user, verified, policy).value;
    if quote.cost != 0 && FindReference(s1.book.reservations, reference).None? {
      var until := if expires.Some? then expires.value else s.clock + RESERVATION_TTL;
      HeldFacts(s1.book, user, quote.cost, reference, until, s.clock);
    }
  }

  lemma StepFacts(s: State, wait: nat, op: Op)
    requires SInv(s) && ReservationFacts(s.book)
    ensures ReservationFacts(Step(s, wait, op).book)
  {
    hide SInv, Execute, ReservationFacts;
    var s1 := s.(clock := s.clock + wait);
    ClockKeeps(s, wait);
    if Execute(s1, op).Ok? { ExecuteFacts(s1, op); }
  }

  lemma ExecuteFacts(s: State, op: Op)
    requires SInv(s) && ReservationFacts(s.book) && Execute(s, op).Ok?
    ensures ReservationFacts(Execute(s, op).value.book)
  {
    hide SInv, Execute, ReservationFacts, BookLater, DecisionsLater, Calm, Reserve, RefundBook;
    match op {
      case ReserveOp(user, verified, policy, quote, minutes, reference, expires) =>
        Dispatch(s, op);
        ReserveFacts(s, user, verified, policy, quote, minutes, reference, expires);
      case RefundOp(id) =>
        Dispatch(s, op);
        RefundFacts(s.book, s.clock, id);
      case _ =>
        OtherCalm(s, op);
        ExecuteLater(s, op);
        CalmFacts(s.book, Execute(s, op).value.book);
    }
  }

  lemma {:induction false} RunFacts(s: State, ops: seq<Timed>)
    requires SInv(s) && ReservationFacts(s.book)
    ensures ReservationFacts(Run(s, ops).book)
  {
    if |ops| > 0 {
      hide SInv, ReservationFacts, Step;
      RunFacts(s, ops[..|ops| - 1]);
      RunKeeps(s, ops[..|ops| - 1]);
      StepFacts(Run(s, ops[..|ops| - 1]), ops[|ops| - 1].wait, ops[|ops| - 1].op);
    }
  }

  // In every reachable state the references of two reservations differ, and each refund
  // entry is in the account of its reservation.
  lemma ReferencesDiffer(s: State)
    requires Reachable(s)
    ensures DistinctReferences(s.book.reservations) && RefundsOwned(s.book)
  {
    var start, users, offers, ops :| OffersOk(offers) && s == Run(Init(start, users, offers), ops);
    InitOk(start, users, offers);
    hide SInv, Run;
    RunFacts(Init(start, users, offers), ops);
  }
}
