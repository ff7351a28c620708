/** The main results about the credit ledger, over every run of the billing service. */
module Guarantees {
  import opened Prelude
  import opened Ledger
  import opened LedgerInvariants
  import opened LedgerMoves
  import opened CreditOps
  import opened CreditLaws
  import opened Reversal
  import opened Billing
  import opened BillingLaws
  import opened BillingHistory
  import opened CleanRuns

  // A state some run reaches from an empty database with positive offers.
  ghost predicate Reachable(s: State) {
    exists start, users, offers, ops :: OffersOk(offers) && s == Run(Init(start, users, offers), ops)
  }

  lemma ReachableInv(s: State)
    requires Reachable(s)
    ensures SInv(s)
  {
    var start, users, offers, ops :| OffersOk(offers) && s == Run(Init(start, users, offers), ops);
    InitOk(start, users, offers);
    hide SInv;
    RunKeeps(Init(start, users, offers), ops);
  }

  lemma {:induction false} RunAppend(s: State, ops: seq<Timed>, more: seq<Timed>)
    ensures Run(s, ops + more) == Run(Run(s, ops), more)
  {
    if |more| == 0 {
      assert ops + more == ops;
    } else {
      var n := |more| - 1;
      assert (ops + more)[..|ops + more| - 1] == ops + more[..n];
      RunAppend(s, ops, more[..n]);
    }
  }

  lemma ReachableOn(s: State, more: seq<Timed>)
    requires Reachable(s)
    ensures Reachable(Run(s, more))
  {
    var start, users, offers, ops :| OffersOk(offers) && s == Run(Init(start, users, offers), ops);
    RunAppend(Init(start, users, offers), ops, more);
    hide Run, Init;
    assert Run(s, more) == Run(Init(start, users, offers), ops + more);
  }

  // The operation each step stands for.
  lemma Dispatch(s: State, op: Op)
    ensures
      match op
      case ReserveOp(user, verified, policy, quote, minutes, reference, expires) =>
        Execute(s, op) == Reserve(s, user, verified, policy, quote, minutes, reference, expires)
      case CaptureOp(id) => Execute(s, op) == Capture(s, id)
      case ReleaseOp(id) => Execute(s, op) == Release(s, id)
      case RefundOp(id) => Execute(s, op) == Refund(s, id)
      case SettleOp(id, outcome) => Execute(s, op) == SettleDue(s, id, outcome)
      case ViewOp(user, verified, policy) => Execute(s, op) == View(s, user, verified, policy)
      case CheckoutOp(session, checkout) => Execute(s, op).Ok?
      case DeliverOp(id, event, hash) => Execute(s, op) == Deliver(s, id, event, hash)
      case BeginOp(id) => Execute(s, op) == Begin(s, id)
      case ReconcileOp(id, event, hash) => Execute(s, op) == Reconcile(s, id, event, hash)
      case FinishOp(id, event, origin) =>
        id in s.inbox && OriginOk(s, event, origin) && KeepsPeriod(s, id, event) ==>
          Execute(s, op) == Finish(s, id, event, origin)
      case RequestOp(actor, target, amount, dual) => Execute(s, op) == RequestAdjustment(s, actor, target, amount, dual)
      case ApproveOp(id, actor) => Execute(s, op) == ApproveAdjustment(s, id, actor)
      case RejectOp(id, actor) => Execute(s, op) == RejectAdjustment(s, id, actor)
  {
    hide Reserve, Capture, Release, Refund, SettleDue, View, Deliver, Begin, Reconcile, Finish, OriginOk, KeepsPeriod;
    hide RequestAdjustment, ApproveAdjustment, RejectAdjustment;
  }

  // ---- Conservation ----

  lemma {:induction false} JournaledSplit(j: seq<Item>, a: Ref)
    ensures Journaled(j, a) == LedgerSum(j, a) - Unjournaled(j, a)
  {
    if |j| > 0 { JournaledSplit(j[..|j| - 1], a); }
  }

  lemma {:induction false} UnjournaledSign(j: seq<Item>, a: Ref)
    requires SilentOk(j) && forall i :: 0 <= i < |j| ==> Shaped(j[i])
    ensures Unjournaled(j, a) >= 0
    ensures Unjournaled(j, a) == 0 <==> forall i :: 0 <= i < |j| && j[i].entry.account == a ==> j[i].posted
  {
    if |j| > 0 {
      var init := j[..|j| - 1];
      UnjournaledSign(init, a);
      assert Shaped(j[|j| - 1]);
      assert forall i :: 0 <= i < |init| ==> init[i] == j[i];
      if Unjournaled(init, a) != 0 {
        var i :| 0 <= i < |init| && init[i].entry.account == a && !init[i].posted;
        assert !j[i].posted;
      }
    }
  }

  // The ledger sums to the balance plus the credits whose repeated expiry or reversal it
  // dropped, at the end and at every entry; it sums to the balance exactly when none was dropped.
  lemma LedgerConservation(s: State, a: Ref)
    requires Reachable(s)
    ensures LedgerSum(s.book.journal, a) == Balance(s.book.buckets, a) + Unjournaled(s.book.journal, a)
    ensures LedgerSum(s.book.journal, a) == Balance(s.book.buckets, a) <==>
      forall i :: 0 <= i < |s.book.journal| && s.book.journal[i].entry.account == a ==> s.book.journal[i].posted
    ensures Unjournaled(s.book.journal, a) >= 0
    ensures forall i :: 0 <= i < |s.book.journal| ==>
      var e := s.book.journal[i].entry;
      e.balanceAfter == LedgerSum(s.book.journal[..i + 1], e.account) - Unjournaled(s.book.journal[..i + 1], e.account)
  {
    ReachableInv(s);
    JournaledSplit(s.book.journal, a);
    UnjournaledSign(s.book.journal, a);
    forall i | 0 <= i < |s.book.journal|
      ensures var e := s.book.journal[i].entry;
        e.balanceAfter == LedgerSum(s.book.journal[..i + 1], e.account) - Unjournaled(s.book.journal[..i + 1],
          e.account)
    {
      JournaledSplit(s.book.journal[..i + 1], s.book.journal[i].entry.account);
    }
  }

  // Without a release that refills a swept bucket and without re-applying a reversal
  // event, the ledger of every account sums to its balance.
  lemma CleanRunConserves(start: Time, users: set<Ref>, offers: map<Ref, Offer>, ops: seq<Timed>, a: Ref)
    requires OffersOk(offers) && CleanRun(Init(start, users, offers), ops)
    ensures var k := Run(Init(start, users, offers), ops).book;
      LedgerSum(k.journal, a) == Balance(k.buckets, a) && Unjournaled(k.journal, a) == 0
  {
    var s := Run(Init(start, users, offers), ops);
    InitOk(start, users, offers);
    CleanRunPosted(Init(start, users, offers), ops);
    LedgerConservation(s, a);
  }

  // Credits of the listed buckets that were swept before.
  function SilentCredits(k: Book, ids: seq<nat>): int
    requires forall i :: 0 <= i < |ids| ==> ids[i] < |k.buckets|
  {
    if |ids| == 0 then 0
    else
      var b := ids[|ids| - 1];
      SilentCredits(k, ids[..|ids| - 1]) + if SweptBefore(k, b) then k.buckets[b].available else 0
  }

  lemma UnjournaledAppend(j: seq<Item>, x: Item, a: Ref)
    ensures Unjournaled(j + [x], a) == Unjournaled(j, a) +
      if !x.posted && x.entry.account == a then -x.entry.amount else 0
  {
    assert (j + [x])[..|j|] == j;
  }

  lemma OneSweepSilent(k: Book, now: Time, b: nat)
    requires Inv(k, now) && b < |k.buckets| && Expired(k.buckets[b].expires, now) && k.buckets[b].available > 0
    ensures Unjournaled(ExpireOne(k, b).journal, k.buckets[b].account) ==
      Unjournaled(k.journal, k.buckets[b].account) + if SweptBefore(k, b) then k.buckets[b].available else 0
    ensures forall c: nat :: c != b ==> (SweptBefore(ExpireOne(k, b), c) <==> SweptBefore(k, c))
  {
    var x := ExpireOne(k, b).journal[|k.journal|];
    OneRow([Row(b, k.buckets[b].available)]);
    UnjournaledAppend(k.journal, x, k.buckets[b].account);
    ExpireOneKeeps(k, now, b);
    hide Inv, Unjournaled, Balance;
    forall c: nat | c != b && c < |k.buckets| ensures SweptBefore(ExpireOne(k, b), c) <==> SweptBefore(k, c) {
      UsedAppend(k.journal, x, k.buckets[c].account, ExpireKey(c));
    }
  }

  lemma {:induction false} SweepSilent(k: Book, now: Time, ids: seq<nat>, a: Ref)
    requires Inv(k, now)
    requires forall i :: 0 <= i < |ids| ==>
      ids[i] < |k.buckets| && k.buckets[ids[i]].account == a && Expired(k.buckets[ids[i]].expires, now)
        && k.buckets[ids[i]].available > 0
    requires forall i, j :: 0 <= i < j < |ids| ==> ids[i] < ids[j]
    ensures Unjournaled(ExpireAll(k, ids).journal, a) == Unjournaled(k.journal, a) + SilentCredits(k, ids)
    ensures forall b: nat :: b !in ids ==> (SweptBefore(ExpireAll(k, ids), b) <==> SweptBefore(k, b))
  {
    if |ids| > 0 {
      var init, b := ids[..|ids| - 1], ids[|ids| - 1];
      assert ids == init + [b];
      SweepSilent(k, now, init, a);
      ExpireAllKeeps(k, now, now, init);
      hide Inv, Unjournaled, SweptBefore, ExpireOne;
      assert b !in init;
      OneSweepSilent(ExpireAll(k, init), now, b);
    }
  }

  lemma {:induction false} SilentCreditsSign(k: Book, ids: seq<nat>)
    requires forall i :: 0 <= i < |ids| ==> ids[i] < |k.buckets| && k.buckets[ids[i]].available > 0
    ensures SilentCredits(k, ids) >= 0
    ensures SilentCredits(k, ids) == 0 <==> forall i :: 0 <= i < |ids| ==> !SweptBefore(k, ids[i])
  {
    if |ids| > 0 {
      var init := ids[..|ids| - 1];
      SilentCreditsSign(k, init);
      if SilentCredits(k, init) != 0 {
        var i :| 0 <= i < |init| && SweptBefore(k, init[i]);
        assert SweptBefore(k, ids[i]);
      }
      assert forall i :: 0 <= i < |init| ==> init[i] == ids[i];
    }
  }

  // A sweep keeps ledger and balance in step exactly when no bucket it empties was swept before.
  lemma SweepExact(k: Book, now: Time, a: Ref)
    requires Inv(k, now)
    ensures Unjournaled(ExpireBuckets(k, a, now).journal, a) >= Unjournaled(k.journal, a)
    ensures Unjournaled(ExpireBuckets(k, a, now).journal, a) == Unjournaled(k.journal, a) <==>
      forall b :: 0 <= b < |k.buckets| && k.buckets[b].account == a && Expired(k.buckets[b].expires, now)
        && k.buckets[b].available > 0
        ==> !SweptBefore(k, b)
  {
    var ids := ExpiredIds(k.buckets, a, now, |k.buckets|);
    ExpiredIdsInRange(k.buckets, a, now, |k.buckets|);
    SweepSilent(k, now, ids, a);
    SilentCreditsSign(k, ids);
  }

  // Releasing reservation `r` gives bucket `b` of its rows credits back.
  lemma ReleasedRow(k: Book, now: Time, r: nat, b: nat)
    requires r < |k.reservations| && ReservationOk(k.buckets, k.reservations[r])
    requires k.reservations[r].status == Status.Reserved
    requires Mentions(k.reservations[r].rows, b) && k.buckets[b].available >= 0
    ensures ReleaseBook(k, Some(r), now).journal == k.journal && |ReleaseBook(k, Some(r), now).buckets| == |k.buckets|
    ensures var x := ReleaseBook(k, Some(r), now).buckets[b];
      x.account == k.buckets[b].account && x.expires == k.buckets[b].expires && x.available > 0
  {
    ShiftAt(k.buckets, k.reservations[r].rows, Return, b);
    AllocSign(k.reservations[r].rows, b);
  }

  // A release that refills a swept bucket makes the account's next sweep drop credits.
  lemma RefillThenSweep(k: Book, now: Time, r: nat)
    requires Inv(k, now) && Refills(k, r)
    ensures var a := k.reservations[r].account;
      Unjournaled(ExpireBuckets(ReleaseBook(k, Some(r), now), a, now).journal, a) > Unjournaled(k.journal, a)
  {
    var i :| 0 <= i < |k.reservations[r].rows| && SweptBefore(k, k.reservations[r].rows[i].bucket);
    var b := k.reservations[r].rows[i].bucket;
    assert ReservationOk(k.buckets, k.reservations[r]);
    assert BucketAt(k, b);
    ReleasedRow(k, now, r, b);
    SweptExpired(k, now, b);
    ReleaseBookKeeps(k, now, now, Some(r));
    hide Inv, ExpireBuckets, Unjournaled, ReleaseBook, BucketAt;
    SweepExact(ReleaseBook(k, Some(r), now), now, k.reservations[r].account);
  }

  // ---- Buckets and reservations ----

  // Every granted credit is available, reserved, captured, rerouted by a refund after
  // expiry, or drained by expiry, reversal or a negative adjustment; so what a bucket
  // holds never exceeds its grant.
  lemma BucketPartition(s: State, b: nat)
    requires Reachable(s) && b < |s.book.buckets|
    ensures var x, rs, j := s.book.buckets[b], s.book.reservations, s.book.journal;
      && x.granted == x.available + x.reserved
         + Tally(rs, b, InStatus(Captured)) + Tally(rs, b, RefundedAfter(x.expires))
         + Drained(j, b, EXPIRE) + Drained(j, b, REVERSAL) + Drained(j, b, ADJUSTMENT)
      && 0 <= x.available && 0 <= x.reserved && x.available + x.reserved <= x.granted
  {
    ReachableInv(s);
    assert BucketAt(s.book, b);
    TallyNonNegative(s.book.buckets, s.book.reservations, b, InStatus(Status.Reserved));
    TallyNonNegative(s.book.buckets, s.book.reservations, b, InStatus(Captured));
    TallyNonNegative(s.book.buckets, s.book.reservations, b, RefundedAfter(s.book.buckets[b].expires));
    DrainedNonNegative(s.book.buckets, s.book.journal, b, EXPIRE);
    DrainedNonNegative(s.book.buckets, s.book.journal, b, REVERSAL);
    DrainedNonNegative(s.book.buckets, s.book.journal, b, ADJUSTMENT);
  }

  // A bucket's reserved credits are exactly the allocations of reservations still
  // reserved, each reservation's allocations sum to its amount, and capture never
  // finds them inconsistent.
  lemma ReservationBacking(s: State, b: nat, r: nat, at: Time)
    requires Reachable(s) && b < |s.book.buckets| && r < |s.book.reservations|
    ensures s.book.buckets[b].reserved == Tally(s.book.reservations, b, InStatus(Status.Reserved))
    ensures Total(s.book.reservations[r].rows) == s.book.reservations[r].amount
    ensures s.book.reservations[r].status == Status.Reserved ==>
      Alloc(s.book.reservations[r].rows, b) <= s.book.buckets[b].reserved
    ensures CaptureBook(s.book, Some(r), at) != Err(ReservationCorrupt)
  {
    ReachableInv(s);
    assert BucketAt(s.book, b);
    assert ReservationOk(s.book.buckets, s.book.reservations[r]);
    PartAtMostTally(s.book.buckets, s.book.reservations, r, b, InStatus(Status.Reserved));
    CaptureNeverCorrupt(s.book, s.clock, Some(r), at);
  }

  // A reservation's ledger entries: none while reserved or released, one charge when
  // captured, a charge and a refund that cancel when refunded.
  lemma ReservationEntries(s: State, r: nat)
    requires Reachable(s) && r < |s.book.reservations|
    ensures var x := s.book.reservations[r];
      Footprint(s.book.journal, r) ==
        match x.status
        case Reserved => []
        case Released => []
        case Captured => [(CHARGE, -x.amount)]
        case Refunded => [(CHARGE, -x.amount), (REFUND, x.amount)]
  {
    ReachableInv(s);
    assert Footprint(s.book.journal, r) == ExpectedFootprint(s.book.reservations, r);
  }

  // Later operations keep every ledger entry, every reservation's amount and
  // allocations, released and refunded statuses, and every decided adjustment.
  lemma HistoryFinal(s: State, ops: seq<Timed>, r: nat, n: nat)
    requires Reachable(s) && r < |s.book.reservations| && n < |s.adjustments|
    ensures var t := Run(s, ops);
      && s.book.journal <= t.book.journal
      && r < |t.book.reservations| && n < |t.adjustments|
      && t.book.reservations[r].amount == s.book.reservations[r].amount
        && t.book.reservations[r].rows == s.book.reservations[r].rows
      && (s.book.reservations[r].status in {Released, Refunded} ==>
        t.book.reservations[r].status == s.book.reservations[r].status)
      && (s.book.reservations[r].status == Captured ==> t.book.reservations[r].status in {Captured, Refunded})
      && (s.adjustments[n].status != Pending ==> t.adjustments[n] == s.adjustments[n])
  {
    ReachableInv(s);
    RunLater(s, ops);
    assert RowLater(s.book.reservations[r], Run(s, ops).book.reservations[r]);
  }

  // ---- Payments ----

  // A period's reversed credits are the rounded share of the reversed amount, and are
  // exactly what its bucket lost to reversals plus the debt its reversals created.
  lemma ReversalAccounting(s: State, period: Ref)
    requires Reachable(s) && period in s.payments
    ensures var st := s.payments[period];
      && st.bucket < |s.book.buckets| && s.book.buckets[st.bucket].source == PaymentSource(period)
      && 0 <= st.amount <= st.original && st.original > 0
      && st.credits == Ceil(s.book.buckets[st.bucket].granted * st.amount, st.original)
      && st.credits == Drained(s.book.journal, st.bucket, REVERSAL) + PeriodDebt(s.reviews, period)
  {
    ReachableInv(s);
    assert PaymentAt(s.book, s.reviews, period, s.payments[period]);
  }

  // An account's debt is the sum of its reviews, and an indebted account is not active.
  lemma DebtAccounting(s: State, a: Ref)
    requires Reachable(s) && a in s.accounts
    ensures s.accounts[a].debt == AccountDebt(s.reviews, a)
    ensures s.accounts[a].debt > 0 ==> s.accounts[a].status == Review
  {
    ReachableInv(s);
  }

  // An indebted account gets no new reservation.
  lemma DebtBlocksReservations(s: State, user: Ref, verified: bool, policy: Option<Policy>, quote: Quote, minutes: nat,
                               reference: Reference, expires: Option<Time>)
    requires Reachable(s) && user in s.accounts && s.accounts[user].debt > 0
    ensures
      var r := Reserve(s, user, verified, policy, quote, minutes, reference, expires);
      r.Ok? ==> r.value.book.reservations == s.book.reservations
  {
    DebtAccounting(s, user);
    hide ReserveBook;
  }

  // A reversal that commits is the credit step of the bucket it finds.
  lemma ReversedShape(s: State, id: Ref, event: Event, origin: Option<Ref>)
    returns (b: nat, state: ReversalState, credits: int)
    requires PaymentReversed(s, id, event, origin).Ok?
    ensures ReversedPeriod(event).Some?
    ensures FindSource(s.book.buckets, PaymentSource(ReversedPeriod(event).value)) == Some(b)
    ensures b < |s.book.buckets| && credits >= 0
    ensures PaymentReversed(s, id, event, origin) ==
      ReverseCredits(s, id, event.kind, ReversedPeriod(event).value, b, state, credits)
  {
    hide ReverseCredits, FindSource, Ceil;
    var plan := PlanReversal(s, event, origin).value;
    b, state, credits := plan.bucket, plan.state, plan.credits;
  }

  // After a reversal its bucket has no reserved credits.
  lemma ReversalEmptiesHolds(s: State, id: Ref, event: Event, origin: Option<Ref>)
    requires Reachable(s) && PaymentReversed(s, id, event, origin).Ok?
    ensures var next := PaymentReversed(s, id, event, origin).value;
      var period := ReversedPeriod(event).value;
      && period in s.payments && s.payments[period].bucket < |next.book.buckets|
      && next.book.buckets[s.payments[period].bucket].reserved == 0
  {
    ReachableInv(s);
    hide Reachable, SInv, PaymentReversed, ReverseCredits, ReleaseHolders;
    var b, state, credits := ReversedShape(s, id, event, origin);
    FoundPayment(s, ReversedPeriod(event).value, b);
    ReverseLeavesNoHold(s, id, event.kind, ReversedPeriod(event).value, b, state, credits);
  }

  lemma ReverseLeavesNoHold(s: State, id: Ref, reason: EventType, period: Ref, b: nat, state: ReversalState,
      credits: int)
    requires b < |s.book.buckets| && |ReleaseHolders(s.book, b, s.clock).buckets| == |s.book.buckets|
    requires ReleaseHolders(s.book, b, s.clock).buckets[b].reserved == 0
    requires ReverseCredits(s, id, reason, period, b, state, credits).Ok?
    ensures var k := ReverseCredits(s, id, reason, period, b, state, credits).value.book;
      b < |k.buckets| && k.buckets[b].reserved == 0
  {
    var k1 := ReleaseHolders(s.book, b, s.clock);
    var unspent := Min(k1.buckets[b].available, credits);
    ShiftAt(k1.buckets, [Row(b, unspent)], Drain, b);
  }

  // Unlike a grant, a reversal counts every time it is applied, also under one event id:
  // the reversed amount grows by what the event names, or by the whole payment when it
  // names nothing or zero.
  lemma ReversalCountsEachTime(s: State, id: Ref, event: Event, origin: Option<Ref>)
    requires PaymentReversed(s, id, event, origin).Ok?
    ensures var period := ReversedPeriod(event).value;
      var next := PaymentReversed(s, id, event, origin).value;
      period in next.payments &&
      var st := next.payments[period];
      var v := if event.amount.Given? && event.amount.value != 0 then event.amount.value else st.original;
      v > 0 && st.amount == v + if period in s.payments then s.payments[period].amount else 0
  {
    hide FindSource, Ceil, ReleaseHolders, TakeBack, ReleaseAll;
  }

  // One payment period has at most one bucket and at most one grant entry, whatever
  // events were delivered, repeated, retried or reconciled, and in whatever order.
  lemma OneGrantPerPeriod(s: State, i: nat, j: nat, e: Ref, f: Ref)
    requires Reachable(s) && i < |s.book.journal| && j < |s.book.journal|
    requires s.book.journal[i].entry.kind == GRANT && s.book.journal[i].entry.key == PaymentKey(e)
    requires s.book.journal[j].entry.kind == GRANT && s.book.journal[j].entry.key == PaymentKey(f)
    ensures e in s.inbox && f in s.inbox
    ensures PeriodOf(s.inbox[e].event, e) == PeriodOf(s.inbox[f].event, f) ==> i == j
  {
    ReachableInv(s);
    assert GrantTargetAt(s.book.buckets, s.inbox, s.book.journal[i]);
    assert GrantTargetAt(s.book.buckets, s.inbox, s.book.journal[j]);
  }

  lemma OneBucketPerPeriod(s: State, b: nat, c: nat)
    requires Reachable(s) && b < |s.book.buckets| && c < |s.book.buckets|
    requires s.book.buckets[b].source.PaymentSource? && s.book.buckets[c].source == s.book.buckets[b].source
    ensures b == c
  {
    ReachableInv(s);
  }

  // A successful payment event acts on book and reversal state only through its grant.
  lemma SucceededShape(s: State, id: Ref, event: Event)
    returns (mid: State, user: Ref, offer: Offer, expires: Option<Time>)
    requires PaymentSucceeded(s, id, event).Ok?
    ensures mid.book == s.book && mid.payments == s.payments
    ensures Payee(s, event).Ok? && user == Payee(s, event).value.0
    ensures Payee(s, event).value.1 in s.offers && offer == s.offers[Payee(s, event).value.1]
    ensures
      var r := GrantPayment(mid, id, PeriodOf(event, id), user, offer, expires);
      && r.Ok? && PaymentSucceeded(s, id, event).value.book == r.value.book
      && PaymentSucceeded(s, id, event).value.payments == r.value.payments
  {
    hide Payee, GrantPayment;
    user := Payee(s, event).value.0;
    offer := PaidOffer(s, event, Payee(s, event).value.1).value;
    var s1 := EnsureAccount(s, user).value;
    if offer.kind == SubscriptionOffer {
      var (s2, end) := Subscribe(s1, event, user, Payee(s, event).value.1, PeriodOf(event, id)).value;
      mid, expires := s2, Some(end);
    } else {
      mid, expires := s1, None;
    }
  }

  // Once a period has been granted, a success event for it, under any event id and
  // also after reversals, changes neither the book nor the reversal state.
  lemma RepeatedSuccess(s: State, id: Ref, event: Event)
    requires Reachable(s) && PeriodOf(event, id) in s.payments && PaymentSucceeded(s, id, event).Ok?
    ensures PaymentSucceeded(s, id, event).value.book == s.book
    ensures PaymentSucceeded(s, id, event).value.payments == s.payments
  {
    ReachableInv(s);
    assert PaymentAt(s.book, s.reviews, PeriodOf(event, id), s.payments[PeriodOf(event, id)]);
    hide Reachable, SInv, Ceil, Tally, Drained, PeriodDebt, FindBucket, PaymentSucceeded, Payee;
    var mid, user, offer, expires := SucceededShape(s, id, event);
  }

  // A granted period stays granted.
  lemma GrantStays(s: State, ops: seq<Timed>, period: Ref)
    requires Reachable(s) && period in s.payments
    ensures Reachable(Run(s, ops)) && period in Run(s, ops).payments
  {
    ReachableInv(s);
    ReachableOn(s, ops);
    ReachableInv(Run(s, ops));
    assert PaymentAt(s.book, s.reviews, period, s.payments[period]);
    var b := s.payments[period].bucket;
    RunLater(s, ops);
    hide Run, Reachable, Inv, Drained, PeriodDebt, GrantTargets, AdjustmentsOk;
    assert Run(s, ops).book.buckets[b].source == PaymentSource(period);
  }

  // ---- Adjustments ----

  // An executed adjustment has exactly one ledger entry, of its amount and account;
  // a pending or rejected one has none; one under dual control was decided by
  // someone other than its requester.
  lemma DualControl(s: State, n: nat)
    requires Reachable(s) && n < |s.adjustments|
    ensures AdjustmentItems(s.book.journal, n) ==
      if s.adjustments[n].status == Executed then [(s.adjustments[n].target, s.adjustments[n].amount)] else []
    ensures s.adjustments[n].status == Executed && s.adjustments[n].dual ==>
      s.adjustments[n].decider.Some? && s.adjustments[n].decider.value != s.adjustments[n].requester
  {
    ReachableInv(s);
    assert AdjustmentItems(s.book.journal, n) == ExpectedItems(s.adjustments, n);
  }
}
