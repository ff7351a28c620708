/** What `reserve`, the signup trial and the account view leave behind, told from the tables
before them: who gets a reservation, which buckets pay for it in which order, what the
sweep enters, and which error refuses. */
module ReserveOutcomes {
  import opened Prelude
  import opened Ledger
  import opened LedgerInvariants
  import opened LedgerMoves
  import opened CreditOps
  import opened CreditLaws
  import opened Billing
  import opened BillingLaws
  import opened Guarantees
  import opened ReservationRuns
  import opened SpendingOutcomes

  // The accounts once this user has one.
  function WithAccount(accounts: map<Ref, Account>, user: Ref): map<Ref, Account> {
    if user in accounts then accounts else accounts[user := Account(Active, 0)]
  }

  // ---- The signup trial ----

  // The user's bucket of this trial exists already.
  predicate HasTrial(bs: seq<Bucket>, p: Policy, user: Ref) {
    exists b :: 0 <= b < |bs| &&
      bs[b].account == user && bs[b].kind == TrialBucket && bs[b].source == TrialSource(p.id, user)
  }

  // `next` has one more bucket: the trial's credits, which expire with the policy's term.
  ghost predicate TrialAdded(s: State, next: Book, p: Policy, user: Ref) {
    && next.reservations == s.book.reservations
    && next.buckets == s.book.buckets +
      [Bucket(user, TrialBucket, TrialSource(p.id, user), p.credits, p.credits, 0, Some(s.clock + p.validFor))]
    && OneEntry(s.book.journal, next.journal,
                Entry(user, Some(|s.book.buckets|), p.credits, GRANT, Balance(s.book.buckets, user) + p.credits,
                      TrialKey(p.id, user)))
  }

  // Only verified users get a trial, each once per policy key and only while the policy is
  // enabled; a bucket left by an earlier grant is kept as it is.
  lemma TrialOutcome(s: State, user: Ref, verified: bool, policy: Option<Policy>)
    requires Reachable(s)
    ensures
      var out := EnsureTrial(s, user, verified, policy);
      if !verified then out == Ok(s)
      else if policy.None? then out == Err(TrialPolicyUnavailable)
      else
        var p := policy.value;
        if !p.enabled || (user, p.key) in s.trials then out == Ok(s)
        else if user !in s.accounts && user !in s.users then out == Err(UserNotFound)
        else if !HasTrial(s.book.buckets, p, user) && p.credits == 0 then out == Err(ZeroLedgerEntry)
        else
          && out.Ok?
          && out.value == s.(accounts := WithAccount(s.accounts, user), trials := s.trials + {(user, p.key)},
                             book := out.value.book)
          && if HasTrial(s.book.buckets, p, user) then out.value.book == s.book
             else TrialAdded(s, out.value.book, p, user)
  {
    hide Reachable, SInv, FindBucket, TrialAdded, AddGrant;
    if verified && policy.Some? && policy.value.enabled && (user, policy.value.key) !in s.trials {
      ReachableInv(s);
      var p := policy.value;
      FindBucketCorrect(s.book.buckets, user, TrialBucket, TrialSource(p.id, user));
      if !HasTrial(s.book.buckets, p, user) && p.credits > 0 { TrialAdds(s, p, user); }
    }
  }

  lemma TrialAdds(s: State, p: Policy, user: Ref)
    requires SInv(s) && FindBucket(s.book.buckets, user, TrialBucket, TrialSource(p.id, user)).None? && p.credits > 0
    ensures
      var b := Bucket(user, TrialBucket, TrialSource(p.id, user), p.credits, p.credits, 0, Some(s.clock + p.validFor));
      TrialAdded(s, AddGrant(s.book, b, GRANT, TrialKey(p.id, user)), p, user)
  {
    hide Inv, AdjustmentsOk, PaymentAt, AccountsOk, ReviewsOk, OffersOk;
    var b := Bucket(user, TrialBucket, TrialSource(p.id, user), p.credits, p.credits, 0, Some(s.clock + p.validFor));
    FindBucketCorrect(s.book.buckets, user, TrialBucket, TrialSource(p.id, user));
    if Used(s.book.journal, user, TrialKey(p.id, user)) { var c := UsedGrant(s, user, TrialKey(p.id, user)); }
    BalanceAppend(s.book.buckets, b, user);
    hide Balance, Used, FindBucket;
  }

  // ---- The sweep ----

  // A bucket after its account's expired buckets were swept.
  function Swept(x: Bucket, a: Ref, now: Time): Bucket {
    if x.account == a && x.expires.Some? && x.expires.value <= now then x.(available := 0) else x
  }

  lemma SweepOutcome(k: Book, now: Time, a: Ref)
    requires Inv(k, now)
    ensures
      var next := ExpireBuckets(k, a, now);
      && Inv(next, now) && next.reservations == k.reservations && |next.buckets| == |k.buckets|
      && (forall b :: 0 <= b < |k.buckets| ==> next.buckets[b] == Swept(k.buckets[b], a, now))
  {
    ExpireBucketsKeeps(k, now, now, a);
    hide Inv, ExpireBuckets;
  }

  // An expired bucket of the account that still has credits.
  predicate Stale(x: Bucket, a: Ref, now: Time) {
    x.account == a && x.expires.Some? && x.expires.value <= now && x.available > 0
  }

  // The sweep enters, oldest bucket first, one expiry of the credits each expired bucket of
  // the account still had.
  lemma SweepEntries(k: Book, now: Time, a: Ref) returns (ids: seq<nat>)
    ensures forall b: nat :: b in ids <==> b < |k.buckets| && Stale(k.buckets[b], a, now)
    ensures forall i, j :: 0 <= i < j < |ids| ==> ids[i] < ids[j]
    ensures forall i :: 0 <= i < |ids| ==> ids[i] < |k.buckets|
    ensures SweptOff(k, ExpireBuckets(k, a, now), a, ids)
  {
    hide ExpiredIds, ExpireAll, SweptOff, Stale;
    ids := ExpiredIds(k.buckets, a, now, |k.buckets|);
    StaleIds(k.buckets, a, now, ids);
    SweepItems(k, a, ids);
  }

  lemma StaleIds(bs: seq<Bucket>, a: Ref, now: Time, ids: seq<nat>)
    requires ids == ExpiredIds(bs, a, now, |bs|)
    ensures forall b: nat :: b in ids <==> b < |bs| && Stale(bs[b], a, now)
    ensures forall i, j :: 0 <= i < j < |ids| ==> ids[i] < ids[j]
    ensures forall i :: 0 <= i < |ids| ==> ids[i] < |bs| && bs[ids[i]].account == a
  {
    ExpiredIdsInRange(bs, a, now, |bs|);
    hide ExpiredIds;
    forall b: nat ensures b in ids <==> b < |bs| && Stale(bs[b], a, now) {
      if b in ids {
        var i :| 0 <= i < |ids| && ids[i] == b;
      }
    }
  }

  predicate SweptEntry(i: Item, a: Ref, b: nat, amount: int) {
    && i.draws == [Row(b, amount)]
    && i.entry == Entry(a, Some(b), -amount, EXPIRE, i.entry.balanceAfter, ExpireKey(b))
  }

  // Expiry entries of these buckets were appended, and no bucket past the last was touched.
  ghost predicate SweptOff(k: Book, next: Book, a: Ref, ids: seq<nat>)
    requires forall i :: 0 <= i < |ids| ==> ids[i] < |k.buckets|
  {
    && |next.buckets| == |k.buckets|
    && |next.journal| == |k.journal| + |ids| && next.journal[..|k.journal|] == k.journal
    && (forall b :: 0 <= b < |k.buckets| && (|ids| > 0 ==> ids[|ids| - 1] < b) ==> next.buckets[b] == k.buckets[b])
    && forall i :: 0 <= i < |ids| ==>
      SweptEntry(next.journal[|k.journal| + i], a, ids[i], k.buckets[ids[i]].available)
  }

  lemma {:induction false} SweepItems(k: Book, a: Ref, ids: seq<nat>)
    requires forall i :: 0 <= i < |ids| ==> ids[i] < |k.buckets| && k.buckets[ids[i]].account == a
    requires forall i, j :: 0 <= i < j < |ids| ==> ids[i] < ids[j]
    ensures SweptOff(k, ExpireAll(k, ids), a, ids)
  {
    if |ids| > 0 {
      hide ExpireOne, SweptOff;
      var init, b := ids[..|ids| - 1], ids[|ids| - 1];
      SweepItems(k, a, init);
      var mid, next := ExpireAll(k, init), ExpireAll(k, ids);
      assert next == ExpireOne(mid, b);
      hide ExpireAll;
      SweptOneMore(k, mid, next, a, init, b);
    }
  }

  lemma SweptOneMore(k: Book, mid: Book, next: Book, a: Ref, ids: seq<nat>, b: nat)
    requires b < |k.buckets| && k.buckets[b].account == a
    requires forall i :: 0 <= i < |ids| ==> ids[i] < |k.buckets| && ids[i] < b
    requires SweptOff(k, mid, a, ids) && b < |mid.buckets| && next == ExpireOne(mid, b)
    ensures forall i :: 0 <= i < |ids + [b]| ==> (ids + [b])[i] < |k.buckets|
    ensures SweptOff(k, next, a, ids + [b])
  {
    hide ExpireOne, SweptEntry;
    SweepItem(mid, b);
    var n, more := |k.journal|, ids + [b];
    forall i | 0 <= i < |more| ensures SweptEntry(next.journal[n + i], a, more[i], k.buckets[more[i]].available) {
      if i < |ids| { assert next.journal[n + i] == next.journal[..|mid.journal|][n + i]; }
    }
    assert next.journal[..n] == mid.journal[..n];
  }

  lemma SweepItem(k: Book, b: nat)
    requires b < |k.buckets|
    ensures
      var next := ExpireOne(k, b);
      && next.buckets == k.buckets[b := k.buckets[b].(available := 0)]
      && |next.journal| == |k.journal| + 1 && next.journal[..|k.journal|] == k.journal
      && SweptEntry(next.journal[|k.journal|], k.buckets[b].account, b, k.buckets[b].available)
  {
    hide Balance, Used;
    OneRow([Row(b, k.buckets[b].available)]);
    ShiftOne(k.buckets, Row(b, k.buckets[b].available), Drain);
  }

  // ---- Reserve ----

  // Credits of the account in its first `n` buckets that are unexpired at `now`.
  function Spendable(bs: seq<Bucket>, a: Ref, now: Time, n: nat): int
    requires n <= |bs|
  {
    if n == 0 then 0
    else
      var x := bs[n - 1];
      Spendable(bs, a, now, n - 1) +
      if x.account == a && !(x.expires.Some? && x.expires.value <= now) then x.available else 0
  }

  // Bucket `x`, created as number `b`, is spent before bucket `y`, created as number `c`:
  // trials first, then subscription, top-up and adjustment credits; within one type the
  // earlier expiry, no expiry last; and of equals the older.
  predicate SpentBefore(x: Bucket, b: nat, y: Bucket, c: nat) {
    if x.kind != y.kind then
      || x.kind == TrialBucket
      || (x.kind == SubscriptionBucket && y.kind != TrialBucket)
      || (x.kind == TopupBucket && y.kind == AdjustmentBucket)
    else if x.expires != y.expires then
      x.expires.Some? && (y.expires.None? || x.expires.value < y.expires.value)
    else b < c
  }

  // A bucket the account can spend at `now`.
  predicate Usable(x: Bucket, a: Ref, now: Time) {
    x.account == a && !(x.expires.Some? && x.expires.value <= now) && x.available > 0
  }

  // The rows pay `cost` from usable buckets, and none pays while one before it has credits left.
  ghost predicate PaidInOrder(bs: seq<Bucket>, rows: seq<Row>, a: Ref, cost: int, now: Time) {
    && Total(rows) == cost
    && (forall b :: 0 <= b < |bs| ==> 0 <= Alloc(rows, b) <= Max(0, bs[b].available))
    && (forall b :: 0 <= b < |bs| && Alloc(rows, b) > 0 ==> Usable(bs[b], a, now))
    && forall b, c :: 0 <= b < |bs| && 0 <= c < |bs| && Usable(bs[b], a, now) && Alloc(rows, c) > 0 ==>
      SpentBefore(bs[b], b, bs[c], c) ==> Alloc(rows, b) == bs[b].available
  }

  // One reservation more, its credits held, the account's expired buckets swept.
  ghost predicate Held(k: Book, next: Book, user: Ref, reference: Reference, cost: int, until: Time, now: Time) {
    && |next.reservations| == |k.reservations| + 1
    && var rows := next.reservations[|k.reservations|].rows;
      && next.reservations ==
        k.reservations + [Reservation(user, reference, cost, Status.Reserved, rows, until, None, None, None)]
      && PaidInOrder(k.buckets, rows, user, cost, now)
      && |next.buckets| == |k.buckets|
      && (forall b :: 0 <= b < |k.buckets| ==>
        next.buckets[b] == HeldFrom(Swept(k.buckets[b], user, now), Alloc(rows, b)))
      && next.journal == ExpireBuckets(k, user, now).journal
  }

  function HeldFrom(x: Bucket, credits: int): Bucket {
    x.(available := x.available - credits, reserved := x.reserved + credits)
  }

  lemma {:induction false} OfferedInsert(bs: seq<Bucket>, order: seq<nat>, x: nat)
    requires x < |bs| && forall i :: 0 <= i < |order| ==> order[i] < |bs|
    ensures forall i :: 0 <= i < |Insert(bs, order, x)| ==> Insert(bs, order, x)[i] < |bs|
    ensures Offered(bs, Insert(bs, order, x)) == Offered(bs, order) + bs[x].available
  {
    InsertMembers(bs, order, x);
    if |order| > 0 {
      hide Precedes;
      var init, last := order[..|order| - 1], order[|order| - 1];
      OfferedInsert(bs, init, x);
      assert (order + [x])[..|order|] == order;
      assert (Insert(bs, init, x) + [last])[..|Insert(bs, init, x)|] == Insert(bs, init, x);
    } else {
      assert [x][..0] == [];
    }
  }

  lemma ReserveOrderStep(bs: seq<Bucket>, a: Ref, n: nat)
    requires n <= |bs|
    ensures ReserveOrder(bs, a, n) ==
      if n == 0 then []
      else if bs[n - 1].account == a && bs[n - 1].available > 0 then Insert(bs, ReserveOrder(bs, a, n - 1), n - 1)
      else ReserveOrder(bs, a, n - 1)
  {
    hide Insert;
  }

  // After the sweep, the buckets offered to `reserve` hold the account's spendable credits.
  lemma {:induction false} OfferedSpendable(bs: seq<Bucket>, swept: seq<Bucket>, a: Ref, now: Time, n: nat)
    requires n <= |bs| == |swept|
    requires forall b :: 0 <= b < |bs| ==> swept[b] == Swept(bs[b], a, now) && swept[b].available >= 0
    ensures Offered(swept, ReserveOrder(swept, a, n)) == Spendable(bs, a, now, n)
  {
    hide Insert, Offered, ReserveOrder;
    ReserveOrderStep(swept, a, n);
    if n > 0 {
      OfferedSpendable(bs, swept, a, now, n - 1);
      OfferedInsert(swept, ReserveOrder(swept, a, n - 1), n - 1);
      assert swept[n - 1] == Swept(bs[n - 1], a, now);
    } else {
      OfferedNone(swept);
    }
  }

  lemma OfferedNone(bs: seq<Bucket>)
    ensures Offered(bs, []) == 0
  {}

  // When the need covers the offer, every listed bucket pays all it has.
  lemma {:induction false} GreedyAll(bs: seq<Bucket>, order: seq<nat>, need: int, i: nat)
    requires Drawable(bs, order) && Distinct(order) && Offered(bs, order) <= need && need >= 0 && i < |order|
    ensures Alloc(Greedy(bs, order, need), order[i]) == bs[order[i]].available
  {
    hide Greedy, Alloc, Total;
    var init, last := order[..|order| - 1], order[|order| - 1];
    assert bs[last].available > 0;
    GreedyTotal(bs, init, need);
    GreedyStep(bs, order, need, order[i]);
    if i < |init| {
      GreedyAll(bs, init, need, i);
    } else {
      assert last !in init;
      GreedyAlloc(bs, init, need, last);
    }
  }

  // A bucket pays only after every bucket listed before it has paid all it has.
  lemma {:induction false} GreedyInOrder(bs: seq<Bucket>, order: seq<nat>, need: int, i: nat, j: nat)
    requires Drawable(bs, order) && Distinct(order) && need >= 0 && i < j < |order|
    requires Alloc(Greedy(bs, order, need), order[j]) > 0
    ensures Alloc(Greedy(bs, order, need), order[i]) == bs[order[i]].available
  {
    hide Greedy, Alloc, Total, Offered;
    var init, last := order[..|order| - 1], order[|order| - 1];
    GreedyTotal(bs, init, need);
    GreedyStep(bs, order, need, order[i]);
    GreedyStep(bs, order, need, order[j]);
    if j < |init| {
      GreedyInOrder(bs, init, need, i, j);
    } else {
      assert last !in init;
      GreedyAlloc(bs, init, need, last);
      GreedyAll(bs, init, need, i);
    }
  }

  lemma SpentBeforePrecedes(bs: seq<Bucket>, b: nat, c: nat)
    requires b < |bs| && c < |bs|
    ensures SpentBefore(bs[b], b, bs[c], c) <==> Precedes(bs, b, c)
    ensures SpentBefore(bs[b], b, bs[c], c) ==> b != c && !SpentBefore(bs[c], c, bs[b], b)
  {}

  // Along a list in spend order, a bucket that comes before a paying one pays all it has.
  lemma EarlierPays(bs: seq<Bucket>, order: seq<nat>, cost: int, b: nat, c: nat)
    requires Drawable(bs, order) && InSpendOrder(bs, order) && Distinct(order) && cost >= 0
    requires b in order && c < |bs| && Alloc(Greedy(bs, order, cost), c) > 0 && SpentBefore(bs[b], b, bs[c], c)
    ensures Alloc(Greedy(bs, order, cost), b) == bs[b].available
  {
    hide Greedy, Alloc, SpentBefore, Precedes;
    GreedyAlloc(bs, order, cost, c);
    var i :| 0 <= i < |order| && order[i] == b;
    var j :| 0 <= j < |order| && order[j] == c;
    SpentBeforePrecedes(bs, b, c);
    SpentBeforePrecedes(bs, c, b);
    GreedyInOrder(bs, order, cost, i, j);
  }

  // The greedy draw along the spend order pays in order.
  lemma GreedyPays(bs: seq<Bucket>, swept: seq<Bucket>, a: Ref, cost: int, now: Time)
    requires |bs| == |swept| && cost >= 0
    requires forall b :: 0 <= b < |bs| ==> swept[b] == Swept(bs[b], a, now) && swept[b].available >= 0
    requires Offered(swept, ReserveOrder(swept, a, |swept|)) >= cost
    ensures PaidInOrder(bs, Greedy(swept, ReserveOrder(swept, a, |swept|), cost), a, cost, now)
  {
    hide ReserveOrder, Greedy, Alloc, Total, Offered, SpentBefore, Precedes, Insert;
    var order := ReserveOrder(swept, a, |swept|);
    var rows := Greedy(swept, order, cost);
    ReserveOrderCorrect(swept, a, |swept|);
    assert Drawable(swept, order) by { forall i | 0 <= i < |order| ensures order[i] in order {} }
    GreedyTotal(swept, order, cost);
    forall b | 0 <= b < |bs|
      ensures 0 <= Alloc(rows, b) <= Max(0, bs[b].available) && (Alloc(rows, b) > 0 ==> Usable(bs[b], a, now))
    {
      GreedyAlloc(swept, order, cost, b);
    }
    forall b, c | 0 <= b < |bs| && 0 <= c < |bs| && Usable(bs[b], a, now) && Alloc(rows, c) > 0
        && SpentBefore(bs[b], b, bs[c], c)
      ensures Alloc(rows, b) == bs[b].available
    {
      SameOrder(bs, swept, a, now, b, c);
      EarlierPays(swept, order, cost, b, c);
    }
  }

  lemma SameOrder(bs: seq<Bucket>, swept: seq<Bucket>, a: Ref, now: Time, b: nat, c: nat)
    requires b < |bs| == |swept| && c < |bs|
    requires forall b :: 0 <= b < |bs| ==> swept[b] == Swept(bs[b], a, now)
    ensures SpentBefore(bs[b], b, bs[c], c) <==> SpentBefore(swept[b], b, swept[c], c)
  {}

  lemma HeldOutcome(k: Book, now: Time, user: Ref, cost: int, reference: Reference, until: Time)
    requires Inv(k, now) && cost > 0
    ensures
      var out := ReserveBook(k, user, cost, reference, until, now);
      if Spendable(k.buckets, user, now, |k.buckets|) < cost then out == Err(InsufficientCredits)
      else out.Ok? && Held(k, out.value, user, reference, cost, until, now)
  {
    SweepOutcome(k, now, user);
    var k1 := ExpireBuckets(k, user, now);
    var n := |k.buckets|;
    forall b | 0 <= b < n ensures k1.buckets[b].available >= 0 { assert BucketAt(k1, b); }
    hide Inv, ExpireBuckets, ReserveOrder, Greedy, Alloc, Total, Offered, Shift, PaidInOrder;
    OfferedSpendable(k.buckets, k1.buckets, user, now, n);
    var order := ReserveOrder(k1.buckets, user, n);
    if Offered(k1.buckets, order) >= cost {
      var rows := Greedy(k1.buckets, order, cost);
      GreedyPays(k.buckets, k1.buckets, user, cost, now);
      GreedyRange(k1.buckets, order, cost);
      forall b | 0 <= b < n
        ensures Shift(k1.buckets, rows, Hold)[b] == HeldFrom(Swept(k.buckets[b], user, now), Alloc(rows, b))
      {
        ShiftAt(k1.buckets, rows, Hold, b);
      }
    }
  }

  // What the trial leaves for the rest of the call.
  lemma AfterTrial(s: State, user: Ref, verified: bool, policy: Option<Policy>)
    requires Reachable(s) && EnsureTrial(s, user, verified, policy).Ok?
    ensures
      var s1 := EnsureTrial(s, user, verified, policy).value;
      && Inv(s1.book, s.clock) && s1.clock == s.clock && s1.users == s.users
      && s1.book.reservations == s.book.reservations
      && (s1.accounts == s.accounts || (user in s.users && s1.accounts == WithAccount(s.accounts, user)))
  {
    hide Reachable, SInv, Inv, FindBucket, Balance, Used;
    ReachableInv(s);
    EnsureTrialKeeps(s, user, verified, policy);
    BookInv(EnsureTrial(s, user, verified, policy).value);
  }

  // An existing reservation with the reference answers the call and nothing is held. Else
  // exactly one is added, reserved until the given time or for two hours, paid from the
  // account's unexpired buckets in spend order; it is refused, in this order, without a
  // price, over the minutes limit, without a user, for a restricted account, and when the
  // account's spendable credits fall short.
  lemma ReserveOutcome(s: State, user: Ref, verified: bool, policy: Option<Policy>, quote: Quote, minutes: nat,
                       reference: Reference, expires: Option<Time>)
    requires Reachable(s)
    ensures
      var trial := EnsureTrial(s, user, verified, policy);
      var out := Execute(s, ReserveOp(user, verified, policy, quote, minutes, reference, expires));
      if trial.Err? then out == trial
      else if quote.NoCatalog? then out == Err(BillingCatalogUnavailable)
      else if quote.NoPrice? then out == Err(FeaturePricingUnavailable)
      else if quote.maxMinutes != 0 && minutes > quote.maxMinutes then out == Err(FeatureLimitExceeded)
      else if quote.cost == 0 || !Fresh(s.book.reservations, reference) then out == trial
      else if user !in s.accounts && user !in s.users then out == Err(UserNotFound)
      else if user in s.accounts && s.accounts[user].status != Active then out == Err(CreditAccountRestricted)
      else
        var s1 := trial.value;
        if Spendable(s1.book.buckets, user, s.clock, |s1.book.buckets|) < quote.cost then
          out == Err(InsufficientCredits)
        else
          && out.Ok? && out.value == s1.(accounts := WithAccount(s1.accounts, user), book := out.value.book)
          && Held(s1.book, out.value.book, user, reference, quote.cost,
                  if expires.Some? then expires.value else s.clock + 2 * 60 * 60, s.clock)
  {
    hide Reachable, Inv, Execute, EnsureTrial, FindReference, ReserveBook, Fresh, Held, Spendable;
    Dispatch(s, ReserveOp(user, verified, policy, quote, minutes, reference, expires));
    if EnsureTrial(s, user, verified, policy).Ok? {
      var s1 := EnsureTrial(s, user, verified, policy).value;
      AfterTrial(s, user, verified, policy);
      FindReferenceCorrect(s.book.reservations, reference);
      if quote.Price? && quote.cost > 0 {
        var until := if expires.Some? then expires.value else s.clock + 2 * 60 * 60;
        HeldOutcome(s1.book, s.clock, user, quote.cost, reference, until);
      }
    }
  }

  // ---- The account view ----

  // A view grants the trial that is due, opens the account, and sweeps its expired buckets.
  lemma ViewOutcome(s: State, user: Ref, verified: bool, policy: Option<Policy>)
    requires Reachable(s)
    ensures
      var trial, out := EnsureTrial(s, user, verified, policy), Execute(s, ViewOp(user, verified, policy));
      if trial.Err? then out == trial
      else if user !in s.accounts && user !in s.users then out == Err(UserNotFound)
      else
        var s1 := trial.value;
        && out.Ok? && out.value == s1.(accounts := WithAccount(s1.accounts, user), book := out.value.book)
        && out.value.book.reservations == s.book.reservations
        && |out.value.book.buckets| == |s1.book.buckets|
        && forall b :: 0 <= b < |s1.book.buckets| ==>
          out.value.book.buckets[b] == Swept(s1.book.buckets[b], user, s.clock)
  {
    hide Reachable, Inv, Execute, EnsureTrial, ExpireBuckets;
    Dispatch(s, ViewOp(user, verified, policy));
    if EnsureTrial(s, user, verified, policy).Ok? {
      AfterTrial(s, user, verified, policy);
      SweepOutcome(EnsureTrial(s, user, verified, policy).value.book, s.clock, user);
    }
  }
}
