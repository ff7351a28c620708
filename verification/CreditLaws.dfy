/** What the credit operations guarantee, and that each keeps the book's invariants. */
module CreditLaws {
  import opened Prelude
  import opened Ledger
  import opened LedgerInvariants
  import opened LedgerMoves
  import opened CreditOps

  // ---- Expiry ----

  lemma ExpireOneKeeps(k: Book, now: Time, b: nat)
    requires Inv(k, now) && b < |k.buckets| && Expired(k.buckets[b].expires, now) && k.buckets[b].available > 0
    ensures Inv(ExpireOne(k, b), now) && ExpireOne(k, b).reservations == k.reservations
    ensures ExpireOne(k, b).buckets == k.buckets[b := k.buckets[b].(available := 0)]
  {
    var rows := [Row(b, k.buckets[b].available)];
    OneRow(rows);
    assert Shift(k.buckets, rows[..0], Drain) == k.buckets;
    forall c | 0 <= c < |k.buckets| ensures Alloc(rows, c) <= k.buckets[c].available { assert BucketAt(k, c); }
    DrainKeeps(k, now, now, k.buckets[b].account, rows, EXPIRE, ExpireKey(b), Some(b));
  }

  // Sweeping a set of expired buckets empties them and touches nothing else.
  lemma {:induction false} ExpireAllKeeps(k: Book, was: Time, now: Time, ids: seq<nat>)
    requires Inv(k, was) && was <= now
    requires forall i :: 0 <= i < |ids| ==>
      ids[i] < |k.buckets| && Expired(k.buckets[ids[i]].expires, now) && k.buckets[ids[i]].available > 0
    requires forall i, j :: 0 <= i < j < |ids| ==> ids[i] < ids[j]
    ensures Inv(ExpireAll(k, ids), now)
    ensures ExpireAll(k, ids).reservations == k.reservations
    ensures forall b :: 0 <= b < |k.buckets| ==>
      ExpireAll(k, ids).buckets[b] == if b in ids then k.buckets[b].(available := 0) else k.buckets[b]
  {
    if |ids| == 0 {
      QuietJournal(k, k, was, now);
    } else {
      var init, b := ids[..|ids| - 1], ids[|ids| - 1];
      assert ids == init + [b];
      hide Inv, ExpireOne;
      ExpireAllKeeps(k, was, now, init);
      ExpireOneKeeps(ExpireAll(k, init), now, b);
    }
  }

  lemma ShiftOne(bs: seq<Bucket>, r: Row, f: Flow)
    requires r.bucket < |bs|
    ensures Shift(bs, [r], f) == bs[r.bucket := Ledger.Adjust(bs[r.bucket], r.amount, f)]
  {
    assert [r][..0] == [];
  }

  lemma OneRow(rows: seq<Row>)
    requires |rows| == 1
    ensures Total(rows) == rows[0].amount
    ensures forall b: nat :: Alloc(rows, b) == if rows[0].bucket == b then rows[0].amount else 0
  {
    assert rows[..0] == [];
  }

  // After the sweep no expired bucket of the account has credits, and every
  // other bucket is as it was.
  lemma ExpireBucketsKeeps(k: Book, was: Time, now: Time, a: Ref)
    requires Inv(k, was) && was <= now
    ensures
      var k1 := ExpireBuckets(k, a, now);
      && Inv(k1, now) && k1.reservations == k.reservations && |k1.buckets| == |k.buckets|
      && forall b :: 0 <= b < |k.buckets| ==>
        k1.buckets[b] == if k.buckets[b].account == a && Expired(k.buckets[b].expires, now)
                         then k.buckets[b].(available := 0) else k.buckets[b]
  {
    var ids := ExpiredIds(k.buckets, a, now, |k.buckets|);
    ExpiredIdsInRange(k.buckets, a, now, |k.buckets|);
    ExpireAllKeeps(k, was, now, ids);
    forall b | 0 <= b < |k.buckets|
      ensures ExpireBuckets(k, a, now).buckets[b] ==
        if k.buckets[b].account == a && Expired(k.buckets[b].expires, now) then k.buckets[b].(available := 0)
          else k.buckets[b]
    {
      assert BucketAt(k, b);
    }
  }

  // ---- Spend order and greedy draw ----

  ghost predicate Distinct(order: seq<nat>) {
    forall i, j :: 0 <= i < j < |order| ==> order[i] != order[j]
  }

  ghost predicate InSpendOrder(bs: seq<Bucket>, order: seq<nat>) {
    && (forall i :: 0 <= i < |order| ==> order[i] < |bs|)
    && forall i, j :: 0 <= i < j < |order| ==> Precedes(bs, order[i], order[j])
  }

  lemma {:induction false} InsertKeepsOrder(bs: seq<Bucket>, order: seq<nat>, x: nat)
    requires x < |bs| && InSpendOrder(bs, order)
    requires forall i :: 0 <= i < |order| ==> order[i] < x
    ensures InSpendOrder(bs, Insert(bs, order, x)) && |Insert(bs, order, x)| == |order| + 1
  {
    if |order| > 0 && !Precedes(bs, order[|order| - 1], x) {
      var init, last := order[..|order| - 1], order[|order| - 1];
      InsertKeepsOrder(bs, init, x);
      InsertMembers(bs, init, x);
      var r := Insert(bs, init, x);
      forall i | 0 <= i < |r| ensures Precedes(bs, r[i], last) {
        assert r[i] in r;
        if r[i] != x {
          var j :| 0 <= j < |init| && init[j] == r[i];
          assert order[j] == r[i];
        }
      }
    }
  }

  lemma {:induction false} ReserveOrderMembers(bs: seq<Bucket>, a: Ref, n: nat)
    requires n <= |bs|
    ensures forall b: nat :: b in ReserveOrder(bs, a, n) <==> b < n && bs[b].account == a && bs[b].available > 0
  {
    if n > 0 {
      ReserveOrderMembers(bs, a, n - 1);
      InsertMembers(bs, ReserveOrder(bs, a, n - 1), n - 1);
    }
  }

  lemma {:induction false} ReserveOrderSorted(bs: seq<Bucket>, a: Ref, n: nat)
    requires n <= |bs|
    ensures InSpendOrder(bs, ReserveOrder(bs, a, n))
  {
    if n > 0 {
      ReserveOrderSorted(bs, a, n - 1);
      InsertKeepsOrder(bs, ReserveOrder(bs, a, n - 1), n - 1);
    }
  }

  // `reserve` considers exactly the account's buckets with credits, each once, in spend order.
  lemma ReserveOrderCorrect(bs: seq<Bucket>, a: Ref, n: nat)
    requires n <= |bs|
    ensures InSpendOrder(bs, ReserveOrder(bs, a, n)) && Distinct(ReserveOrder(bs, a, n))
    ensures forall b: nat :: b in ReserveOrder(bs, a, n) <==> b < n && bs[b].account == a && bs[b].available > 0
  {
    ReserveOrderSorted(bs, a, n);
    ReserveOrderMembers(bs, a, n);
    PrecedesIrreflexive(bs, ReserveOrder(bs, a, n));
  }

  lemma PrecedesIrreflexive(bs: seq<Bucket>, order: seq<nat>)
    requires InSpendOrder(bs, order)
    ensures Distinct(order)
  {
    forall i, j | 0 <= i < j < |order| ensures order[i] != order[j] {
      assert Precedes(bs, order[i], order[j]);
    }
  }

  lemma {:induction false} CreationOrderCorrect(bs: seq<Bucket>, a: Ref, n: nat)
    requires n <= |bs|
    ensures forall i, j :: 0 <= i < j < |CreationOrder(bs, a, n)| ==>
      CreationOrder(bs, a, n)[i] < CreationOrder(bs, a, n)[j]
    ensures forall b: nat :: b in CreationOrder(bs, a, n) <==> b < n && bs[b].account == a && bs[b].available > 0
  {
    if n > 0 { CreationOrderCorrect(bs, a, n - 1); }
  }

  ghost predicate Drawable(bs: seq<Bucket>, order: seq<nat>) {
    forall i :: 0 <= i < |order| ==> order[i] < |bs| && bs[order[i]].available > 0
  }

  // The draw takes the whole need, or everything offered.
  lemma {:induction false} GreedyTotal(bs: seq<Bucket>, order: seq<nat>, need: int)
    requires Drawable(bs, order) && need >= 0
    ensures Total(Greedy(bs, order, need)) == Min(need, Offered(bs, order))
  {
    if |order| > 0 {
      GreedyTotal(bs, order[..|order| - 1], need);
      var rows := Greedy(bs, order[..|order| - 1], need);
      var b := order[|order| - 1];
      var amount := Min(bs[b].available, need - Total(rows));
      assert (rows + [Row(b, amount)])[..|rows|] == rows;
    }
  }

  // Each row takes a positive amount that its bucket can pay, and only listed buckets pay.
  lemma {:induction false} GreedyRows(bs: seq<Bucket>, order: seq<nat>, need: int)
    requires Drawable(bs, order) && need >= 0
    ensures forall i :: 0 <= i < |Greedy(bs, order, need)| ==>
      Greedy(bs, order, need)[i].bucket in order && Greedy(bs, order, need)[i].amount > 0
  {
    if |order| > 0 {
      var init := order[..|order| - 1];
      assert order == init + [order[|order| - 1]];
      GreedyTotal(bs, init, need);
      GreedyRows(bs, init, need);
    }
  }

  lemma {:induction false} GreedyAlloc(bs: seq<Bucket>, order: seq<nat>, need: int, b: nat)
    requires Drawable(bs, order) && Distinct(order) && need >= 0
    ensures b !in order ==> Alloc(Greedy(bs, order, need), b) == 0
    ensures b in order ==> 0 <= Alloc(Greedy(bs, order, need), b) <= bs[b].available
  {
    if |order| > 0 {
      var init, last := order[..|order| - 1], order[|order| - 1];
      assert order == init + [last];
      GreedyTotal(bs, init, need);
      GreedyAlloc(bs, init, need, b);
      GreedyStep(bs, order, need, b);
      assert last !in init;
    }
  }

  lemma AllocAppend(rows: seq<Row>, x: Row, b: nat)
    ensures Alloc(rows + [x], b) == Alloc(rows, b) + if x.bucket == b then x.amount else 0
  {
    assert (rows + [x])[..|rows|] == rows;
  }

  lemma GreedyStep(bs: seq<Bucket>, order: seq<nat>, need: int, b: nat)
    requires |order| > 0 && forall i :: 0 <= i < |order| ==> order[i] < |bs|
    ensures
      var init, last := order[..|order| - 1], order[|order| - 1];
      var rows := Greedy(bs, init, need);
      Alloc(Greedy(bs, order, need), b) == Alloc(rows, b) + if b == last
        then Min(bs[last].available, need - Total(rows)) else 0
  {
    var init, last := order[..|order| - 1], order[|order| - 1];
    var rows := Greedy(bs, init, need);
    var amount := Min(bs[last].available, need - Total(rows));
    AllocAppend(rows, Row(last, amount), b);
  }

  // What a list of rows takes from the listed buckets together.
  function DrawnFrom(rows: seq<Row>, ids: seq<nat>): int {
    if |ids| == 0 then 0 else DrawnFrom(rows, ids[..|ids| - 1]) + Alloc(rows, ids[|ids| - 1])
  }

  lemma {:induction false} DrawnUnchanged(rows: seq<Row>, more: seq<Row>, ids: seq<nat>)
    requires forall i :: 0 <= i < |ids| ==> Alloc(rows, ids[i]) == Alloc(more, ids[i])
    ensures DrawnFrom(rows, ids) == DrawnFrom(more, ids)
  {
    if |ids| > 0 { DrawnUnchanged(rows, more, ids[..|ids| - 1]); }
  }

  // A later bucket leaves what earlier buckets pay unchanged.
  lemma GreedyLater(bs: seq<Bucket>, order: seq<nat>, need: int, ids: seq<nat>)
    requires |order| > 0 && forall i :: 0 <= i < |order| ==> order[i] < |bs|
    requires order[|order| - 1] !in ids
    ensures DrawnFrom(Greedy(bs, order, need), ids) == DrawnFrom(Greedy(bs, order[..|order| - 1], need), ids)
  {
    forall i | 0 <= i < |ids|
      ensures Alloc(Greedy(bs, order[..|order| - 1], need), ids[i]) == Alloc(Greedy(bs, order, need), ids[i])
    {
      GreedyStep(bs, order, need, ids[i]);
    }
    DrawnUnchanged(Greedy(bs, order[..|order| - 1], need), Greedy(bs, order, need), ids);
  }

  // The greedy draw is prefix optimal: the first `p` buckets pay all they can.
  lemma {:induction false} GreedyPrefixOptimal(bs: seq<Bucket>, order: seq<nat>, need: int, p: nat)
    requires Drawable(bs, order) && Distinct(order) && need >= 0 && p <= |order|
    ensures DrawnFrom(Greedy(bs, order, need), order[..p]) == Min(need, Offered(bs, order[..p]))
  {
    hide Greedy, Alloc, Total;
    if p > 0 {
      var init, last := order[..|order| - 1], order[|order| - 1];
      if p < |order| {
        assert init[..p] == order[..p];
        GreedyLater(bs, order, need, order[..p]);
        GreedyPrefixOptimal(bs, init, need, p);
      } else {
        assert order[..p] == order && init[..p - 1] == init && order[..p][..p - 1] == init;
        GreedyLater(bs, order, need, init);
        GreedyPrefixOptimal(bs, init, need, p - 1);
        GreedyStep(bs, order, need, last);
        GreedyAlloc(bs, init, need, last);
        GreedyTotal(bs, init, need);
      }
    }
  }

  lemma GreedyCovered(bs: seq<Bucket>, order: seq<nat>, need: int, a: Ref)
    requires Drawable(bs, order) && Distinct(order) && need >= 0
    requires forall b :: 0 <= b < |bs| ==> bs[b].available >= 0
    requires forall i :: 0 <= i < |order| ==> bs[order[i]].account == a
    ensures Covered(bs, Greedy(bs, order, need), a)
  {
    GreedyRows(bs, order, need);
    var rows := Greedy(bs, order, need);
    forall i | 0 <= i < |rows|
      ensures rows[i].bucket < |bs| && rows[i].amount > 0 && bs[rows[i].bucket].account == a
    {
      var j :| 0 <= j < |order| && order[j] == rows[i].bucket;
    }
    forall b | 0 <= b < |bs| ensures Alloc(rows, b) <= bs[b].available {
      GreedyAlloc(bs, order, need, b);
    }
  }

  // ---- Reserve ----

  // A reservation draws exactly its cost, prefix-optimally in spend order, and
  // never from a bucket expired at `now`; without enough credits it is refused.
  lemma ReserveCorrect(k: Book, was: Time, now: Time, a: Ref, cost: int, reference: Reference, expires: Time)
    requires Inv(k, was) && was <= now && cost > 0
    ensures
      var r := ReserveBook(k, a, cost, reference, expires, now);
      var bs := ExpireBuckets(k, a, now).buckets;
      var order := ReserveOrder(bs, a, |bs|);
      && (r.Err? <==> Offered(bs, order) < cost)
      && (r.Ok? ==>
        var n := |k.reservations|;
        && |r.value.reservations| == n + 1
        && var rows := r.value.reservations[n].rows;
           && Total(rows) == cost
           && (forall p :: 0 <= p <= |order| ==> DrawnFrom(rows, order[..p]) == Min(cost, Offered(bs, order[..p])))
           && (forall b :: 0 <= b < |k.buckets| && Alloc(rows, b) > 0 ==>
             k.buckets[b].account == a && !Expired(k.buckets[b].expires, now)))
  {
    ExpireBucketsKeeps(k, was, now, a);
    var k1 := ExpireBuckets(k, a, now);
    var bs := k1.buckets;
    var order := ReserveOrder(bs, a, |bs|);
    ReserveOrderCorrect(bs, a, |bs|);
    forall i | 0 <= i < |order| ensures order[i] < |bs| && bs[order[i]].available > 0 && bs[order[i]].account == a {
      assert order[i] in order;
    }
    GreedyTotal(bs, order, cost);
    forall p | 0 <= p <= |order|
      ensures DrawnFrom(Greedy(bs, order, cost), order[..p]) == Min(cost, Offered(bs, order[..p]))
    {
      GreedyPrefixOptimal(bs, order, cost, p);
    }
    forall b | 0 <= b < |k.buckets| && Alloc(Greedy(bs, order, cost), b) > 0
      ensures k.buckets[b].account == a && !Expired(k.buckets[b].expires, now)
    {
      GreedyAlloc(bs, order, cost, b);
      assert BucketAt(k1, b);
    }
  }

  lemma ReserveKeeps(k: Book, was: Time, now: Time, a: Ref, cost: int, reference: Reference, expires: Time)
    requires Inv(k, was) && was <= now && cost > 0
    ensures
      var r := ReserveBook(k, a, cost, reference, expires, now);
      r.Ok? ==>
        && |r.value.reservations| == |k.reservations| + 1 && Inv(r.value, now)
        && InRange(r.value.reservations[|k.reservations|].rows, |k.buckets|)
  {
    ExpireBucketsKeeps(k, was, now, a);
    var k1 := ExpireBuckets(k, a, now);
    var order := ReserveOrder(k1.buckets, a, |k1.buckets|);
    ReserveOrderCorrect(k1.buckets, a, |k1.buckets|);
    if Offered(k1.buckets, order) >= cost {
      AccountOrder(k1, a, order);
      GreedyCovered(k1.buckets, order, cost, a);
      GreedyTotal(k1.buckets, order, cost);
      HoldKeeps(k1, now, now, ReserveBook(k, a, cost, reference, expires, now).value.reservations[|k.reservations|]);
    }
  }

  // A list of the account's buckets with credits can be drawn from.
  lemma AccountOrder(k: Book, a: Ref, order: seq<nat>)
    requires Partitioned(k)
    requires forall b :: b in order ==> b < |k.buckets| && k.buckets[b].account == a && k.buckets[b].available > 0
    ensures Drawable(k.buckets, order)
    ensures forall i :: 0 <= i < |order| ==> k.buckets[order[i]].account == a
    ensures forall b :: 0 <= b < |k.buckets| ==> k.buckets[b].available >= 0
  {
    forall i | 0 <= i < |order| ensures order[i] in order {}
    forall b | 0 <= b < |k.buckets| ensures k.buckets[b].available >= 0 { assert BucketAt(k, b); }
  }

  // ---- Capture, release, refund ----

  // The corrupt-allocation error of `capture` never fires.
  lemma CaptureNeverCorrupt(k: Book, now: Time, id: Option<nat>, at: Time)
    requires Inv(k, now)
    ensures CaptureBook(k, id, at) != Err(ReservationCorrupt)
  {
    if id.Some? && id.value < |k.reservations| && k.reservations[id.value].status == Reserved {
      var r := k.reservations[id.value];
      assert ReservationOk(k.buckets, r);
      forall i | 0 <= i < |r.rows|
        ensures r.rows[i].amount <= Shift(k.buckets, r.rows[..i], Settle)[r.rows[i].bucket].reserved
      {
        var b := r.rows[i].bucket;
        ShiftAt(k.buckets, r.rows[..i], Settle, b);
        assert BucketAt(k, b);
        PartAtMostTally(k.buckets, k.reservations, id.value, b, InStatus(Reserved));
        assert r.rows[..i + 1][..i] == r.rows[..i];
        AllocPrefix(r.rows, i + 1, b);
      }
    }
  }

  lemma {:induction false} AllocPrefix(rows: seq<Row>, m: nat, b: nat)
    requires m <= |rows| && forall i :: 0 <= i < |rows| ==> rows[i].amount > 0
    ensures Alloc(rows[..m], b) <= Alloc(rows, b)
  {
    if m < |rows| {
      AllocPrefix(rows[..|rows| - 1], m, b);
      assert rows[..|rows| - 1][..m] == rows[..m];
    } else {
      assert rows[..m] == rows;
    }
  }

  lemma CaptureBookKeeps(k: Book, was: Time, now: Time, id: Option<nat>)
    requires Inv(k, was) && was <= now
    ensures CaptureBook(k, id, now).Ok? ==> Inv(CaptureBook(k, id, now).value, now)
  {
    QuietJournal(k, k, was, now);
    if id.Some? && id.value < |k.reservations| && k.reservations[id.value].status == Reserved {
      CaptureKeeps(k, was, now, id.value);
    }
  }

  lemma ReleaseBookKeeps(k: Book, was: Time, now: Time, id: Option<nat>)
    requires Inv(k, was) && was <= now
    ensures Inv(ReleaseBook(k, id, now), now)
  {
    QuietJournal(k, k, was, now);
    if id.Some? && id.value < |k.reservations| && k.reservations[id.value].status == Reserved {
      ReleaseKeeps(k, was, now, id.value);
    }
  }

  lemma RefundBookKeeps(k: Book, was: Time, now: Time, id: nat)
    requires Inv(k, was) && was <= now
    ensures RefundBook(k, id, now).Ok? ==> Inv(RefundBook(k, id, now).value, now)
  {
    QuietJournal(k, k, was, now);
    if id < |k.reservations| && k.reservations[id].status == Captured {
      RefundKeeps(k, was, now, id);
    }
  }

  // ---- Grants and adjustments ----

  lemma {:induction false} FindBucketCorrect(bs: seq<Bucket>, a: Ref, kind: BucketType, source: Source)
    ensures
      var r := FindBucket(bs, a, kind, source);
      && (r.Some? ==>
        r.value < |bs| && bs[r.value].account == a && bs[r.value].kind == kind && bs[r.value].source == source)
      && (r.None? ==> forall b :: 0 <= b < |bs| ==>
        !(bs[b].account == a && bs[b].kind == kind && bs[b].source == source))
  {
    if |bs| > 0 {
      FindBucketCorrect(bs[..|bs| - 1], a, kind, source);
      assert forall b :: 0 <= b < |bs| - 1 ==> bs[..|bs| - 1][b] == bs[b];
    }
  }

  lemma {:induction false} FindSourceCorrect(bs: seq<Bucket>, source: Source)
    ensures
      var r := FindSource(bs, source);
      && (r.Some? ==> r.value < |bs| && bs[r.value].source == source)
      && (r.None? ==> forall b :: 0 <= b < |bs| ==> bs[b].source != source)
  {
    if |bs| > 0 {
      FindSourceCorrect(bs[..|bs| - 1], source);
      assert forall b :: 0 <= b < |bs| - 1 ==> bs[..|bs| - 1][b] == bs[b];
    }
  }

  lemma GrantBookKeeps(k: Book, was: Time, now: Time, a: Ref, kind: BucketType, source: Source, amount: int,
      expires: Option<Time>, key: Key)
    requires Inv(k, was) && was <= now && amount >= 0 && (key.TrialKey? || key.PaymentKey?)
    requires FindBucket(k.buckets, a, kind, source).None? ==> !Used(k.journal, a, key)
    ensures
      var r := GrantBook(k, a, kind, source, amount, expires, key);
      r.Ok? ==> Inv(r.value.0, now)
  {
    QuietJournal(k, k, was, now);
    if FindBucket(k.buckets, a, kind, source).None? && amount > 0 {
      GrantKeeps(k, was, now, Bucket(a, kind, source, amount, amount, 0, expires), GRANT, key);
    }
  }

  lemma TakeCovered(k: Book, a: Ref, need: int, order: seq<nat>)
    requires Partitioned(k) && need > 0
    requires order == CreationOrder(k.buckets, a, |k.buckets|) && Offered(k.buckets, order) >= need
    ensures Covered(k.buckets, Greedy(k.buckets, order, need), a) && Total(Greedy(k.buckets, order, need)) == need
  {
    CreationOrderCorrect(k.buckets, a, |k.buckets|);
    hide CreationOrder, BucketAt, Greedy, Offered, Total;
    AccountOrder(k, a, order);
    GreedyCovered(k.buckets, order, need, a);
    GreedyTotal(k.buckets, order, need);
  }

  lemma TakeKeeps(k: Book, was: Time, now: Time, a: Ref, need: int, order: seq<nat>, adjustment: nat)
    requires Inv(k, was) && was <= now && need > 0 && !Used(k.journal, a, AdjustmentKey(adjustment))
    requires order == CreationOrder(k.buckets, a, |k.buckets|) && Offered(k.buckets, order) >= need
    ensures Total(Greedy(k.buckets, order, need)) == need
    ensures Inv(DrainMove(k, a, Greedy(k.buckets, order, need), ADJUSTMENT, AdjustmentKey(adjustment), None), now)
  {
    TakeCovered(k, a, need, order);
    hide Inv, Greedy, Offered, Total, DrainMove;
    DrainKeeps(k, was, now, a, Greedy(k.buckets, order, need), ADJUSTMENT, AdjustmentKey(adjustment), None);
  }

  lemma GiveKeeps(k: Book, was: Time, now: Time, a: Ref, amount: int, adjustment: nat)
    requires Inv(k, was) && was <= now && amount > 0 && !Used(k.journal, a, AdjustmentKey(adjustment))
    ensures Inv(AdjustBook(k, a, amount, adjustment).value, now)
  {
    GrantKeeps(k, was, now, Bucket(a, AdjustmentBucket, AdjustmentSource(adjustment), amount, amount, 0, None),
               ADJUSTMENT, AdjustmentKey(adjustment));
  }

  lemma AdjustBookKeeps(k: Book, was: Time, now: Time, a: Ref, amount: int, adjustment: nat)
    requires Inv(k, was) && was <= now
    ensures AdjustBook(k, a, amount, adjustment).Ok? ==> Inv(AdjustBook(k, a, amount, adjustment).value, now)
  {
    if Used(k.journal, a, AdjustmentKey(adjustment)) {
      QuietJournal(k, k, was, now);
      assert AdjustBook(k, a, amount, adjustment) == Ok(k);
    } else if amount > 0 {
      GiveKeeps(k, was, now, a, amount, adjustment);
    } else if AdjustBook(k, a, amount, adjustment).Ok? {
      TakeKeeps(k, was, now, a, -amount, CreationOrder(k.buckets, a, |k.buckets|), adjustment);
    }
  }

  // ---- Reversal ----

  lemma {:induction false} HoldersCorrect(rs: seq<Reservation>, b: nat, n: nat)
    requires n <= |rs|
    ensures forall r: nat :: r in Holders(rs, b, n) <==> r < n && rs[r].status == Reserved && Mentions(rs[r].rows, b)
  {
    if n > 0 { HoldersCorrect(rs, b, n - 1); }
  }

  lemma {:induction false} ReleaseAllKeeps(k: Book, was: Time, now: Time, ids: seq<nat>)
    requires Inv(k, was) && was <= now
    ensures
      var k1 := ReleaseAll(k, ids, now);
      && Inv(k1, now) && k1.journal == k.journal && Extends(k.buckets, k1.buckets) && |k1.buckets| == |k.buckets|
      && |k1.reservations| == |k.reservations|
      && forall r :: 0 <= r < |k.reservations| ==>
        k1.reservations[r] == if r in ids && k.reservations[r].status == Reserved
                              then k.reservations[r].(status := Released, releasedAt := Some(now))
                                else k.reservations[r]
  {
    hide Shift, BucketAt, JournalOk, Conserved;
    if |ids| == 0 {
      QuietJournal(k, k, was, now);
    } else {
      var init, id := ids[..|ids| - 1], ids[|ids| - 1];
      assert ids == init + [id];
      ReleaseAllKeeps(k, was, now, init);
      var k1 := ReleaseAll(k, init, now);
      ReleaseBookKeeps(k1, now, now, Some(id));
      if id < |k1.reservations| && k1.reservations[id].status == Reserved {
        assert ReservationOk(k1.buckets, k1.reservations[id]);
        ShiftExtends(k1.buckets, k1.reservations[id].rows, Return);
      }
    }
  }

  // After the releases of a reversal, its bucket has no reserved credits.
  lemma ReleaseHoldersCorrect(k: Book, was: Time, now: Time, b: nat)
    requires Inv(k, was) && was <= now && b < |k.buckets|
    ensures
      var k1 := ReleaseHolders(k, b, now);
      && Inv(k1, now) && k1.journal == k.journal && Extends(k.buckets, k1.buckets) && |k1.buckets| == |k.buckets|
      && k1.buckets[b].reserved == 0
  {
    var ids := Holders(k.reservations, b, |k.reservations|);
    HoldersCorrect(k.reservations, b, |k.reservations|);
    ReleaseAllKeeps(k, was, now, ids);
    var k1 := ReleaseHolders(k, b, now);
    forall r | 0 <= r < |k1.reservations| ensures Part(k1.reservations[r], b, InStatus(Reserved)) == 0 {
      assert ReservationOk(k1.buckets, k1.reservations[r]);
      AllocSign(k1.reservations[r].rows, b);
      assert k.reservations[r].rows == k1.reservations[r].rows;
    }
    NoParts(k1.reservations, b, InStatus(Reserved));
    assert BucketAt(k1, b);
  }

  lemma {:induction false} NoParts(rs: seq<Reservation>, b: nat, sel: Selector)
    requires forall r :: 0 <= r < |rs| ==> Part(rs[r], b, sel) == 0
    ensures Tally(rs, b, sel) == 0
  {
    if |rs| > 0 { NoParts(rs[..|rs| - 1], b, sel); }
  }

  lemma TakeBackKeeps(k: Book, was: Time, now: Time, b: nat, unspent: int, event: Ref)
    requires Inv(k, was) && was <= now && b < |k.buckets| && 0 <= unspent <= k.buckets[b].available
    ensures Inv(TakeBack(k, b, unspent, event), now)
    ensures Extends(k.buckets, TakeBack(k, b, unspent, event).buckets)
    ensures |TakeBack(k, b, unspent, event).buckets| == |k.buckets|
    ensures forall c: nat ::
      Drained(TakeBack(k, b, unspent, event).journal, c, REVERSAL) == Drained(k.journal, c, REVERSAL) +
        (if c == b then unspent else 0)
  {
    QuietJournal(k, k, was, now);
    if unspent > 0 {
      var rows := [Row(b, unspent)];
      OneRow(rows);
      forall c | 0 <= c < |k.buckets| ensures Alloc(rows, c) <= k.buckets[c].available { assert BucketAt(k, c); }
      DrainKeeps(k, was, now, k.buckets[b].account, rows, REVERSAL, ReversalKey(event), Some(b));
      ShiftExtends(k.buckets, rows, Drain);
      AppendSums(k.journal, TakeBack(k, b, unspent, event).journal[|k.journal|]);
    }
  }
}
