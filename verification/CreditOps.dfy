/** The book-level effect of the credit operations of `product_billing.py`. */
module CreditOps {
  import opened Prelude
  import opened Ledger

  // ---- Queries ----

  // The account's expired buckets that still have credits, in table order.
  function ExpiredIds(bs: seq<Bucket>, a: Ref, now: Time, n: nat): seq<nat>
    requires n <= |bs|
  {
    if n == 0 then []
    else
      var b := bs[n - 1];
      ExpiredIds(bs, a, now, n - 1) +
      if b.account == a && Expired(b.expires, now) && b.available > 0 then [n - 1] else []
  }

  function Rank(kind: BucketType): nat {
    match kind
    case TrialBucket => 1
    case SubscriptionBucket => 2
    case TopupBucket => 3
    case AdjustmentBucket => 4
  }

  // Spend order: type rank, then expiry with no expiry last, then creation.
  predicate Precedes(bs: seq<Bucket>, x: nat, y: nat)
    requires x < |bs| && y < |bs|
  {
    var rx, ry := Rank(bs[x].kind), Rank(bs[y].kind);
    var ex, ey := bs[x].expires, bs[y].expires;
    || rx < ry
    || (rx == ry && ex.Some? && (ey.None? || ex.value < ey.value))
    || (rx == ry && ex == ey && x < y)
  }

  // Insertion into a list in spend order.
  function Insert(bs: seq<Bucket>, order: seq<nat>, x: nat): seq<nat>
    requires x < |bs| && forall i :: 0 <= i < |order| ==> order[i] < |bs|
  {
    if |order| == 0 then [x]
    else if Precedes(bs, order[|order| - 1], x) then order + [x]
    else Insert(bs, order[..|order| - 1], x) + [order[|order| - 1]]
  }

  // The account's buckets with credits, in spend order.
  function ReserveOrder(bs: seq<Bucket>, a: Ref, n: nat): (order: seq<nat>)
    requires n <= |bs|
    ensures forall i :: 0 <= i < |order| ==> order[i] < n
  {
    if n == 0 then []
    else
      var order := ReserveOrder(bs, a, n - 1);
      if bs[n - 1].account == a && bs[n - 1].available > 0 then
        InsertMembers(bs, order, n - 1);
        Insert(bs, order, n - 1)
      else order
  }

  lemma {:induction false} InsertMembers(bs: seq<Bucket>, order: seq<nat>, x: nat)
    requires x < |bs| && forall i :: 0 <= i < |order| ==> order[i] < |bs|
    ensures forall y :: y in Insert(bs, order, x) <==> y == x || y in order
    ensures forall i :: 0 <= i < |Insert(bs, order, x)| ==> Insert(bs, order, x)[i] in Insert(bs, order, x)
  {
    if |order| > 0 {
      var init := order[..|order| - 1];
      assert order == init + [order[|order| - 1]];
      InsertMembers(bs, init, x);
    }
  }

  // The account's buckets with credits, oldest first.
  function CreationOrder(bs: seq<Bucket>, a: Ref, n: nat): (order: seq<nat>)
    requires n <= |bs|
    ensures forall i :: 0 <= i < |order| ==> order[i] < n
  {
    if n == 0 then []
    else CreationOrder(bs, a, n - 1) + if bs[n - 1].account == a && bs[n - 1].available > 0 then [n - 1] else []
  }

  function Offered(bs: seq<Bucket>, order: seq<nat>): int
    requires forall i :: 0 <= i < |order| ==> order[i] < |bs|
  {
    if |order| == 0 then 0 else Offered(bs, order[..|order| - 1]) + bs[order[|order| - 1]].available
  }

  // Take as much as is still needed from each bucket in turn.
  function Greedy(bs: seq<Bucket>, order: seq<nat>, need: int): seq<Row>
    requires forall i :: 0 <= i < |order| ==> order[i] < |bs|
  {
    if |order| == 0 then []
    else
      var rows := Greedy(bs, order[..|order| - 1], need);
      var b := order[|order| - 1];
      var amount := Min(bs[b].available, need - Total(rows));
      if amount == 0 then rows else rows + [Row(b, amount)]
  }

  // First bucket with this account, type and source.
  function FindBucket(bs: seq<Bucket>, a: Ref, kind: BucketType, source: Source): Option<nat> {
    if |bs| == 0 then None
    else
      var n := |bs| - 1;
      var earlier := FindBucket(bs[..n], a, kind, source);
      if earlier.Some? then earlier
      else if bs[n].account == a && bs[n].kind == kind && bs[n].source == source then Some(n)
      else None
  }

  // First bucket with this source, whatever its account.
  function FindSource(bs: seq<Bucket>, source: Source): Option<nat> {
    if |bs| == 0 then None
    else
      var n := |bs| - 1;
      var earlier := FindSource(bs[..n], source);
      if earlier.Some? then earlier else if bs[n].source == source then Some(n) else None
  }

  function FindReference(rs: seq<Reservation>, reference: Reference): Option<nat> {
    if |rs| == 0 then None
    else
      var n := |rs| - 1;
      var earlier := FindReference(rs[..n], reference);
      if earlier.Some? then earlier else if rs[n].reference == reference then Some(n) else None
  }

  predicate Mentions(rows: seq<Row>, b: nat) {
    exists i :: 0 <= i < |rows| && rows[i].bucket == b
  }

  // Reservations still holding credits of bucket `b`.
  function Holders(rs: seq<Reservation>, b: nat, n: nat): seq<nat>
    requires n <= |rs|
  {
    if n == 0 then []
    else Holders(rs, b, n - 1) + if rs[n - 1].status == Reserved && Mentions(rs[n - 1].rows, b) then [n - 1] else []
  }

  // ---- Operations ----

  function ExpireOne(k: Book, b: nat): Book
    requires b < |k.buckets|
  {
    DrainMove(k, k.buckets[b].account, [Row(b, k.buckets[b].available)], EXPIRE, ExpireKey(b), Some(b))
  }

  function ExpireAll(k: Book, ids: seq<nat>): (r: Book)
    requires forall i :: 0 <= i < |ids| ==> ids[i] < |k.buckets|
    ensures |r.buckets| == |k.buckets|
  {
    if |ids| == 0 then k else ExpireOne(ExpireAll(k, ids[..|ids| - 1]), ids[|ids| - 1])
  }

  // `_expire_buckets`
  function ExpireBuckets(k: Book, a: Ref, now: Time): Book {
    var ids := ExpiredIds(k.buckets, a, now, |k.buckets|);
    ExpiredIdsInRange(k.buckets, a, now, |k.buckets|);
    ExpireAll(k, ids)
  }

  lemma {:induction false} ExpiredIdsInRange(bs: seq<Bucket>, a: Ref, now: Time, n: nat)
    requires n <= |bs|
    ensures forall i :: 0 <= i < |ExpiredIds(bs, a, now, n)| ==>
      var b := ExpiredIds(bs, a, now, n)[i];
      b < n && bs[b].account == a && Expired(bs[b].expires, now) && bs[b].available > 0
    ensures forall i, j :: 0 <= i < j < |ExpiredIds(bs, a, now, n)| ==>
      ExpiredIds(bs, a, now, n)[i] < ExpiredIds(bs, a, now, n)[j]
    ensures forall b :: 0 <= b < n && bs[b].account == a && Expired(bs[b].expires, now) && bs[b].available > 0 ==>
      b in ExpiredIds(bs, a, now, n)
  {
    if n > 0 { ExpiredIdsInRange(bs, a, now, n - 1); }
  }

  // The part of `reserve` that runs once the account is known to be active.
  function ReserveBook(k: Book, a: Ref, cost: int, reference: Reference, expires: Time, now: Time): Result<Book> {
    var k1 := ExpireBuckets(k, a, now);
    var order := ReserveOrder(k1.buckets, a, |k1.buckets|);
    if Offered(k1.buckets, order) < cost then Err(InsufficientCredits)
    else
      var rows := Greedy(k1.buckets, order, cost);
      Ok(AddHold(k1, Reservation(a, reference, cost, Reserved, rows, expires, None, None, None)))
  }

  // Whether every allocation finds enough reserved credits when its turn comes.
  predicate CanSettle(bs: seq<Bucket>, rows: seq<Row>) {
    forall i :: 0 <= i < |rows| ==>
      rows[i].bucket < |bs| && rows[i].amount <= Shift(bs, rows[..i], Settle)[rows[i].bucket].reserved
  }

  function CaptureBook(k: Book, id: Option<nat>, now: Time): Result<Book> {
    if id.None? || id.value >= |k.reservations| || k.reservations[id.value].status == Captured then Ok(k)
    else if k.reservations[id.value].status != Reserved then Err(ReservationNotCapturable)
    else if !CanSettle(k.buckets, k.reservations[id.value].rows) then Err(ReservationCorrupt)
    else Ok(CaptureMove(k, id.value, now))
  }

  function ReleaseBook(k: Book, id: Option<nat>, now: Time): Book {
    if id.None? || id.value >= |k.reservations| || k.reservations[id.value].status != Reserved then k
    else ReleaseMove(k, id.value, now)
  }

  function RefundBook(k: Book, id: nat, now: Time): Result<Book> {
    if id >= |k.reservations| then Err(ReservationNotFound)
    else if Used(k.journal, k.reservations[id].account, RefundKey(id)) then Ok(k)
    else if k.reservations[id].status != Captured then Err(ReservationNotRefundable)
    else Ok(RefundMove(k, id, now))
  }

  // `_grant_bucket`: the bucket of this source, created with its grant entry if missing.
  function GrantBook(k: Book, a: Ref, kind: BucketType, source: Source, amount: int, expires: Option<Time>,
      key: Key): Result<(Book, nat)> {
    var existing := FindBucket(k.buckets, a, kind, source);
    if existing.Some? then Ok((k, existing.value))
    else if amount == 0 then Err(ZeroLedgerEntry)
    else Ok((AddGrant(k, Bucket(a, kind, source, amount, amount, 0, expires), GRANT, key), |k.buckets|))
  }

  // `_apply_credit_adjustment`
  function AdjustBook(k: Book, a: Ref, amount: int, adjustment: nat): Result<Book> {
    var key := AdjustmentKey(adjustment);
    if Used(k.journal, a, key) then Ok(k)
    else if amount > 0 then
      Ok(AddGrant(k, Bucket(a, AdjustmentBucket, AdjustmentSource(adjustment), amount, amount, 0, None), ADJUSTMENT,
        key))
    else
      var order := CreationOrder(k.buckets, a, |k.buckets|);
      if Offered(k.buckets, order) < -amount then Err(AdjustmentExceedsBalance)
      else if amount == 0 then Err(ZeroLedgerEntry)
      else Ok(DrainMove(k, a, Greedy(k.buckets, order, -amount), ADJUSTMENT, key, None))
  }

  function ReleaseAll(k: Book, ids: seq<nat>, now: Time): Book {
    if |ids| == 0 then k else ReleaseBook(ReleaseAll(k, ids[..|ids| - 1], now), Some(ids[|ids| - 1]), now)
  }

  // Reversal, first half: no reservation keeps credits of the reversed bucket.
  function ReleaseHolders(k: Book, b: nat, now: Time): Book {
    ReleaseAll(k, Holders(k.reservations, b, |k.reservations|), now)
  }

  // Reversal, second half: take back what is unspent.
  function TakeBack(k: Book, b: nat, unspent: int, event: Ref): Book
    requires b < |k.buckets|
  {
    if unspent == 0 then k
    else DrainMove(k, k.buckets[b].account, [Row(b, unspent)], REVERSAL, ReversalKey(event), Some(b))
  }
}
