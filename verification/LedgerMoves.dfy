/** Each move of the credit book keeps every invariant of `LedgerInvariants`. */
module LedgerMoves {
  import opened Prelude
  import opened Ledger
  import opened LedgerInvariants

  // Rows the account's buckets can pay for.
  ghost predicate Covered(bs: seq<Bucket>, rows: seq<Row>, a: Ref) {
    RowsOf(bs, rows, a) && forall b :: 0 <= b < |bs| ==> Alloc(rows, b) <= bs[b].available
  }

  // ---- Shared arguments ----

  // A bucket index the book did not have yet has no history.
  lemma NothingGone(k: Book, c: nat)
    requires TablesOk(k) && |k.buckets| <= c
    ensures forall sel :: Tally(k.reservations, c, sel) == 0
    ensures forall kind :: Drained(k.journal, c, kind) == 0
  {
    forall sel ensures Tally(k.reservations, c, sel) == 0 { TallyFresh(k.buckets, k.reservations, c, sel); }
    forall kind ensures Drained(k.journal, c, kind) == 0 { DrainedFresh(k.buckets, k.journal, c, kind); }
  }

  // What replacing one reservation row does to a bucket's tallies.
  lemma StatusChange(rs: seq<Reservation>, i: nat, r: Reservation, b: nat)
    requires i < |rs|
    ensures forall sel :: Tally(rs[i := r], b, sel) == Tally(rs, b, sel) - Part(rs[i], b, sel) + Part(r, b, sel)
  {
    forall sel ensures Tally(rs[i := r], b, sel) == Tally(rs, b, sel) - Part(rs[i], b, sel) + Part(r, b, sel) {
      TallyUpdate(rs, i, r, b, sel);
    }
  }

  // Replacing one reservation by a well-formed one keeps the tables.
  lemma ReplaceTables(k: Book, bs: seq<Bucket>, i: nat, r: Reservation)
    requires TablesOk(k) && Extends(k.buckets, bs) && i < |k.reservations|
    requires ReservationOk(k.buckets, r)
    ensures TablesOk(SetReservation(k, i, r, bs))
  {
    TablesExtend(k.buckets, bs, k.reservations, k.journal);
    RowsExtend(k.buckets, bs, r.rows, r.account);
  }

  // A move that posts nothing and keeps every balance keeps conservation.
  lemma QuietConserves(k: Book, after: Book)
    requires Conserved(k) && after.journal == k.journal
    requires forall a: Ref :: Balance(after.buckets, a) == Balance(k.buckets, a)
    ensures Conserved(after)
  {}

  // A move that posts nothing keeps the journal's own invariants.
  lemma QuietJournal(k: Book, after: Book, was: Time, now: Time)
    requires JournalOk(k, was) && was <= now && after.journal == k.journal && Extends(k.buckets, after.buckets)
    requires forall r: nat :: ExpectedFootprint(after.reservations, r) == ExpectedFootprint(k.reservations, r)
    ensures JournalOk(after, now)
  {
    assert ExpiriesOk(after, now);
    assert GrantsOk(after);
    assert FootprintsOk(after);
  }

  // What shifting `owner`'s credits changes in the balance of `a`.
  function Moved(rows: seq<Row>, f: Flow, owner: Ref, a: Ref): int {
    if owner == a then ToAvailable(f, Total(rows)) + ToReserved(f, Total(rows)) else 0
  }

  lemma ShiftRowsBalance(bs: seq<Bucket>, rows: seq<Row>, f: Flow, owner: Ref)
    requires RowsOf(bs, rows, owner)
    ensures forall a: Ref :: Balance(Shift(bs, rows, f), a) == Balance(bs, a) + Moved(rows, f, owner, a)
  {
    forall a: Ref ensures Balance(Shift(bs, rows, f), a) == Balance(bs, a) + Moved(rows, f, owner, a) {
      ShiftBalance(bs, rows, f, owner, a);
    }
  }

  lemma {:induction false} UsedInFootprint(bs: seq<Bucket>, j: seq<Item>, a: Ref, r: nat, key: Key)
    requires ItemsOk(bs, j) && Used(j, a, key) && (key == CaptureKey(r) || key == RefundKey(r))
    ensures exists f :: f in Footprint(j, r) && f.0 == (if key.CaptureKey? then CHARGE else REFUND)
  {
    var i :| 0 <= i < |j| && j[i].posted && j[i].entry.account == a && j[i].entry.key == key;
    var n := |j| - 1;
    if i < n {
      assert j[..n][i] == j[i];
      UsedInFootprint(bs, j[..n], a, r, key);
    } else {
      var f := (j[n].entry.kind, j[n].entry.amount);
      assert Shaped(j[n]);
      assert f in FootprintStep(j[n], r);
    }
  }

  lemma KeysUnused(k: Book, i: nat)
    requires TablesOk(k) && FootprintsOk(k) && i < |k.reservations|
    ensures k.reservations[i].status in {Reserved, Released} ==> forall a: Ref :: !Used(k.journal, a, CaptureKey(i))
    ensures k.reservations[i].status != Refunded ==> forall a: Ref :: !Used(k.journal, a, RefundKey(i))
  {
    forall a: Ref, key | (key == CaptureKey(i) || key == RefundKey(i)) && Used(k.journal, a, key)
      ensures k.reservations[i].status !in {Reserved, Released}
      ensures key.RefundKey? ==> k.reservations[i].status == Refunded
    {
      UsedInFootprint(k.buckets, k.journal, a, i, key);
      assert Footprint(k.journal, i) == ExpectedFootprint(k.reservations, i);
    }
  }

  // Posting the entry that a status change calls for keeps every footprint.
  lemma PostFootprints(k: Book, after: Book, i: nat)
    requires FootprintsOk(k) && i < |k.reservations| == |after.reservations| && |after.journal| == |k.journal| + 1
    requires after.journal[..|k.journal|] == k.journal
    requires forall j :: 0 <= j < |k.reservations| && j != i ==> after.reservations[j] == k.reservations[j]
    requires
      var x := after.journal[|k.journal|];
      && x.posted && (x.entry.key == CaptureKey(i) || x.entry.key == RefundKey(i))
      && ExpectedFootprint(after.reservations, i) == ExpectedFootprint(k.reservations, i) +
        [(x.entry.kind, x.entry.amount)]
    ensures FootprintsOk(after)
  {
    hide Footprint, Journaled, Drained;
    assert after.journal == k.journal + [after.journal[|k.journal|]];
    AppendSums(k.journal, after.journal[|k.journal|]);
    forall r: nat ensures Footprint(after.journal, r) == ExpectedFootprint(after.reservations, r) {
      assert Footprint(k.journal, r) == ExpectedFootprint(k.reservations, r);
    }
  }

  // Posting under a key of no reservation leaves every footprint alone.
  lemma OtherFootprints(k: Book, after: Book)
    requires FootprintsOk(k) && after.reservations == k.reservations && |after.journal| == |k.journal| + 1
    requires after.journal[..|k.journal|] == k.journal
    requires var key := after.journal[|k.journal|].entry.key; !key.CaptureKey? && !key.RefundKey?
    ensures FootprintsOk(after)
  {
    hide Footprint, Journaled, Drained;
    assert after.journal == k.journal + [after.journal[|k.journal|]];
    AppendSums(k.journal, after.journal[|k.journal|]);
    forall r: nat ensures Footprint(after.journal, r) == ExpectedFootprint(after.reservations, r) {
      assert Footprint(k.journal, r) == ExpectedFootprint(k.reservations, r);
    }
  }

  // ---- Grant ----

  lemma GrantBucket(k: Book, b: Bucket, kind: EntryKind, key: Key, c: nat)
    requires TablesOk(k) && b.granted > 0 && b.available == b.granted && b.reserved == 0
    requires c < |k.buckets| ==> BucketAt(k, c)
    requires c <= |k.buckets|
    ensures BucketAt(AddGrant(k, b, kind, key), c)
  {
    AppendSums(k.journal, AddGrant(k, b, kind, key).journal[|k.journal|]);
    if c == |k.buckets| { NothingGone(k, c); }
  }

  lemma GrantConserves(k: Book, b: Bucket, kind: EntryKind, key: Key)
    requires Conserved(k) && b.available == b.granted && b.reserved == 0
    ensures Conserved(AddGrant(k, b, kind, key))
  {
    var mid := k.(buckets := k.buckets + [b]);
    forall a: Ref ensures Balance(mid.buckets, a) == Balance(k.buckets, a) + if a == b.account then b.granted else 0 {
      BalanceAppend(k.buckets, b, a);
    }
    PostConserves(k, mid, b.account, b.granted, kind, key, Some(|k.buckets|), []);
  }

  lemma GrantKeeps(k: Book, was: Time, now: Time, b: Bucket, kind: EntryKind, key: Key)
    requires Inv(k, was) && was <= now
    requires b.granted > 0 && b.available == b.granted && b.reserved == 0
    requires (kind == GRANT && (key.TrialKey? || key.PaymentKey?)) || (kind == ADJUSTMENT && key.AdjustmentKey?)
    requires !Used(k.journal, b.account, key)
    ensures Inv(AddGrant(k, b, kind, key), now)
  {
    hide BucketAt, Balance, Journaled, Footprint;
    var mid := k.(buckets := k.buckets + [b]);
    var after := AddGrant(k, b, kind, key);
    GrantConserves(k, b, kind, key);
    PostKeepsJournal(k, mid, was, now, b.account, b.granted, kind, key, Some(|k.buckets|), []);
    TablesExtend(k.buckets, after.buckets, k.reservations, k.journal);
    OtherFootprints(k, after);
    forall c | 0 <= c < |after.buckets| ensures BucketAt(after, c) {
      if c < |k.buckets| { assert BucketAt(k, c); }
      GrantBucket(k, b, kind, key, c);
    }
  }

  // ---- Reserve ----

  lemma HoldBucket(k: Book, r: Reservation, b: nat)
    requires InRange(r.rows, |k.buckets|) && b < |k.buckets| && BucketAt(k, b)
    requires r.status == Reserved && Alloc(r.rows, b) <= k.buckets[b].available
    ensures BucketAt(AddHold(k, r), b)
  {
    ShiftAt(k.buckets, r.rows, Hold, b);
    TallyAppend(k.reservations, r, b, InStatus(Reserved));
    TallyAppend(k.reservations, r, b, InStatus(Captured));
    TallyAppend(k.reservations, r, b, RefundedAfter(k.buckets[b].expires));
  }

  lemma HoldKeeps(k: Book, was: Time, now: Time, r: Reservation)
    requires Inv(k, was) && was <= now
    requires r.status == Reserved && r.refundedAt == None && Total(r.rows) == r.amount && r.amount > 0
    requires Covered(k.buckets, r.rows, r.account)
    ensures InRange(r.rows, |k.buckets|) && Inv(AddHold(k, r), now)
  {
    hide BucketAt, Shaped, Balance, Journaled, Footprint, Used, Shift;
    var after := AddHold(k, r);
    ShiftExtends(k.buckets, r.rows, Hold);
    assert TablesOk(after) by {
      TablesExtend(k.buckets, after.buckets, k.reservations, k.journal);
      RowsExtend(k.buckets, after.buckets, r.rows, r.account);
    }
    forall b | 0 <= b < |after.buckets| ensures BucketAt(after, b) { HoldBucket(k, r, b); }
    ShiftRowsBalance(k.buckets, r.rows, Hold, r.account);
    QuietConserves(k, after);
    QuietJournal(k, after, was, now);
  }

  // ---- Release ----

  lemma ReleaseBucket(k: Book, i: nat, now: Time, b: nat)
    requires i < |k.reservations| && k.reservations[i].status == Reserved && ReservationOk(k.buckets, k.reservations[i])
    requires b < |k.buckets| && BucketAt(k, b)
    ensures BucketAt(ReleaseMove(k, i, now), b)
  {
    ShiftAt(k.buckets, k.reservations[i].rows, Return, b);
    StatusChange(k.reservations, i, ReleaseMove(k, i, now).reservations[i], b);
    AllocSign(k.reservations[i].rows, b);
  }

  lemma ReleaseKeeps(k: Book, was: Time, now: Time, i: nat)
    requires Inv(k, was) && was <= now && i < |k.reservations| && k.reservations[i].status == Reserved
    ensures ReservationOk(k.buckets, k.reservations[i]) && Inv(ReleaseMove(k, i, now), now)
  {
    hide BucketAt, Shaped, Balance, Journaled, Footprint, Used, Shift;
    var r := k.reservations[i];
    assert ReservationOk(k.buckets, r);
    var after := ReleaseMove(k, i, now);
    ShiftExtends(k.buckets, r.rows, Return);
    ReplaceTables(k, after.buckets, i, after.reservations[i]);
    forall b | 0 <= b < |after.buckets| ensures BucketAt(after, b) { ReleaseBucket(k, i, now, b); }
    ShiftRowsBalance(k.buckets, r.rows, Return, r.account);
    QuietConserves(k, after);
    QuietJournal(k, after, was, now);
  }

  // ---- Capture ----

  lemma CaptureBucket(k: Book, i: nat, now: Time, b: nat)
    requires i < |k.reservations| && k.reservations[i].status == Reserved && ReservationOk(k.buckets, k.reservations[i])
    requires b < |k.buckets| && BucketAt(k, b)
    ensures BucketAt(CaptureMove(k, i, now), b)
  {
    var after := CaptureMove(k, i, now);
    ShiftAt(k.buckets, k.reservations[i].rows, Settle, b);
    StatusChange(k.reservations, i, after.reservations[i], b);
    AppendSums(k.journal, after.journal[|k.journal|]);
  }

  lemma CaptureJournal(k: Book, was: Time, now: Time, i: nat)
    requires TablesOk(k) && Conserved(k) && JournalOk(k, was) && was <= now
    requires i < |k.reservations| && k.reservations[i].status == Reserved && ReservationOk(k.buckets, k.reservations[i])
    ensures Conserved(CaptureMove(k, i, now)) && JournalOk(CaptureMove(k, i, now), now)
  {
    hide Balance, Journaled, Footprint, Shift;
    var r := k.reservations[i];
    var mid := SetReservation(k, i, r.(status := Captured, capturedAt := Some(now)), Shift(k.buckets, r.rows, Settle));
    KeysUnused(k, i);
    ShiftExtends(k.buckets, r.rows, Settle);
    ShiftRowsBalance(k.buckets, r.rows, Settle, r.account);
    PostConserves(k, mid, r.account, -r.amount, CHARGE, CaptureKey(i), None, []);
    PostKeepsJournal(k, mid, was, now, r.account, -r.amount, CHARGE, CaptureKey(i), None, []);
    PostFootprints(k, CaptureMove(k, i, now), i);
  }

  lemma CaptureKeeps(k: Book, was: Time, now: Time, i: nat)
    requires Inv(k, was) && was <= now && i < |k.reservations| && k.reservations[i].status == Reserved
    ensures ReservationOk(k.buckets, k.reservations[i]) && Inv(CaptureMove(k, i, now), now)
  {
    hide BucketAt, Balance, Journaled, Footprint, Used, Shift;
    assert ReservationOk(k.buckets, k.reservations[i]);
    var after := CaptureMove(k, i, now);
    ShiftExtends(k.buckets, k.reservations[i].rows, Settle);
    ReplaceTables(k, after.buckets, i, after.reservations[i]);
    CaptureJournal(k, was, now, i);
    forall b | 0 <= b < |after.buckets| ensures BucketAt(after, b) { CaptureBucket(k, i, now, b); }
  }

  // ---- Refund ----

  // A refund restores live buckets, adds at most one new bucket, and in all gives back `Total(rows)`.
  lemma RefundAt(bs: seq<Bucket>, a: Ref, i: nat, rows: seq<Row>, now: Time, b: nat)
    requires RowsOf(bs, rows, a) && b < |bs|
    ensures |bs| <= |RefundBuckets(bs, a, i, rows, now)| <= |bs| + 1
    ensures RefundBuckets(bs, a, i, rows, now)[b] == bs[b].(
      available := bs[b].available + if Expired(bs[b].expires, now) then 0 else Alloc(rows, b))
  {
    SplitRows(bs, rows, now, true, a);
    ShiftAt(bs, Split(bs, rows, now, true), Restore, b);
    SplitAlloc(bs, rows, now, true, b);
  }

  lemma RefundFallback(bs: seq<Bucket>, a: Ref, i: nat, rows: seq<Row>, now: Time)
    requires RowsOf(bs, rows, a)
    ensures
      var next := RefundBuckets(bs, a, i, rows, now);
      forall b :: |bs| <= b < |next| ==>
        next[b].granted > 0 && next[b].reserved == 0 && next[b].available == next[b].granted
  {
    SplitRows(bs, rows, now, false, a);
    AllocAtMostTotal(Split(bs, rows, now, false), 0);
  }

  lemma RefundBalance(bs: seq<Bucket>, a: Ref, i: nat, rows: seq<Row>, now: Time, x: Ref)
    requires RowsOf(bs, rows, a)
    ensures Balance(RefundBuckets(bs, a, i, rows, now), x) == Balance(bs, x) + if x == a then Total(rows) else 0
  {
    var live := Split(bs, rows, now, true);
    var shifted := Shift(bs, live, Restore);
    var next := RefundBuckets(bs, a, i, rows, now);
    SplitTotals(bs, rows, now);
    SplitRows(bs, rows, now, true, a);
    ShiftBalance(bs, live, Restore, a, x);
    if |next| > |bs| {
      assert next == shifted + [next[|bs|]];
      BalanceAppend(shifted, next[|bs|], x);
    } else {
      assert next == shifted;
    }
  }

  lemma RefundBucket(k: Book, i: nat, now: Time, b: nat)
    requires TablesOk(k) && i < |k.reservations| && k.reservations[i].status == Captured
    requires ReservationOk(k.buckets, k.reservations[i])
    requires b < |k.buckets| ==> BucketAt(k, b)
    requires b < |RefundMove(k, i, now).buckets|
    ensures BucketAt(RefundMove(k, i, now), b)
  {
    var after := RefundMove(k, i, now);
    var r := k.reservations[i];
    AppendSums(k.journal, after.journal[|k.journal|]);
    StatusChange(k.reservations, i, after.reservations[i], b);
    if b < |k.buckets| {
      RefundAt(k.buckets, r.account, i, r.rows, now, b);
      AllocSign(r.rows, b);
    } else {
      RefundFallback(k.buckets, r.account, i, r.rows, now);
      NothingGone(k, b);
      AllocFresh(r.rows, |k.buckets|, b);
      forall sel ensures Tally(after.reservations, b, sel) == 0 {
        TallyUpdate(k.reservations, i, after.reservations[i], b, sel);
      }
    }
  }

  lemma RefundExtends(k: Book, i: nat, now: Time)
    requires i < |k.reservations| && ReservationOk(k.buckets, k.reservations[i])
    ensures Extends(k.buckets, RefundMove(k, i, now).buckets)
  {
    var r := k.reservations[i];
    var next := RefundBuckets(k.buckets, r.account, i, r.rows, now);
    forall b | 0 <= b < |k.buckets| ensures next[b] == k.buckets[b].(available := next[b].available) {
      RefundAt(k.buckets, r.account, i, r.rows, now, b);
    }
  }

  lemma RefundJournal(k: Book, was: Time, now: Time, i: nat)
    requires TablesOk(k) && Conserved(k) && JournalOk(k, was) && was <= now
    requires i < |k.reservations| && k.reservations[i].status == Captured && ReservationOk(k.buckets, k.reservations[i])
    requires Extends(k.buckets, RefundMove(k, i, now).buckets)
    ensures Conserved(RefundMove(k, i, now)) && JournalOk(RefundMove(k, i, now), now)
  {
    hide Balance, Journaled, Footprint, Shift;
    var r := k.reservations[i];
    var next := RefundBuckets(k.buckets, r.account, i, r.rows, now);
    var mid := SetReservation(k, i, r.(status := Refunded, refundedAt := Some(now)), next);
    KeysUnused(k, i);
    forall x: Ref ensures Balance(next, x) == Balance(k.buckets, x) + if x == r.account then r.amount else 0 {
      RefundBalance(k.buckets, r.account, i, r.rows, now, x);
    }
    PostConserves(k, mid, r.account, r.amount, REFUND, RefundKey(i), None, []);
    PostKeepsJournal(k, mid, was, now, r.account, r.amount, REFUND, RefundKey(i), None, []);
    PostFootprints(k, RefundMove(k, i, now), i);
  }

  lemma RefundKeeps(k: Book, was: Time, now: Time, i: nat)
    requires Inv(k, was) && was <= now && i < |k.reservations| && k.reservations[i].status == Captured
    ensures ReservationOk(k.buckets, k.reservations[i]) && Inv(RefundMove(k, i, now), now)
  {
    hide BucketAt, Balance, Journaled, Footprint, Used, Shift;
    assert ReservationOk(k.buckets, k.reservations[i]);
    var after := RefundMove(k, i, now);
    RefundExtends(k, i, now);
    ReplaceTables(k, after.buckets, i, after.reservations[i]);
    RefundJournal(k, was, now, i);
    forall b | 0 <= b < |after.buckets| ensures BucketAt(after, b) {
      if b < |k.buckets| { assert BucketAt(k, b); }
      RefundBucket(k, i, now, b);
    }
  }

  // ---- Expiry, reversal, negative adjustment ----

  ghost predicate DrainOk(k: Book, a: Ref, rows: seq<Row>, kind: EntryKind, key: Key, now: Time) {
    && Covered(k.buckets, rows, a) && Total(rows) > 0
    && match kind
       case EXPIRE => key.ExpireKey? && rows == [Row(key.bucket, Total(rows))]
         && Expired(k.buckets[rows[0].bucket].expires, now)
       case REVERSAL => key.ReversalKey?
       case ADJUSTMENT => key.AdjustmentKey? && !Used(k.journal, a, key)
       case _ => false
  }

  lemma DrainBucket(k: Book, a: Ref, rows: seq<Row>, kind: EntryKind, key: Key, bucket: Option<nat>, b: nat)
    requires InRange(rows, |k.buckets|) && kind in {EXPIRE, REVERSAL, ADJUSTMENT}
    requires b < |k.buckets| && BucketAt(k, b) && Alloc(rows, b) <= k.buckets[b].available
    ensures BucketAt(DrainMove(k, a, rows, kind, key, bucket), b)
  {
    var after := DrainMove(k, a, rows, kind, key, bucket);
    AppendSums(k.journal, after.journal[|k.journal|]);
    ShiftAt(k.buckets, rows, Drain, b);
  }

  lemma DrainTables(k: Book, a: Ref, rows: seq<Row>, kind: EntryKind, key: Key, bucket: Option<nat>, now: Time)
    requires TablesOk(k) && DrainOk(k, a, rows, kind, key, now)
    ensures TablesOk(DrainMove(k, a, rows, kind, key, bucket))
  {
    var after := DrainMove(k, a, rows, kind, key, bucket);
    ShiftExtends(k.buckets, rows, Drain);
    TablesExtend(k.buckets, after.buckets, k.reservations, k.journal);
    RowsExtend(k.buckets, after.buckets, rows, a);
  }

  lemma DrainJournal(k: Book, was: Time, now: Time, a: Ref, rows: seq<Row>, kind: EntryKind, key: Key,
      bucket: Option<nat>)
    requires TablesOk(k) && JournalOk(k, was) && was <= now && DrainOk(k, a, rows, kind, key, now)
    ensures JournalOk(DrainMove(k, a, rows, kind, key, bucket), now)
  {
    hide Balance, Journaled, Footprint, Shift;
    var mid := k.(buckets := Shift(k.buckets, rows, Drain));
    ShiftExtends(k.buckets, rows, Drain);
    PostKeepsJournal(k, mid, was, now, a, -Total(rows), kind, key, bucket, rows);
    OtherFootprints(k, DrainMove(k, a, rows, kind, key, bucket));
  }

  lemma DrainConserves(k: Book, a: Ref, rows: seq<Row>, kind: EntryKind, key: Key, bucket: Option<nat>)
    requires Conserved(k) && RowsOf(k.buckets, rows, a)
    ensures Conserved(DrainMove(k, a, rows, kind, key, bucket))
  {
    hide Balance, Journaled, Footprint, Shift;
    var mid := k.(buckets := Shift(k.buckets, rows, Drain));
    ShiftRowsBalance(k.buckets, rows, Drain, a);
    PostConserves(k, mid, a, -Total(rows), kind, key, bucket, rows);
  }

  lemma DrainKeeps(k: Book, was: Time, now: Time, a: Ref, rows: seq<Row>, kind: EntryKind, key: Key,
      bucket: Option<nat>)
    requires Inv(k, was) && was <= now && DrainOk(k, a, rows, kind, key, now)
    ensures Inv(DrainMove(k, a, rows, kind, key, bucket), now)
  {
    hide BucketAt, Shaped, Balance, Journaled, Footprint, Used, Shift;
    var after := DrainMove(k, a, rows, kind, key, bucket);
    DrainTables(k, a, rows, kind, key, bucket, now);
    DrainConserves(k, a, rows, kind, key, bucket);
    DrainJournal(k, was, now, a, rows, kind, key, bucket);
    forall b | 0 <= b < |after.buckets| ensures BucketAt(after, b) { DrainBucket(k, a, rows, kind, key, bucket, b); }
  }
}
