/** The credit book of `product_billing.py`: buckets, reservations and the ledger.

Tables are sequences in insertion order and a row's id is its index. The journal is
the ledger table plus the entries that `_ledger` did not insert because their
idempotency key was already used (`posted` is false for those); `draws` records
which buckets an entry took credits from.
*/
module Ledger {
  import opened Prelude

  datatype BucketType = TrialBucket | SubscriptionBucket | TopupBucket | AdjustmentBucket

  datatype Source =
    | TrialSource(policy: Ref, user: Ref)
    | PaymentSource(period: Ref)
    | AdjustmentSource(adjustment: nat)
    | RefundSource(reservation: nat)

  datatype Bucket = Bucket(
    account: Ref, kind: BucketType, source: Source,
    granted: int, available: int, reserved: int, expires: Option<Time>)

  // One allocation row: `amount` credits of `bucket`.
  datatype Row = Row(bucket: nat, amount: int)

  datatype Status = Reserved | Captured | Released | Refunded

  datatype Reference = Reference(kind: Ref, id: Ref)

  datatype Reservation = Reservation(
    account: Ref, reference: Reference, amount: int, status: Status, rows: seq<Row>, expires: Time,
    capturedAt: Option<Time>, releasedAt: Option<Time>, refundedAt: Option<Time>)

  datatype EntryKind = GRANT | CHARGE | EXPIRE | REFUND | REVERSAL | ADJUSTMENT

  // The idempotency keys: each source prefix is a constructor.
  datatype Key =
    | TrialKey(policy: Ref, user: Ref)
    | PaymentKey(event: Ref)
    | ExpireKey(bucket: nat)
    | CaptureKey(reservation: nat)
    | RefundKey(reservation: nat)
    | ReversalKey(event: Ref)
    | AdjustmentKey(adjustment: nat)

  datatype Entry = Entry(
    account: Ref, bucket: Option<nat>, amount: int, kind: EntryKind, balanceAfter: int, key: Key)

  datatype Item = Item(entry: Entry, posted: bool, draws: seq<Row>)

  datatype Book = Book(buckets: seq<Bucket>, reservations: seq<Reservation>, journal: seq<Item>)

  const EMPTY_BOOK := Book([], [], [])

  // ---- Reading the book ----

  // available + reserved over the account's buckets, as `_ledger` queries it.
  function Balance(bs: seq<Bucket>, a: Ref): int {
    if |bs| == 0 then 0
    else
      var b := bs[|bs| - 1];
      Balance(bs[..|bs| - 1], a) + if b.account == a then b.available + b.reserved else 0
  }

  // Sum of every journal amount of the account, posted or not.
  function Journaled(j: seq<Item>, a: Ref): int {
    if |j| == 0 then 0
    else
      var e := j[|j| - 1].entry;
      Journaled(j[..|j| - 1], a) + if e.account == a then e.amount else 0
  }

  // Sum of the account's ledger entries.
  function LedgerSum(j: seq<Item>, a: Ref): int {
    if |j| == 0 then 0
    else
      var i := j[|j| - 1];
      LedgerSum(j[..|j| - 1], a) + if i.posted && i.entry.account == a then i.entry.amount else 0
  }

  // The credits whose drain `_ledger` swallowed because the key was already used.
  function Unjournaled(j: seq<Item>, a: Ref): int {
    if |j| == 0 then 0
    else
      var i := j[|j| - 1];
      Unjournaled(j[..|j| - 1], a) + if !i.posted && i.entry.account == a then -i.entry.amount else 0
  }

  predicate Used(j: seq<Item>, a: Ref, key: Key) {
    exists i :: 0 <= i < |j| && j[i].posted && j[i].entry.account == a && j[i].entry.key == key
  }

  // Credits of bucket `b` in a list of allocation rows.
  function Alloc(rows: seq<Row>, b: nat): int {
    if |rows| == 0 then 0
    else
      var r := rows[|rows| - 1];
      Alloc(rows[..|rows| - 1], b) + if r.bucket == b then r.amount else 0
  }

  function Total(rows: seq<Row>): int {
    if |rows| == 0 then 0 else Total(rows[..|rows| - 1]) + rows[|rows| - 1].amount
  }

  predicate Expired(e: Option<Time>, now: Time) {
    e.Some? && e.value <= now
  }

  // Which reservations a tally counts: those in a status, or those refunded
  // when a bucket with this expiry had already expired.
  datatype Selector = InStatus(status: Status) | RefundedAfter(expires: Option<Time>)

  predicate Selects(sel: Selector, r: Reservation) {
    match sel
    case InStatus(st) => r.status == st
    case RefundedAfter(e) => r.status == Refunded && r.refundedAt.Some? && Expired(e, r.refundedAt.value)
  }

  function Part(r: Reservation, b: nat, sel: Selector): int {
    if Selects(sel, r) then Alloc(r.rows, b) else 0
  }

  // Credits of bucket `b` allocated by the selected reservations.
  function Tally(rs: seq<Reservation>, b: nat, sel: Selector): int {
    if |rs| == 0 then 0
    else Tally(rs[..|rs| - 1], b, sel) + Part(rs[|rs| - 1], b, sel)
  }

  // Credits that journal items of one kind took from bucket `b`.
  function Drained(j: seq<Item>, b: nat, kind: EntryKind): int {
    if |j| == 0 then 0
    else
      var i := j[|j| - 1];
      Drained(j[..|j| - 1], b, kind) + if i.entry.kind == kind then Alloc(i.draws, b) else 0
  }

  // ---- Moving credits along allocation rows ----

  datatype Flow = Hold | Settle | Return | Restore | Drain

  function Adjust(b: Bucket, x: int, f: Flow): Bucket {
    match f
    case Hold => b.(available := b.available - x, reserved := b.reserved + x)
    case Settle => b.(reserved := b.reserved - x)
    case Return => b.(available := b.available + x, reserved := b.reserved - x)
    case Restore => b.(available := b.available + x)
    case Drain => b.(available := b.available - x)
  }

  predicate InRange(rows: seq<Row>, n: nat) {
    forall i :: 0 <= i < |rows| ==> rows[i].bucket < n
  }

  // Rows naming no bucket are skipped.
  function Shift(bs: seq<Bucket>, rows: seq<Row>, f: Flow): (r: seq<Bucket>)
    ensures |r| == |bs|
  {
    if |rows| == 0 then bs
    else
      var x := rows[|rows| - 1];
      var s := Shift(bs, rows[..|rows| - 1], f);
      if x.bucket < |s| then s[x.bucket := Adjust(s[x.bucket], x.amount, f)] else s
  }

  predicate Live(bs: seq<Bucket>, b: nat, now: Time) {
    b < |bs| && !Expired(bs[b].expires, now)
  }

  // The rows whose bucket is still live at `now`, or the rest.
  function Split(bs: seq<Bucket>, rows: seq<Row>, now: Time, live: bool): seq<Row> {
    if |rows| == 0 then []
    else
      var x := rows[|rows| - 1];
      var s := Split(bs, rows[..|rows| - 1], now, live);
      if live == Live(bs, x.bucket, now) then s + [x] else s
  }

  // ---- The moves every billing operation is made of ----

  // `_ledger`: append the entry unless its key was used before.
  function Post(k: Book, a: Ref, amount: int, kind: EntryKind, key: Key, bucket: Option<nat>, draws: seq<Row>): Book {
    var entry := Entry(a, bucket, amount, kind, Balance(k.buckets, a), key);
    k.(journal := k.journal + [Item(entry, !Used(k.journal, a, key), draws)])
  }

  // A new bucket with its grant entry.
  function AddGrant(k: Book, b: Bucket, kind: EntryKind, key: Key): Book {
    Post(k.(buckets := k.buckets + [b]), b.account, b.granted, kind, key, Some(|k.buckets|), [])
  }

  // A new reservation holding the credits of its rows.
  function AddHold(k: Book, r: Reservation): Book {
    k.(buckets := Shift(k.buckets, r.rows, Hold), reservations := k.reservations + [r])
  }

  function SetReservation(k: Book, i: nat, r: Reservation, bs: seq<Bucket>): Book
    requires i < |k.reservations|
  {
    k.(buckets := bs, reservations := k.reservations[i := r])
  }

  function CaptureMove(k: Book, i: nat, now: Time): Book
    requires i < |k.reservations|
  {
    var r := k.reservations[i];
    var k1 := SetReservation(k, i, r.(status := Captured, capturedAt := Some(now)), Shift(k.buckets, r.rows, Settle));
    Post(k1, r.account, -r.amount, CHARGE, CaptureKey(i), None, [])
  }

  function ReleaseMove(k: Book, i: nat, now: Time): Book
    requires i < |k.reservations|
  {
    var r := k.reservations[i];
    SetReservation(k, i, r.(status := Released, releasedAt := Some(now)), Shift(k.buckets, r.rows, Return))
  }

  // Live buckets get their credits back; the rest goes to one adjustment bucket.
  function RefundBuckets(bs: seq<Bucket>, a: Ref, i: nat, rows: seq<Row>, now: Time): seq<Bucket> {
    var dead := Total(Split(bs, rows, now, false));
    Shift(bs, Split(bs, rows, now, true), Restore) +
    if dead != 0 then [Bucket(a, AdjustmentBucket, RefundSource(i), dead, dead, 0, None)] else []
  }

  function RefundMove(k: Book, i: nat, now: Time): Book
    requires i < |k.reservations|
  {
    var r := k.reservations[i];
    var k1 := SetReservation(k, i, r.(status := Refunded, refundedAt := Some(now)),
                             RefundBuckets(k.buckets, r.account, i, r.rows, now));
    Post(k1, r.account, r.amount, REFUND, RefundKey(i), None, [])
  }

  // Expiry, payment reversal and negative adjustment all take available credits away.
  function DrainMove(k: Book, a: Ref, rows: seq<Row>, kind: EntryKind, key: Key, bucket: Option<nat>): Book {
    Post(k.(buckets := Shift(k.buckets, rows, Drain)), a, -Total(rows), kind, key, bucket, rows)
  }
}
