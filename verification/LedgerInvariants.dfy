/** What every move of the credit book keeps. */
module LedgerInvariants {
  import opened Prelude
  import opened Ledger

  // ---- The invariants ----

  ghost predicate RowsOf(bs: seq<Bucket>, rows: seq<Row>, a: Ref) {
    forall i :: 0 <= i < |rows| ==> rows[i].bucket < |bs| && rows[i].amount > 0 && bs[rows[i].bucket].account == a
  }

  // What an entry of each kind may look like.
  predicate Shaped(i: Item) {
    var e := i.entry;
    match e.kind
    case GRANT => e.amount > 0 && i.draws == [] && e.bucket.Some? && (e.key.TrialKey? || e.key.PaymentKey?)
    case CHARGE => e.amount < 0 && i.draws == [] && e.key.CaptureKey?
    case REFUND => e.amount > 0 && i.draws == [] && e.key.RefundKey?
    case EXPIRE => e.amount < 0 && e.key.ExpireKey? && i.draws == [Row(e.key.bucket, -e.amount)]
    case REVERSAL => e.amount < 0 && e.key.ReversalKey? && Total(i.draws) == -e.amount
    case ADJUSTMENT =>
      e.key.AdjustmentKey? && e.amount != 0 && Total(i.draws) == (if e.amount < 0 then -e.amount else 0)
  }

  ghost predicate ReservationOk(bs: seq<Bucket>, r: Reservation) {
    && RowsOf(bs, r.rows, r.account) && Total(r.rows) == r.amount && r.amount > 0
    && (r.status == Refunded <==> r.refundedAt.Some?)
  }

  ghost predicate ReservationsOk(bs: seq<Bucket>, rs: seq<Reservation>) {
    forall r :: 0 <= r < |rs| ==> ReservationOk(bs, rs[r])
  }

  ghost predicate ItemsOk(bs: seq<Bucket>, j: seq<Item>) {
    forall i :: 0 <= i < |j| ==> Shaped(j[i]) && RowsOf(bs, j[i].draws, j[i].entry.account)
  }

  // Where granted credits that are neither available nor reserved have gone.
  function Gone(k: Book, b: nat): int
    requires b < |k.buckets|
  {
    Tally(k.reservations, b, InStatus(Captured)) +
    Tally(k.reservations, b, RefundedAfter(k.buckets[b].expires)) +
    Drained(k.journal, b, EXPIRE) + Drained(k.journal, b, REVERSAL) + Drained(k.journal, b, ADJUSTMENT)
  }

  // One bucket's books: its reserved credits are exactly those of reservations still
  // reserved, and every granted credit is accounted for.
  ghost predicate BucketAt(k: Book, b: nat)
    requires b < |k.buckets|
  {
    var x := k.buckets[b];
    && x.granted > 0 && x.available >= 0
    && x.reserved == Tally(k.reservations, b, InStatus(Reserved))
    && x.granted == x.available + x.reserved + Gone(k, b)
  }

  ghost predicate Partitioned(k: Book) {
    forall b :: 0 <= b < |k.buckets| ==> BucketAt(k, b)
  }

  // Every balance is the running sum of the journal, at its end and at every entry.
  ghost predicate Conserved(k: Book) {
    && (forall a: Ref :: Balance(k.buckets, a) == Journaled(k.journal, a))
    && (forall i :: 0 <= i < |k.journal| ==>
      k.journal[i].entry.balanceAfter == Journaled(k.journal[..i + 1], k.journal[i].entry.account))
  }

  function FootprintStep(i: Item, r: nat): seq<(EntryKind, int)> {
    if i.posted && (i.entry.key == CaptureKey(r) || i.entry.key == RefundKey(r)) then [(i.entry.kind, i.entry.amount)]
      else []
  }

  // The ledger footprint of reservation `r`.
  function Footprint(j: seq<Item>, r: nat): seq<(EntryKind, int)> {
    if |j| == 0 then []
    else Footprint(j[..|j| - 1], r) + FootprintStep(j[|j| - 1], r)
  }

  function ExpectedFootprint(rs: seq<Reservation>, r: nat): seq<(EntryKind, int)> {
    if r >= |rs| then []
    else match rs[r].status
      case Reserved => []
      case Released => []
      case Captured => [(CHARGE, -rs[r].amount)]
      case Refunded => [(CHARGE, -rs[r].amount), (REFUND, rs[r].amount)]
  }

  ghost predicate FootprintsOk(k: Book) {
    forall r: nat :: Footprint(k.journal, r) == ExpectedFootprint(k.reservations, r)
  }

  ghost predicate UniqueKeys(j: seq<Item>) {
    forall m, n :: 0 <= m < n < |j| && j[m].posted && j[n].posted && j[m].entry.account == j[n].entry.account
      ==> j[m].entry.key != j[n].entry.key
  }

  // Only a repeated expiry or reversal key can be dropped by `_ledger`.
  ghost predicate SilentOk(j: seq<Item>) {
    forall i :: 0 <= i < |j| && !j[i].posted ==> j[i].entry.kind == EXPIRE || j[i].entry.kind == REVERSAL
  }

  // An expiry entry belongs to a bucket of its account that had expired by `now`.
  ghost predicate ExpiriesOk(k: Book, now: Time) {
    forall i :: 0 <= i < |k.journal| && k.journal[i].entry.kind == EXPIRE ==>
      && k.journal[i].entry.key.ExpireKey?
      && var b := k.journal[i].entry.key.bucket;
         b < |k.buckets| && k.buckets[b].account == k.journal[i].entry.account && Expired(k.buckets[b].expires, now)
  }

  // The bucket an entry names, if it names one.
  function Target(i: Item): nat {
    if i.entry.bucket.Some? then i.entry.bucket.value else 0
  }

  // Grant entries name distinct buckets, in insertion order.
  ghost predicate GrantsOk(k: Book) {
    && (forall i :: 0 <= i < |k.journal| && k.journal[i].entry.kind == GRANT ==>
      && k.journal[i].posted && Target(k.journal[i]) < |k.buckets|
      && k.buckets[Target(k.journal[i])].account == k.journal[i].entry.account)
    && (forall m, n ::
      0 <= m < n < |k.journal| && k.journal[m].entry.kind == GRANT && k.journal[n].entry.kind == GRANT ==>
      Target(k.journal[m]) < Target(k.journal[n]))
  }

  ghost predicate TablesOk(k: Book) {
    ReservationsOk(k.buckets, k.reservations) && ItemsOk(k.buckets, k.journal)
  }

  ghost predicate JournalOk(k: Book, now: Time) {
    FootprintsOk(k) && UniqueKeys(k.journal) && SilentOk(k.journal) && ExpiriesOk(k, now) && GrantsOk(k)
  }

  ghost predicate Inv(k: Book, now: Time) {
    TablesOk(k) && Partitioned(k) && Conserved(k) && JournalOk(k, now)
  }

  // ---- Sums under updates ----

  lemma {:induction false} BalanceUpdate(bs: seq<Bucket>, i: nat, b: Bucket, a: Ref)
    requires i < |bs| && b.account == bs[i].account
    ensures Balance(bs[i := b], a) == Balance(bs, a) +
      if b.account == a then b.available + b.reserved - bs[i].available - bs[i].reserved else 0
  {
    var n := |bs| - 1;
    if i < n {
      assert bs[i := b][..n] == bs[..n][i := b];
      BalanceUpdate(bs[..n], i, b, a);
    } else {
      assert bs[i := b][..n] == bs[..n];
    }
  }

  lemma BalanceAppend(bs: seq<Bucket>, b: Bucket, a: Ref)
    ensures Balance(bs + [b], a) == Balance(bs, a) + if b.account == a then b.available + b.reserved else 0
  {
    assert (bs + [b])[..|bs|] == bs;
  }

  // What a flow changes in available and in reserved credits, for `x` credits.
  function ToAvailable(f: Flow, x: int): int {
    match f case Hold => -x case Settle => 0 case Return => x case Restore => x case Drain => -x
  }

  function ToReserved(f: Flow, x: int): int {
    match f case Hold => x case Settle => -x case Return => -x case Restore => 0 case Drain => 0
  }

  // Shifting along rows changes each bucket by exactly what the rows allocate to it.
  lemma {:induction false} ShiftAt(bs: seq<Bucket>, rows: seq<Row>, f: Flow, b: nat)
    requires InRange(rows, |bs|) && b < |bs|
    ensures Shift(bs, rows, f)[b] == bs[b].(
      available := bs[b].available + ToAvailable(f, Alloc(rows, b)),
      reserved := bs[b].reserved + ToReserved(f, Alloc(rows, b)))
  {
    if |rows| > 0 {
      ShiftAt(bs, rows[..|rows| - 1], f, b);
    }
  }

  lemma {:induction false} ShiftBalance(bs: seq<Bucket>, rows: seq<Row>, f: Flow, owner: Ref, a: Ref)
    requires RowsOf(bs, rows, owner)
    ensures Balance(Shift(bs, rows, f), a) == Balance(bs, a) +
      if owner == a then ToAvailable(f, Total(rows)) + ToReserved(f, Total(rows)) else 0
  {
    if |rows| > 0 {
      var x := rows[|rows| - 1];
      var s := Shift(bs, rows[..|rows| - 1], f);
      ShiftBalance(bs, rows[..|rows| - 1], f, owner, a);
      ShiftAt(bs, rows[..|rows| - 1], f, x.bucket);
      BalanceUpdate(s, x.bucket, Adjust(s[x.bucket], x.amount, f), a);
    }
  }

  lemma {:induction false} TallyUpdate(rs: seq<Reservation>, i: nat, r: Reservation, b: nat, sel: Selector)
    requires i < |rs|
    ensures Tally(rs[i := r], b, sel) == Tally(rs, b, sel) - Part(rs[i], b, sel) + Part(r, b, sel)
  {
    var n := |rs| - 1;
    if i < n {
      assert rs[i := r][..n] == rs[..n][i := r];
      TallyUpdate(rs[..n], i, r, b, sel);
    } else {
      assert rs[i := r][..n] == rs[..n];
    }
  }

  lemma TallyAppend(rs: seq<Reservation>, r: Reservation, b: nat, sel: Selector)
    ensures Tally(rs + [r], b, sel) == Tally(rs, b, sel) + Part(r, b, sel)
  {
    assert (rs + [r])[..|rs|] == rs;
  }

  lemma UsedAppend(j: seq<Item>, x: Item, a: Ref, key: Key)
    ensures Used(j + [x], a, key) <==> Used(j, a, key) || (x.posted && x.entry.account == a && x.entry.key == key)
  {
    if Used(j, a, key) {
      var i :| 0 <= i < |j| && j[i].posted && j[i].entry.account == a && j[i].entry.key == key;
      assert (j + [x])[i] == j[i];
    }
    if x.posted && x.entry.account == a && x.entry.key == key { assert (j + [x])[|j|] == x; }
  }

  lemma AppendSums(j: seq<Item>, x: Item)
    ensures forall a: Ref :: Journaled(j + [x], a) == Journaled(j, a) + if x.entry.account == a then x.entry.amount
      else 0
    ensures forall b: nat, kind :: Drained(j + [x], b, kind) == Drained(j, b, kind) + if x.entry.kind == kind
      then Alloc(x.draws, b) else 0
    ensures forall r: nat :: Footprint(j + [x], r) == Footprint(j, r) + FootprintStep(x, r)
  {
    assert (j + [x])[..|j|] == j;
  }

  lemma {:induction false} AllocSign(rows: seq<Row>, b: nat)
    requires forall i :: 0 <= i < |rows| ==> rows[i].amount > 0
    ensures Alloc(rows, b) >= 0
    ensures (exists i :: 0 <= i < |rows| && rows[i].bucket == b) <==> Alloc(rows, b) > 0
  {
    if |rows| > 0 {
      var p := rows[..|rows| - 1];
      AllocSign(p, b);
      if Alloc(rows, b) > 0 && rows[|rows| - 1].bucket != b {
        var i :| 0 <= i < |p| && p[i].bucket == b;
        assert rows[i].bucket == b;
      }
      if i :| 0 <= i < |rows| && rows[i].bucket == b {
        if i < |p| { assert p[i].bucket == b; }
      }
    }
  }

  lemma {:induction false} AllocAtMostTotal(rows: seq<Row>, b: nat)
    requires forall i :: 0 <= i < |rows| ==> rows[i].amount > 0
    ensures 0 <= Alloc(rows, b) <= Total(rows)
  {
    if |rows| > 0 { AllocAtMostTotal(rows[..|rows| - 1], b); }
  }

  // Rows below `n` allocate nothing to buckets from `n` on.
  lemma {:induction false} AllocFresh(rows: seq<Row>, n: nat, b: nat)
    requires InRange(rows, n) && n <= b
    ensures Alloc(rows, b) == 0
  {
    if |rows| > 0 { AllocFresh(rows[..|rows| - 1], n, b); }
  }

  lemma {:induction false} TallyFresh(bs: seq<Bucket>, rs: seq<Reservation>, b: nat, sel: Selector)
    requires ReservationsOk(bs, rs) && |bs| <= b
    ensures Tally(rs, b, sel) == 0
  {
    if |rs| > 0 {
      TallyFresh(bs, rs[..|rs| - 1], b, sel);
      assert ReservationOk(bs, rs[|rs| - 1]);
      AllocFresh(rs[|rs| - 1].rows, |bs|, b);
    }
  }

  lemma {:induction false} DrainedFresh(bs: seq<Bucket>, j: seq<Item>, b: nat, kind: EntryKind)
    requires ItemsOk(bs, j) && |bs| <= b
    ensures Drained(j, b, kind) == 0
  {
    if |j| > 0 {
      DrainedFresh(bs, j[..|j| - 1], b, kind);
      AllocFresh(j[|j| - 1].draws, |bs|, b);
    }
  }

  lemma {:induction false} TallyNonNegative(bs: seq<Bucket>, rs: seq<Reservation>, b: nat, sel: Selector)
    requires ReservationsOk(bs, rs)
    ensures Tally(rs, b, sel) >= 0
  {
    if |rs| > 0 {
      TallyNonNegative(bs, rs[..|rs| - 1], b, sel);
      assert ReservationOk(bs, rs[|rs| - 1]);
      AllocSign(rs[|rs| - 1].rows, b);
    }
  }

  lemma {:induction false} DrainedNonNegative(bs: seq<Bucket>, j: seq<Item>, b: nat, kind: EntryKind)
    requires ItemsOk(bs, j)
    ensures Drained(j, b, kind) >= 0
  {
    if |j| > 0 {
      DrainedNonNegative(bs, j[..|j| - 1], b, kind);
      AllocSign(j[|j| - 1].draws, b);
    }
  }

  // A reservation's share of a tally never exceeds the tally.
  lemma {:induction false} PartAtMostTally(bs: seq<Bucket>, rs: seq<Reservation>, i: nat, b: nat, sel: Selector)
    requires ReservationsOk(bs, rs) && i < |rs|
    ensures 0 <= Part(rs[i], b, sel) <= Tally(rs, b, sel)
  {
    var n := |rs| - 1;
    assert ReservationOk(bs, rs[n]) && ReservationOk(bs, rs[i]);
    AllocSign(rs[n].rows, b);
    AllocSign(rs[i].rows, b);
    TallyNonNegative(bs, rs[..n], b, sel);
    if i < n { PartAtMostTally(bs, rs[..n], i, b, sel); }
  }

  lemma {:induction false} SplitTotals(bs: seq<Bucket>, rows: seq<Row>, now: Time)
    requires InRange(rows, |bs|)
    ensures Total(Split(bs, rows, now, true)) + Total(Split(bs, rows, now, false)) == Total(rows)
  {
    if |rows| > 0 {
      var p := rows[..|rows| - 1];
      var x := rows[|rows| - 1];
      SplitTotals(bs, p, now);
      var live := Live(bs, x.bucket, now);
      var s := Split(bs, p, now, live);
      assert (s + [x])[..|s|] == s;
    }
  }

  lemma {:induction false} SplitAlloc(bs: seq<Bucket>, rows: seq<Row>, now: Time, live: bool, b: nat)
    requires InRange(rows, |bs|) && b < |bs|
    ensures Alloc(Split(bs, rows, now, live), b) == if live == Live(bs, b, now) then Alloc(rows, b) else 0
  {
    if |rows| > 0 {
      var p := rows[..|rows| - 1];
      var x := rows[|rows| - 1];
      SplitAlloc(bs, p, now, live, b);
      var s := Split(bs, p, now, live);
      assert (s + [x])[..|s|] == s;
    }
  }

  lemma {:induction false} SplitRows(bs: seq<Bucket>, rows: seq<Row>, now: Time, live: bool, a: Ref)
    requires RowsOf(bs, rows, a)
    ensures RowsOf(bs, Split(bs, rows, now, live), a)
  {
    if |rows| > 0 {
      SplitRows(bs, rows[..|rows| - 1], now, live, a);
    }
  }

  // ---- Shared steps of the move proofs ----

  // `next` keeps every bucket's identity and may add buckets.
  ghost predicate Extends(bs: seq<Bucket>, next: seq<Bucket>) {
    && |bs| <= |next|
    && forall b :: 0 <= b < |bs| ==>
      && next[b].account == bs[b].account && next[b].kind == bs[b].kind && next[b].source == bs[b].source
      && next[b].granted == bs[b].granted && next[b].expires == bs[b].expires
  }

  lemma ShiftExtends(bs: seq<Bucket>, rows: seq<Row>, f: Flow)
    requires InRange(rows, |bs|)
    ensures Extends(bs, Shift(bs, rows, f))
  {
    forall b | 0 <= b < |bs| ensures Shift(bs, rows, f)[b] == bs[b].(
      available := Shift(bs, rows, f)[b].available, reserved := Shift(bs, rows, f)[b].reserved)
    {
      ShiftAt(bs, rows, f, b);
    }
  }

  lemma RowsExtend(bs: seq<Bucket>, next: seq<Bucket>, rows: seq<Row>, a: Ref)
    requires Extends(bs, next) && RowsOf(bs, rows, a)
    ensures RowsOf(next, rows, a)
  {}

  lemma TablesExtend(bs: seq<Bucket>, next: seq<Bucket>, rs: seq<Reservation>, j: seq<Item>)
    requires Extends(bs, next) && ReservationsOk(bs, rs) && ItemsOk(bs, j)
    ensures ReservationsOk(next, rs) && ItemsOk(next, j)
  {
    forall r | 0 <= r < |rs| ensures ReservationOk(next, rs[r]) {
      assert ReservationOk(bs, rs[r]);
    }
  }

  // Posting keeps conservation when the balance just moved by the posted amount.
  lemma PostConserves(before: Book, mid: Book, a: Ref, amount: int, kind: EntryKind, key: Key, bucket: Option<nat>,
      draws: seq<Row>)
    requires Conserved(before) && mid.journal == before.journal
    requires forall x: Ref :: Balance(mid.buckets, x) == Balance(before.buckets, x) + if x == a then amount else 0
    ensures Conserved(Post(mid, a, amount, kind, key, bucket, draws))
  {
    var after := Post(mid, a, amount, kind, key, bucket, draws);
    var x := after.journal[|before.journal|];
    AppendSums(before.journal, x);
    forall i | 0 <= i < |after.journal|
      ensures after.journal[i].entry.balanceAfter == Journaled(after.journal[..i + 1], after.journal[i].entry.account)
    {
      if i < |before.journal| {
        assert after.journal[..i + 1] == before.journal[..i + 1];
      } else {
        assert after.journal[..i + 1] == after.journal;
      }
    }
  }

  // A key no posted item of the account carries is posted.
  lemma PostKeepsJournal(before: Book, mid: Book, now: Time, later: Time,
                         a: Ref, amount: int, kind: EntryKind, key: Key, bucket: Option<nat>, draws: seq<Row>)
    requires JournalOk(before, now) && ItemsOk(before.buckets, before.journal) && now <= later
    requires mid.journal == before.journal && Extends(before.buckets, mid.buckets)
    requires Shaped(Item(Entry(a, bucket, amount, kind, 0, key), true, draws))
    requires kind != EXPIRE && kind != REVERSAL ==> !Used(before.journal, a, key)
    requires kind == EXPIRE ==>
      && key.bucket < |mid.buckets| && mid.buckets[key.bucket].account == a
      && Expired(mid.buckets[key.bucket].expires, later)
    requires kind == GRANT ==>
      && bucket == Some(|before.buckets|) && |before.buckets| < |mid.buckets|
      && mid.buckets[|before.buckets|].account == a
    ensures
      var after := Post(mid, a, amount, kind, key, bucket, draws);
      UniqueKeys(after.journal) && SilentOk(after.journal) && ExpiriesOk(after, later) && GrantsOk(after)
  {
    var after := Post(mid, a, amount, kind, key, bucket, draws);
    var n := |before.journal|;
    forall i | 0 <= i < n ensures after.journal[i] == before.journal[i] {}
    assert ExpiriesOk(after, later);
    assert GrantsOk(after);
  }
}
