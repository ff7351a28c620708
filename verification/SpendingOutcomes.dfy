/** What each spending operation leaves behind, told from the tables before it: which
reservation answers, which buckets gain or lose what, which entry is written, and which
error refuses. */
module SpendingOutcomes {
  import opened Prelude
  import opened Ledger
  import opened LedgerInvariants
  import opened LedgerMoves
  import opened CreditOps
  import opened CreditLaws
  import opened Billing
  import opened BillingLaws
  import opened BillingHistory
  import opened Guarantees
  import opened ReservationRuns

  // Exactly this entry was inserted.
  ghost predicate OneEntry(j: seq<Item>, next: seq<Item>, entry: Entry) {
    |next| == |j| + 1 && next[..|j|] == j && next[|j|].posted && next[|j|].entry == entry
  }

  // Only the book differs.
  ghost predicate OnlyBook(s: State, next: State) {
    next == s.(book := next.book)
  }

  // ---- Capture ----

  // A captured reservation is left alone, a released or refunded one is refused; a reserved
  // one is charged: each bucket's reserved credits fall by its allocation, and one charge of
  // the reservation's amount is entered.
  lemma CaptureOutcome(s: State, id: Option<nat>)
    requires Reachable(s)
    ensures id.None? || id.value >= |s.book.reservations| ==> Execute(s, CaptureOp(id)) == Ok(s)
    ensures id.Some? && id.value < |s.book.reservations| ==>
      var r, out := s.book.reservations[id.value], Execute(s, CaptureOp(id));
      match r.status
      case Captured => out == Ok(s)
      case Released => out == Err(ReservationNotCapturable)
      case Refunded => out == Err(ReservationNotCapturable)
      case Reserved => out.Ok? && OnlyBook(s, out.value) && Charged(s.book, out.value.book, id.value, s.clock)
  {
    hide Execute, Reachable, SInv, CanSettle;
    Dispatch(s, CaptureOp(id));
    ReachableInv(s);
    if id.Some? && id.value < |s.book.reservations| && s.book.reservations[id.value].status == Status.Reserved {
      BookInv(s);
      CaptureNeverCorrupt(s.book, s.clock, id, s.clock);
      CaptureBookKeeps(s.book, s.clock, s.clock, id);
      CaptureCharges(s.book, s.clock, id.value);
    }
  }

  ghost predicate Charged(k: Book, next: Book, id: nat, now: Time)
    requires id < |k.reservations|
  {
    var r := k.reservations[id];
    && next.reservations == k.reservations[id := r.(status := Captured, capturedAt := Some(now))]
    && |next.buckets| == |k.buckets|
    && (forall b :: 0 <= b < |k.buckets| ==>
      next.buckets[b] == k.buckets[b].(reserved := k.buckets[b].reserved - Alloc(r.rows, b)))
    && OneEntry(k.journal, next.journal,
                Entry(r.account, None, -r.amount, CHARGE, Balance(k.buckets, r.account) - r.amount, CaptureKey(id)))
  }

  lemma CaptureCharges(k: Book, now: Time, id: nat)
    requires Inv(k, now) && id < |k.reservations| && Inv(CaptureMove(k, id, now), now)
    ensures Charged(k, CaptureMove(k, id, now), id, now)
  {
    var r, next := k.reservations[id], CaptureMove(k, id, now);
    assert ReservationOk(k.buckets, r);
    forall b | 0 <= b < |k.buckets|
      ensures next.buckets[b] == k.buckets[b].(reserved := k.buckets[b].reserved - Alloc(r.rows, b))
    {
      ShiftAt(k.buckets, r.rows, Settle, b);
    }
    ShiftBalance(k.buckets, r.rows, Settle, r.account, r.account);
    PostedKind(next, now, |k.journal|);
  }

  // Only an expiry or a reversal may lack its row.
  lemma PostedKind(k: Book, now: Time, i: nat)
    requires Inv(k, now) && i < |k.journal| && k.journal[i].entry.kind != EXPIRE && k.journal[i].entry.kind != REVERSAL
    ensures k.journal[i].posted
  {}

  // ---- Release ----

  // A reserved reservation is released: each bucket gets its allocation back, and the
  // ledger stays as it was. Any other call changes nothing.
  lemma ReleaseOutcome(s: State, id: Option<nat>)
    requires Reachable(s)
    ensures Execute(s, ReleaseOp(id)).Ok?
    ensures
      var next := Execute(s, ReleaseOp(id)).value;
      if id.Some? && id.value < |s.book.reservations| && s.book.reservations[id.value].status == Status.Reserved
      then OnlyBook(s, next) && GivenBack(s.book, next.book, id.value, s.clock)
      else next == s
  {
    hide Execute, Reachable, SInv;
    Dispatch(s, ReleaseOp(id));
    ReachableInv(s);
    if id.Some? && id.value < |s.book.reservations| {
      BookInv(s);
      ReleaseGivesBack(s.book, s.clock, id.value);
    }
  }

  ghost predicate GivenBack(k: Book, next: Book, id: nat, now: Time)
    requires id < |k.reservations|
  {
    var r := k.reservations[id];
    && next.reservations == k.reservations[id := r.(status := Released, releasedAt := Some(now))]
    && |next.buckets| == |k.buckets| && next.journal == k.journal
    && (forall b :: 0 <= b < |k.buckets| ==>
      next.buckets[b] == k.buckets[b].(available := k.buckets[b].available + Alloc(r.rows, b),
                                       reserved := k.buckets[b].reserved - Alloc(r.rows, b)))
  }

  lemma ReleaseGivesBack(k: Book, now: Time, id: nat)
    requires Inv(k, now) && id < |k.reservations|
    ensures GivenBack(k, ReleaseMove(k, id, now), id, now)
  {
    var r, next := k.reservations[id], ReleaseMove(k, id, now);
    assert ReservationOk(k.buckets, r);
    forall b | 0 <= b < |k.buckets|
      ensures next.buckets[b] == k.buckets[b].(available := k.buckets[b].available + Alloc(r.rows, b),
                                               reserved := k.buckets[b].reserved - Alloc(r.rows, b))
    {
      ShiftAt(k.buckets, r.rows, Return, b);
    }
  }

  // ---- Refund ----

  // Allocated credits whose bucket has expired at `now`.
  function ExpiredPart(bs: seq<Bucket>, rows: seq<Row>, now: Time): int {
    if |rows| == 0 then 0
    else
      var x := rows[|rows| - 1];
      ExpiredPart(bs, rows[..|rows| - 1], now) +
      if x.bucket < |bs| && bs[x.bucket].expires.Some? && bs[x.bucket].expires.value <= now then x.amount else 0
  }

  // A bucket that was given credits back, unless it has expired at `now`.
  function Restored(x: Bucket, credits: int, now: Time): Bucket {
    if x.expires.Some? && x.expires.value <= now then x else x.(available := x.available + credits)
  }

  ghost predicate PaidBack(k: Book, next: Book, id: nat, now: Time)
    requires id < |k.reservations|
  {
    var r, n := k.reservations[id], |k.buckets|;
    var lost := ExpiredPart(k.buckets, r.rows, now);
    && next.reservations == k.reservations[id := r.(status := Refunded, refundedAt := Some(now))]
    && n <= |next.buckets| && lost >= 0
    && (forall b :: 0 <= b < n ==> next.buckets[b] == Restored(k.buckets[b], Alloc(r.rows, b), now))
    && next.buckets[n..] ==
      (if lost == 0 then [] else [Bucket(r.account, AdjustmentBucket, RefundSource(id), lost, lost, 0, None)])
    && OneEntry(k.journal, next.journal,
                Entry(r.account, None, r.amount, REFUND, Balance(k.buckets, r.account) + r.amount, RefundKey(id)))
  }

  // A refunded reservation is left alone, and only a captured one is refunded: each bucket
  // that has not expired regains exactly its allocation, an expired one nothing; the rest
  // goes to one new adjustment bucket that never expires, if there is any; and one refund
  // of the reservation's amount is entered.
  lemma RefundOutcome(s: State, id: nat)
    requires Reachable(s)
    ensures id >= |s.book.reservations| ==> Execute(s, RefundOp(id)) == Err(ReservationNotFound)
    ensures id < |s.book.reservations| ==>
      var out := Execute(s, RefundOp(id));
      match s.book.reservations[id].status
      case Refunded => out == Ok(s)
      case Reserved => out == Err(ReservationNotRefundable)
      case Released => out == Err(ReservationNotRefundable)
      case Captured => out.Ok? && OnlyBook(s, out.value) && PaidBack(s.book, out.value.book, id, s.clock)
  {
    hide Execute, Reachable, SInv, Inv, Used, RefundsOwned, RefundMove, PaidBack;
    Dispatch(s, RefundOp(id));
    if id < |s.book.reservations| {
      ReachableInv(s);
      BookInv(s);
      ReferencesDiffer(s);
      RefundKeyUsed(s.book, s.clock, id);
      if s.book.reservations[id].status == Captured {
        RefundPosted(s.book, s.clock, id);
        RefundPays(s.book, s.clock, id);
      }
    }
  }

  // The refund key is in use exactly when the reservation was refunded.
  lemma RefundKeyUsed(k: Book, now: Time, id: nat)
    requires Inv(k, now) && RefundsOwned(k) && id < |k.reservations|
    ensures Used(k.journal, k.reservations[id].account, RefundKey(id)) <==> k.reservations[id].status == Refunded
  {
    hide RefundsOwned, Partitioned, Conserved, UniqueKeys, SilentOk, ExpiriesOk, GrantsOk, Used, Footprint, ItemsOk;
    assert Footprint(k.journal, id) == ExpectedFootprint(k.reservations, id);
    if k.reservations[id].status == Refunded {
      assert Footprint(k.journal, id)[1].0 == REFUND;
      RefundedUses(k, id);
    }
    if Used(k.journal, k.reservations[id].account, RefundKey(id)) { UsedRefunds(k, id); }
  }

  lemma RefundedUses(k: Book, id: nat)
    requires ItemsOk(k.buckets, k.journal) && RefundsOwned(k) && id < |k.reservations|
    requires exists f :: f in Footprint(k.journal, id) && f.0 == REFUND
    ensures Used(k.journal, k.reservations[id].account, RefundKey(id))
  {
    FootprintRefund(k.journal, id);
    var i :| 0 <= i < |k.journal| && RefundItem(k.journal, id, i);
    assert Shaped(k.journal[i]) && RefundOwned(k.reservations, k.journal[i]);
  }

  lemma UsedRefunds(k: Book, id: nat)
    requires ItemsOk(k.buckets, k.journal) && id < |k.reservations|
    requires Used(k.journal, k.reservations[id].account, RefundKey(id))
    ensures exists f :: f in Footprint(k.journal, id) && f.0 == REFUND
  {
    FootprintRefund(k.journal, id);
    var i :| 0 <= i < |k.journal| && k.journal[i].posted && k.journal[i].entry.account == k.reservations[id].account
      && k.journal[i].entry.key == RefundKey(id);
    assert Shaped(k.journal[i]);
  }

  // Item `i` is an inserted refund under a key of reservation `id`.
  ghost predicate RefundItem(j: seq<Item>, id: nat, i: nat)
    requires i < |j|
  {
    && j[i].posted && j[i].entry.kind == REFUND
    && (j[i].entry.key == CaptureKey(id) || j[i].entry.key == RefundKey(id))
  }

  // A footprint holds a refund exactly when a posted item is one.
  lemma {:induction false} FootprintRefund(j: seq<Item>, id: nat)
    ensures forall f :: f in Footprint(j, id) && f.0 == REFUND ==> exists i :: 0 <= i < |j| && RefundItem(j, id, i)
    ensures forall i :: 0 <= i < |j| && j[i].posted && j[i].entry.key == RefundKey(id) ==>
      (j[i].entry.kind, j[i].entry.amount) in Footprint(j, id)
  {
    if |j| > 0 {
      var n := |j| - 1;
      FootprintRefund(j[..n], id);
      forall f | f in Footprint(j, id) && f.0 == REFUND ensures exists i :: 0 <= i < |j| && RefundItem(j, id, i) {
        if f in Footprint(j[..n], id) {
          var i :| 0 <= i < n && RefundItem(j[..n], id, i);
          assert RefundItem(j, id, i);
        } else {
          assert f in FootprintStep(j[n], id);
          assert RefundItem(j, id, n);
        }
      }
      forall i | 0 <= i < |j| && j[i].posted && j[i].entry.key == RefundKey(id)
        ensures (j[i].entry.kind, j[i].entry.amount) in Footprint(j, id)
      {
        if i < n { assert j[..n][i] == j[i]; }
      }
    }
  }

  lemma {:induction false} SplitExpired(bs: seq<Bucket>, rows: seq<Row>, now: Time)
    requires InRange(rows, |bs|)
    ensures Total(Split(bs, rows, now, false)) == ExpiredPart(bs, rows, now)
  {
    if |rows| > 0 {
      var init, x := rows[..|rows| - 1], rows[|rows| - 1];
      SplitExpired(bs, init, now);
      var s := Split(bs, init, now, false);
      assert (s + [x])[..|s|] == s;
    }
  }

  // The refund's adjustment bucket.
  lemma RefundReroutes(bs: seq<Bucket>, a: Ref, id: nat, rows: seq<Row>, now: Time)
    requires RowsOf(bs, rows, a)
    ensures
      var lost := ExpiredPart(bs, rows, now);
      && lost >= 0 && |bs| <= |RefundBuckets(bs, a, id, rows, now)|
      && RefundBuckets(bs, a, id, rows, now)[|bs|..] ==
        if lost == 0 then [] else [Bucket(a, AdjustmentBucket, RefundSource(id), lost, lost, 0, None)]
  {
    SplitExpired(bs, rows, now);
    SplitRows(bs, rows, now, false, a);
    AllocAtMostTotal(Split(bs, rows, now, false), 0);
    hide Shift, Split, Total, ExpiredPart;
  }

  lemma RefundPays(k: Book, now: Time, id: nat)
    requires id < |k.reservations| && ReservationOk(k.buckets, k.reservations[id])
    requires RefundMove(k, id, now).journal[|k.journal|].posted
    ensures PaidBack(k, RefundMove(k, id, now), id, now)
  {
    hide Split, Total, ExpiredPart, Balance, Alloc, Used, RefundBuckets;
    var r, next := k.reservations[id], RefundMove(k, id, now);
    RefundReroutes(k.buckets, r.account, id, r.rows, now);
    RefundBalance(k.buckets, r.account, id, r.rows, now, r.account);
    forall b | 0 <= b < |k.buckets| ensures next.buckets[b] == Restored(k.buckets[b], Alloc(r.rows, b), now) {
      RefundAt(k.buckets, r.account, id, r.rows, now, b);
    }
  }

  lemma RefundPosted(k: Book, now: Time, id: nat)
    requires Inv(k, now) && id < |k.reservations| && k.reservations[id].status == Captured
    ensures ReservationOk(k.buckets, k.reservations[id])
    ensures RefundMove(k, id, now).journal[|k.journal|].posted
  {
    KeysUnused(k, id);
    assert ReservationOk(k.buckets, k.reservations[id]);
    hide Inv, ReservationOk, Balance, Used, RefundBuckets;
  }

  // ---- The rerouted credits ----

  lemma StepReachable(s: State, wait: nat, op: Op)
    requires Reachable(s)
    ensures Reachable(Step(s, wait, op))
  {
    hide Reachable, Step;
    ReachableOn(s, [Timed(wait, op)]);
    assert [Timed(wait, op)][..0] == [];
    assert Run(s, []) == s;
  }

  // The refund as one step of a run.
  lemma RefundReachable(s: State, id: nat)
    requires Reachable(s) && Execute(s, RefundOp(id)).Ok?
    ensures Reachable(Execute(s, RefundOp(id)).value)
  {
    hide Reachable, Execute;
    StepReachable(s, 0, RefundOp(id));
    assert s.(clock := s.clock + 0) == s;
  }

  // Credits a refund reroutes stay spendable: after any later operations their bucket has
  // no expiry, and a sweep of any account at any later time leaves it as it is.
  lemma ReroutedStays(s: State, id: nat, ops: seq<Timed>, a: Ref, later: Time)
    requires Reachable(s) && id < |s.book.reservations| && s.book.reservations[id].status == Captured
    requires ExpiredPart(s.book.buckets, s.book.reservations[id].rows, s.clock) != 0
    ensures Execute(s, RefundOp(id)).Ok?
    ensures
      var n, t := |s.book.buckets|, Run(Execute(s, RefundOp(id)).value, ops);
      n < |t.book.buckets| && t.book.buckets[n].expires == None &&
      (t.clock <= later ==>
        var swept := ExpireBuckets(t.book, a, later).buckets;
        n < |swept| && swept[n] == t.book.buckets[n])
  {
    RefundOutcome(s, id);
    hide Reachable, SInv, Execute, Run, ExpireBuckets, ExpiredPart, OneEntry;
    var next, n := Execute(s, RefundOp(id)).value, |s.book.buckets|;
    assert next.book.buckets[n] == next.book.buckets[n..][0];
    RefundReachable(s, id);
    ReachableInv(next);
    RunLater(next, ops);
    RunKeeps(next, ops);
    var t := Run(next, ops);
    BookInv(t);
    if t.clock <= later { ExpireBucketsKeeps(t.book, t.clock, later, a); }
  }

  // ---- Due reservations ----

  // A reservation that is not both reserved and due is left alone. A due one is charged,
  // or gets its credits back, or stays reserved for another fifteen minutes, as its domain
  // record calls for.
  lemma SettleDueOutcome(s: State, id: nat, outcome: Outcome)
    requires Reachable(s)
    ensures Execute(s, SettleOp(id, outcome)).Ok?
    ensures
      var rs, next := s.book.reservations, Execute(s, SettleOp(id, outcome)).value;
      if id >= |rs| || rs[id].status != Status.Reserved || rs[id].expires > s.clock then next == s
      else
        match outcome
        case CaptureIt => OnlyBook(s, next) && Charged(s.book, next.book, id, s.clock)
        case ReleaseIt => OnlyBook(s, next) && GivenBack(s.book, next.book, id, s.clock)
        case DeferIt =>
          next == s.(book := s.book.(reservations := rs[id := rs[id].(expires := s.clock + 15 * 60)]))
  {
    hide Reachable, Execute, Capture, Release, Charged, GivenBack, OnlyBook;
    Dispatch(s, SettleOp(id, outcome));
    Dispatch(s, CaptureOp(Some(id)));
    Dispatch(s, ReleaseOp(Some(id)));
    var rs := s.book.reservations;
    if id < |rs| && rs[id].status == Status.Reserved && rs[id].expires <= s.clock {
      match outcome {
        case CaptureIt => CaptureOutcome(s, Some(id));
        case ReleaseIt => ReleaseOutcome(s, Some(id));
        case DeferIt =>
      }
    }
  }
}
