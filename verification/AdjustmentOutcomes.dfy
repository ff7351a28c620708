/** What administrative credit adjustments leave behind: who may decide them, that an
approval carries them out, and which buckets pay for a negative one. */
module AdjustmentOutcomes {
  import opened Prelude
  import opened Ledger
  import opened LedgerInvariants
  import opened LedgerMoves
  import opened CreditOps
  import opened CreditLaws
  import opened Billing
  import opened BillingLaws
  import opened Guarantees
  import opened SpendingOutcomes
  import opened ReserveOutcomes

  // Available credits of the account in its first `n` buckets, expired ones included.
  function Funds(bs: seq<Bucket>, a: Ref, n: nat): int
    requires n <= |bs|
  {
    if n == 0 then 0 else Funds(bs, a, n - 1) + if bs[n - 1].account == a then bs[n - 1].available else 0
  }

  // What bucket `b` pays of `need` when older buckets pay first.
  function Share(bs: seq<Bucket>, a: Ref, need: int, b: nat): int
    requires b < |bs|
  {
    if bs[b].account == a then Min(bs[b].available, Max(0, need - Funds(bs, a, b))) else 0
  }

  // A positive adjustment is a new bucket that never expires; a negative one is paid from
  // the account's buckets, oldest first; either is one entry of the adjustment's amount.
  ghost predicate Adjusted(k: Book, next: Book, a: Ref, amount: int, n: nat) {
    && next.reservations == k.reservations
    && OneEntry(k.journal, next.journal,
                Entry(a, if amount > 0 then Some(|k.buckets|) else None, amount, ADJUSTMENT,
                      Balance(k.buckets, a) + amount, AdjustmentKey(n)))
    && if amount > 0 then
         next.buckets == k.buckets + [Bucket(a, AdjustmentBucket, AdjustmentSource(n), amount, amount, 0, None)]
       else
         && |next.buckets| == |k.buckets|
         && forall b :: 0 <= b < |k.buckets| ==>
           next.buckets[b] == k.buckets[b].(available := k.buckets[b].available - Share(k.buckets, a, -amount, b))
  }

  ghost predicate NoneNegative(bs: seq<Bucket>) {
    forall b :: 0 <= b < |bs| ==> bs[b].available >= 0
  }

  lemma InvNoneNegative(k: Book, now: Time)
    requires Inv(k, now)
    ensures NoneNegative(k.buckets)
  {
    forall b | 0 <= b < |k.buckets| ensures k.buckets[b].available >= 0 { assert BucketAt(k, b); }
  }

  lemma OfferedAppend(bs: seq<Bucket>, order: seq<nat>, b: nat)
    requires b < |bs| && forall i :: 0 <= i < |order| ==> order[i] < |bs|
    ensures Offered(bs, order + [b]) == Offered(bs, order) + bs[b].available
  {
    assert (order + [b])[..|order|] == order;
  }

  lemma CreationStep(bs: seq<Bucket>, a: Ref, n: nat)
    requires n <= |bs|
    ensures CreationOrder(bs, a, n) ==
      if n == 0 then []
      else if bs[n - 1].account == a && bs[n - 1].available > 0 then CreationOrder(bs, a, n - 1) + [n - 1]
      else CreationOrder(bs, a, n - 1)
  {}

  lemma CreationDrawable(bs: seq<Bucket>, a: Ref, n: nat)
    requires n <= |bs|
    ensures Drawable(bs, CreationOrder(bs, a, n))
  {
    hide CreationOrder;
    CreationOrderCorrect(bs, a, n);
    var order := CreationOrder(bs, a, n);
    forall i | 0 <= i < |order| ensures order[i] in order {}
  }

  lemma {:induction false} CreationOffers(bs: seq<Bucket>, a: Ref, n: nat)
    requires n <= |bs| && NoneNegative(bs)
    ensures Offered(bs, CreationOrder(bs, a, n)) == Funds(bs, a, n) >= 0
  {
    hide CreationOrder, Offered, NoneNegative;
    CreationStep(bs, a, n);
    if n > 0 {
      CreationOffers(bs, a, n - 1);
      OfferedAppend(bs, CreationOrder(bs, a, n - 1), n - 1);
      AvailableAt(bs, n - 1);
    } else {
      NothingOffered(bs, 0, 0);
    }
  }

  lemma NothingOffered(bs: seq<Bucket>, need: int, b: nat)
    ensures Offered(bs, []) == 0 && Alloc(Greedy(bs, [], need), b) == 0
  {}

  lemma {:induction false} CreationShares(bs: seq<Bucket>, a: Ref, need: int, n: nat, b: nat)
    requires n <= |bs| && need >= 0 && b < |bs| && NoneNegative(bs)
    ensures Alloc(Greedy(bs, CreationOrder(bs, a, n), need), b) == if b < n then Share(bs, a, need, b) else 0
  {
    hide Greedy, Offered, Alloc, Total, NoneNegative, CreationOrder, Drawable;
    CreationStep(bs, a, n);
    if n > 0 {
      CreationShares(bs, a, need, n - 1, b);
      CreationOffers(bs, a, n - 1);
      CreationDrawable(bs, a, n - 1);
      AvailableAt(bs, n - 1);
      var init := CreationOrder(bs, a, n - 1);
      GreedyTotal(bs, init, need);
      if bs[n - 1].account == a && bs[n - 1].available > 0 { NextPays(bs, init, need, n - 1, b); }
    } else {
      NothingOffered(bs, need, b);
    }
  }

  lemma AvailableAt(bs: seq<Bucket>, b: nat)
    requires NoneNegative(bs) && b < |bs|
    ensures bs[b].available >= 0
  {}

  lemma NextPays(bs: seq<Bucket>, order: seq<nat>, need: int, next: nat, b: nat)
    requires next < |bs| && forall i :: 0 <= i < |order| ==> order[i] < |bs|
    ensures Alloc(Greedy(bs, order + [next], need), b) == Alloc(Greedy(bs, order, need), b) +
      if b == next then Min(bs[next].available, need - Total(Greedy(bs, order, need))) else 0
  {
    hide Greedy, Alloc, Total;
    assert (order + [next])[..|order|] == order;
    GreedyStep(bs, order + [next], need, b);
  }

  // Carrying out an adjustment whose key is unused.
  lemma AdjustOutcome(k: Book, now: Time, a: Ref, amount: int, n: nat)
    requires Inv(k, now) && amount != 0 && !Used(k.journal, a, AdjustmentKey(n))
    ensures
      var out := AdjustBook(k, a, amount, n);
      if amount < 0 && Funds(k.buckets, a, |k.buckets|) < -amount then out == Err(AdjustmentExceedsBalance)
      else out.Ok? && Adjusted(k, out.value, a, amount, n)
  {
    hide Inv, Balance, Used, Shift, Greedy, CreationOrder, Offered, Total, Funds, Share, Alloc, NoneNegative;
    InvNoneNegative(k, now);
    if amount > 0 {
      BalanceAppend(k.buckets, Bucket(a, AdjustmentBucket, AdjustmentSource(n), amount, amount, 0, None), a);
    } else {
      CreationOffers(k.buckets, a, |k.buckets|);
      if Funds(k.buckets, a, |k.buckets|) >= -amount { TakesOldest(k, now, a, -amount, n); }
    }
  }

  lemma TakesOldest(k: Book, now: Time, a: Ref, need: int, n: nat)
    requires Inv(k, now) && need > 0 && !Used(k.journal, a, AdjustmentKey(n))
    requires Offered(k.buckets, CreationOrder(k.buckets, a, |k.buckets|)) >= need
    ensures
      var rows := Greedy(k.buckets, CreationOrder(k.buckets, a, |k.buckets|), need);
      Adjusted(k, DrainMove(k, a, rows, ADJUSTMENT, AdjustmentKey(n), None), a, -need, n)
  {
    hide Inv, Balance, Used, Shift, Greedy, CreationOrder, Offered, Total, Funds, Share, Alloc, NoneNegative;
    InvNoneNegative(k, now);
    var order := CreationOrder(k.buckets, a, |k.buckets|);
    var rows := Greedy(k.buckets, order, need);
    InvPartitioned(k, now);
    TakeCovered(k, a, need, order);
    hide Partitioned;
    ShiftBalance(k.buckets, rows, Drain, a, a);
    forall b | 0 <= b < |k.buckets|
      ensures Shift(k.buckets, rows, Drain)[b] ==
        k.buckets[b].(available := k.buckets[b].available - Share(k.buckets, a, need, b))
    {
      ShiftAt(k.buckets, rows, Drain, b);
      CreationShares(k.buckets, a, need, |k.buckets|, b);
    }
  }

  lemma InvPartitioned(k: Book, now: Time)
    requires Inv(k, now)
    ensures Partitioned(k)
  {
    hide TablesOk, Partitioned, Conserved, JournalOk;
  }

  // ---- Requests and decisions ----

  // Adjustment `n` of this row was carried out.
  ghost predicate CarriedOut(s: State, next: State, rows: seq<Adjustment>, target: Ref, amount: int, n: nat) {
    && next == s.(adjustments := rows, accounts := WithAccount(s.accounts, target), book := next.book)
    && Adjusted(s.book, next.book, target, amount, n)
  }

  lemma KeyUnused(s: State, a: Ref, n: nat)
    requires SInv(s) && ExpectedItems(s.adjustments, n) == []
    ensures !Used(s.book.journal, a, AdjustmentKey(n))
  {
    assert AdjustmentItems(s.book.journal, n) == [];
    if Used(s.book.journal, a, AdjustmentKey(n)) { UsedAdjustment(s.book.journal, a, n); }
  }

  lemma ExecuteOutcome(s: State, rows: seq<Adjustment>, target: Ref, amount: int, n: nat)
    requires SInv(s) && amount != 0 && ExpectedItems(s.adjustments, n) == []
    ensures
      var out := ExecuteAdjustment(s.(adjustments := rows), target, amount, n);
      if target !in s.accounts && target !in s.users then out == Err(UserNotFound)
      else if amount < 0 && Funds(s.book.buckets, target, |s.book.buckets|) < -amount then
        out == Err(AdjustmentExceedsBalance)
      else out.Ok? && CarriedOut(s, out.value, rows, target, amount, n)
  {
    hide SInv, Inv, Used, AdjustBook, Adjusted, Funds, ExpectedItems;
    KeyUnused(s, target, n);
    BookInv(s);
    AdjustOutcome(s.book, s.clock, target, amount, n);
  }

  // A pending adjustment that someone other than its requester approves is carried out: its
  // row is executed and names the approver, and the credits move. It is refused when its
  // target has no account and cannot have one, or has less available than it takes.
  lemma ApproveOutcome(s: State, id: nat, actor: Ref)
    requires Reachable(s)
    ensures
      var out := Execute(s, ApproveOp(id, actor));
      if id >= |s.adjustments| then out == Err(AdjustmentNotFound)
      else
        var row := s.adjustments[id];
        if row.status != Pending then out == Err(AdjustmentAlreadyDecided)
        else if row.requester == actor then out == Err(SelfApprovalForbidden)
        else if row.target !in s.accounts && row.target !in s.users then out == Err(UserNotFound)
        else if row.amount < 0 && Funds(s.book.buckets, row.target, |s.book.buckets|) < -row.amount then
          out == Err(AdjustmentExceedsBalance)
        else
          && out.Ok?
          && CarriedOut(s, out.value, s.adjustments[id := row.(status := Executed, decider := Some(actor))],
                        row.target, row.amount, id)
  {
    hide Reachable, SInv, Execute, ExecuteAdjustment, CarriedOut, Funds;
    Dispatch(s, ApproveOp(id, actor));
    ReachableInv(s);
    if id < |s.adjustments| && s.adjustments[id].status == Pending {
      PendingRow(s, id);
      var row := s.adjustments[id];
      var rows := s.adjustments[id := row.(status := Executed, decider := Some(actor))];
      ExecuteOutcome(s, rows, row.target, row.amount, id);
    }
  }

  // A request is recorded for a known user; under dual control it waits, else it is carried
  // out at once.
  lemma RequestOutcome(s: State, actor: Ref, target: Ref, amount: int, dual: bool)
    requires Reachable(s)
    ensures
      var out, n := Execute(s, RequestOp(actor, target, amount, dual)), |s.adjustments|;
      if amount == 0 then out == Err(ZeroCreditAdjustment)
      else if target !in s.users then out == Err(UserNotFound)
      else if dual then
        out == Ok(s.(adjustments := s.adjustments + [Adjustment(actor, target, amount, Pending, true, None)]))
      else if amount < 0 && Funds(s.book.buckets, target, |s.book.buckets|) < -amount then
        out == Err(AdjustmentExceedsBalance)
      else
        && out.Ok?
        && CarriedOut(s, out.value, s.adjustments + [Adjustment(actor, target, amount, Executed, false, None)],
                      target, amount, n)
  {
    hide Reachable, SInv, Execute, ExecuteAdjustment, CarriedOut, Funds;
    Dispatch(s, RequestOp(actor, target, amount, dual));
    ReachableInv(s);
    if amount != 0 && target in s.users && !dual {
      ExecuteOutcome(s, s.adjustments + [Adjustment(actor, target, amount, Executed, false, None)], target, amount,
        |s.adjustments|);
    }
  }

  // A rejection changes its row alone.
  lemma RejectOutcome(s: State, id: nat, actor: Ref)
    ensures
      var out := Execute(s, RejectOp(id, actor));
      if id >= |s.adjustments| then out == Err(AdjustmentNotFound)
      else
        var row := s.adjustments[id];
        if row.status != Pending then out == Err(AdjustmentAlreadyDecided)
        else if row.requester == actor then out == Err(SelfApprovalForbidden)
        else
          out == Ok(s.(adjustments := s.adjustments[id := row.(status := Rejected, decider := Some(actor))]))
  {
    hide Execute;
    Dispatch(s, RejectOp(id, actor));
  }
}
