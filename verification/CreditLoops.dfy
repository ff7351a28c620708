/** How the loops of the credit methods build up the results of the book operations. */
module CreditLoops {
  import opened Prelude
  import opened Ledger
  import opened LedgerInvariants
  import opened CreditOps
  import opened CreditLaws

  // ---- The ledger table ----

  // The rows that `_ledger` really inserted.
  function Posted(j: seq<Item>): seq<Entry> {
    if |j| == 0 then []
    else Posted(j[..|j| - 1]) + if j[|j| - 1].posted then [j[|j| - 1].entry] else []
  }

  predicate KeyUsed(entries: seq<Entry>, a: Ref, key: Key) {
    exists i :: 0 <= i < |entries| && entries[i].account == a && entries[i].key == key
  }

  lemma PostedAppend(j: seq<Item>, x: Item)
    ensures Posted(j + [x]) == Posted(j) + if x.posted then [x.entry] else []
  {
    assert (j + [x])[..|j|] == j;
  }

  lemma {:induction false} UsedPosted(j: seq<Item>, a: Ref, key: Key)
    ensures KeyUsed(Posted(j), a, key) <==> Used(j, a, key)
  {
    if |j| > 0 {
      var n := |j| - 1;
      UsedPosted(j[..n], a, key);
      assert j == j[..n] + [j[n]];
      UsedAppend(j[..n], j[n], a, key);
      KeyUsedAppend(Posted(j[..n]), j[n].entry, a, key);
      assert Posted(j[..n]) + [] == Posted(j[..n]);
    }
  }

  lemma KeyUsedAppend(entries: seq<Entry>, x: Entry, a: Ref, key: Key)
    ensures KeyUsed(entries + [x], a, key) <==> KeyUsed(entries, a, key) || (x.account == a && x.key == key)
  {
    assert (entries + [x])[|entries|] == x;
    assert forall i :: 0 <= i < |entries| ==> (entries + [x])[i] == entries[i];
  }

  // ---- Loop steps ----

  lemma ShiftAppend(bs: seq<Bucket>, rows: seq<Row>, i: nat, f: Flow)
    requires i < |rows|
    ensures Shift(bs, rows[..i + 1], f) ==
      var s := Shift(bs, rows[..i], f);
      if rows[i].bucket < |s| then s[rows[i].bucket := Ledger.Adjust(s[rows[i].bucket], rows[i].amount, f)] else s
  {
    assert rows[..i + 1][..i] == rows[..i];
  }

  lemma SplitAppend(bs: seq<Bucket>, rows: seq<Row>, i: nat, now: Time, live: bool)
    requires i < |rows|
    ensures Split(bs, rows[..i + 1], now, live) ==
      Split(bs, rows[..i], now, live) + if live == Live(bs, rows[i].bucket, now) then [rows[i]] else []
  {
    assert rows[..i + 1][..i] == rows[..i];
  }

  lemma ShiftRow(bs: seq<Bucket>, rows: seq<Row>, x: Row, f: Flow)
    ensures Shift(bs, rows + [x], f) ==
      var s := Shift(bs, rows, f);
      if x.bucket < |s| then s[x.bucket := Ledger.Adjust(s[x.bucket], x.amount, f)] else s
    ensures Total(rows + [x]) == Total(rows) + x.amount
  {
    assert (rows + [x])[..|rows|] == rows;
  }

  // Moving credits changes only what is available and reserved.
  lemma {:induction false} ShiftFrame(bs: seq<Bucket>, rows: seq<Row>, f: Flow)
    ensures Extends(bs, Shift(bs, rows, f))
  {
    if |rows| > 0 { ShiftFrame(bs, rows[..|rows| - 1], f); }
  }

  // A bucket that no row names keeps its credits.
  lemma {:induction false} ShiftElsewhere(bs: seq<Bucket>, rows: seq<Row>, f: Flow, b: nat)
    requires b < |bs| && !Mentions(rows, b)
    ensures Shift(bs, rows, f)[b] == bs[b]
  {
    if |rows| > 0 {
      assert !Mentions(rows[..|rows| - 1], b);
      ShiftElsewhere(bs, rows[..|rows| - 1], f, b);
    }
  }

  lemma GreedyNext(bs: seq<Bucket>, order: seq<nat>, need: int, i: nat)
    requires i < |order| && forall j :: 0 <= j < |order| ==> order[j] < |bs|
    ensures Greedy(bs, order[..i + 1], need) ==
      var rows := Greedy(bs, order[..i], need);
      var amount := Min(bs[order[i]].available, need - Total(rows));
      if amount == 0 then rows else rows + [Row(order[i], amount)]
  {
    hide Total;
    assert order[..i + 1][..i] == order[..i];
  }

  // Once nothing is needed the remaining buckets pay nothing.
  lemma {:induction false} GreedyDone(bs: seq<Bucket>, order: seq<nat>, need: int, i: nat)
    requires i <= |order| && Drawable(bs, order) && Total(Greedy(bs, order[..i], need)) == need
    ensures Greedy(bs, order, need) == Greedy(bs, order[..i], need)
  {
    hide Total;
    if i == |order| {
      assert order[..i] == order;
    } else {
      var n := |order| - 1;
      assert order[..n][..i] == order[..i];
      GreedyDone(bs, order[..n], need, i);
    }
  }

  lemma {:induction false} GreedyMentions(bs: seq<Bucket>, order: seq<nat>, need: int, b: nat)
    requires (forall j :: 0 <= j < |order| ==> order[j] < |bs|) && b !in order
    ensures !Mentions(Greedy(bs, order, need), b)
  {
    hide Total;
    if |order| > 0 {
      assert order == order[..|order| - 1] + [order[|order| - 1]];
      GreedyMentions(bs, order[..|order| - 1], need, b);
    }
  }

  lemma {:induction false} ExpireAllFrame(k: Book, ids: seq<nat>)
    requires forall i :: 0 <= i < |ids| ==> ids[i] < |k.buckets|
    ensures forall b :: 0 <= b < |k.buckets| && b !in ids ==> ExpireAll(k, ids).buckets[b] == k.buckets[b]
    ensures Extends(k.buckets, ExpireAll(k, ids).buckets)
  {
    if |ids| > 0 {
      var init, b := ids[..|ids| - 1], ids[|ids| - 1];
      assert ids == init + [b];
      ExpireAllFrame(k, init);
      ShiftOne(ExpireAll(k, init).buckets, Row(b, ExpireAll(k, init).buckets[b].available), Drain);
    }
  }

  // One round of the loop of `_expire_buckets`.
  lemma ExpireRound(k: Book, ids: seq<nat>, i: nat, a: Ref)
    requires i < |ids| && forall j :: 0 <= j < |ids| ==> ids[j] < |k.buckets| && k.buckets[ids[j]].account == a
    requires forall j, m :: 0 <= j < m < |ids| ==> ids[j] < ids[m]
    ensures
      var was, b := ExpireAll(k, ids[..i]), ids[i];
      var amount := k.buckets[b].available;
      && |was.buckets| == |k.buckets| && was.buckets[b].available == amount
      && ExpireAll(k, ids[..i + 1]) ==
        Post(was.(buckets := was.buckets[b := was.buckets[b].(available := 0)]), a, -amount, EXPIRE, ExpireKey(b),
          Some(b), [Row(b, amount)])
  {
    hide ExpireOne, Post;
    var was, b := ExpireAll(k, ids[..i]), ids[i];
    assert ids[..i + 1][..i] == ids[..i];
    assert b !in ids[..i];
    ExpireAllFrame(k, ids[..i]);
    ExpireOneShape(was, b);
    assert ExpireAll(k, ids[..i + 1]) == ExpireOne(was, b);
  }

  lemma ExpireOneShape(k: Book, b: nat)
    requires b < |k.buckets|
    ensures
      var x := k.buckets[b];
      ExpireOne(k, b) ==
        Post(k.(buckets := k.buckets[b := x.(available := 0)]), x.account, -x.available, EXPIRE, ExpireKey(b), Some(b),
          [Row(b, x.available)])
  {
    ShiftOne(k.buckets, Row(b, k.buckets[b].available), Drain);
    OneRow([Row(b, k.buckets[b].available)]);
    hide Balance, Used, Shift, Total;
  }

  // A loop drawing on buckets in turn has handled the first `i` of them.
  ghost predicate Drawn(bs: seq<Bucket>, order: seq<nat>, need: int, i: nat, f: Flow, now: seq<Bucket>,
      rows: seq<Row>) {
    && i <= |order| && (forall j :: 0 <= j < |order| ==> order[j] < |bs|)
    && rows == Greedy(bs, order[..i], need) && now == Shift(bs, rows, f)
  }

  lemma DrawStart(bs: seq<Bucket>, order: seq<nat>, need: int, f: Flow)
    requires forall j :: 0 <= j < |order| ==> order[j] < |bs|
    ensures Drawn(bs, order, need, 0, f, bs, []) && Total([]) == 0
  {
    assert order[..0] == [];
  }

  lemma DrawRound(bs: seq<Bucket>, order: seq<nat>, need: int, i: nat, f: Flow, now: seq<Bucket>, rows: seq<Row>)
    requires i < |order| && Distinct(order) && Drawn(bs, order, need, i, f, now, rows)
    ensures order[i] < |now|
    ensures
      var b := order[i];
      var amount := Min(now[b].available, need - Total(rows));
      if amount == 0 then Drawn(bs, order, need, i + 1, f, now, rows)
      else
        && Drawn(bs, order, need, i + 1, f, now[b := Ledger.Adjust(now[b], amount, f)], rows + [Row(b, amount)])
        && Total(rows + [Row(b, amount)]) == Total(rows) + amount
  {
    hide Total, Greedy, Shift, Mentions;
    var b := order[i];
    assert b !in order[..i];
    GreedyNext(bs, order, need, i);
    GreedyMentions(bs, order[..i], need, b);
    ShiftElsewhere(bs, rows, f, b);
    ShiftRow(bs, rows, Row(b, Min(bs[b].available, need - Total(rows))), f);
  }

  lemma DrawEnd(bs: seq<Bucket>, order: seq<nat>, need: int, i: nat, f: Flow, now: seq<Bucket>, rows: seq<Row>)
    requires Drawn(bs, order, need, i, f, now, rows) && Drawable(bs, order)
    requires i == |order| || Total(rows) == need
    ensures rows == Greedy(bs, order, need) && now == Shift(bs, rows, f)
  {
    hide Total, Greedy, Shift;
    if i == |order| { assert order[..i] == order; } else { GreedyDone(bs, order, need, i); }
  }

  // The loop of `capture` found the first `i` rows backed.
  ghost predicate Settled(bs: seq<Bucket>, rows: seq<Row>, i: nat, now: seq<Bucket>) {
    && i <= |rows| && now == Shift(bs, rows[..i], Settle)
    && forall j :: 0 <= j < i ==> SettlesAt(bs, rows, j)
  }

  ghost predicate SettlesAt(bs: seq<Bucket>, rows: seq<Row>, j: nat)
    requires j < |rows|
  {
    rows[j].bucket < |bs| && rows[j].amount <= Shift(bs, rows[..j], Settle)[rows[j].bucket].reserved
  }

  lemma SettleStart(bs: seq<Bucket>, rows: seq<Row>)
    ensures Settled(bs, rows, 0, bs)
  {
    assert rows[..0] == [];
  }

  lemma SettleRound(bs: seq<Bucket>, rows: seq<Row>, i: nat, now: seq<Bucket>)
    requires i < |rows| && Settled(bs, rows, i, now)
    ensures |now| == |bs|
    ensures
      var x := rows[i];
      if x.bucket >= |now| || now[x.bucket].reserved < x.amount then !CanSettle(bs, rows)
      else Settled(bs, rows, i + 1, now[x.bucket := now[x.bucket].(reserved := now[x.bucket].reserved - x.amount)])
  {
    ShiftAppend(bs, rows, i, Settle);
    hide Shift;
    assert CanSettle(bs, rows) ==> SettlesAt(bs, rows, i);
  }

  lemma SettleEnd(bs: seq<Bucket>, rows: seq<Row>, now: seq<Bucket>)
    requires Settled(bs, rows, |rows|, now)
    ensures CanSettle(bs, rows) && now == Shift(bs, rows, Settle)
  {
    hide Shift;
    assert rows[..|rows|] == rows;
    forall j | 0 <= j < |rows|
      ensures rows[j].bucket < |bs| && rows[j].amount <= Shift(bs, rows[..j], Settle)[rows[j].bucket].reserved
    {
      assert SettlesAt(bs, rows, j);
    }
  }

  // One round of the loop of `refund`.
  lemma RestoreRound(bs: seq<Bucket>, rows: seq<Row>, i: nat, now: Time)
    requires i < |rows|
    ensures
      var x, was := rows[i], Shift(bs, Split(bs, rows[..i], now, true), Restore);
      var live := Live(bs, x.bucket, now);
      && Extends(bs, was) && |was| == |bs|
      && Shift(bs, Split(bs, rows[..i + 1], now, true), Restore) ==
        (if live then was[x.bucket := was[x.bucket].(available := was[x.bucket].available + x.amount)] else was)
      && Total(Split(bs, rows[..i + 1], now, false)) == Total(Split(bs, rows[..i], now, false)) + if live then 0
        else x.amount
  {
    hide Shift, Split, Total;
    SplitAppend(bs, rows, i, now, true);
    SplitAppend(bs, rows, i, now, false);
    ShiftFrame(bs, Split(bs, rows[..i], now, true), Restore);
    ShiftRow(bs, Split(bs, rows[..i], now, true), rows[i], Restore);
    ShiftRow(bs, Split(bs, rows[..i], now, false), rows[i], Restore);
    assert Split(bs, rows[..i], now, true) + [] == Split(bs, rows[..i], now, true);
    assert Split(bs, rows[..i], now, false) + [] == Split(bs, rows[..i], now, false);
  }

  // The buckets an adjustment takes from can be drawn on, and pay what they offer.
  lemma CreationDraw(bs: seq<Bucket>, a: Ref, need: int)
    requires need >= 0
    ensures
      var order := CreationOrder(bs, a, |bs|);
      && Distinct(order) && Drawable(bs, order)
      && Total(Greedy(bs, order, need)) == Min(need, Offered(bs, order))
  {
    var order := CreationOrder(bs, a, |bs|);
    CreationOrderCorrect(bs, a, |bs|);
    forall i | 0 <= i < |order| ensures order[i] < |bs| && bs[order[i]].available > 0 {
      assert order[i] in order;
    }
    GreedyTotal(bs, order, need);
  }

  // Releasing reservations keeps every bucket's account.
  lemma {:induction false} ReleaseAllAccounts(k: Book, ids: seq<nat>, now: Time)
    ensures Extends(k.buckets, ReleaseAll(k, ids, now).buckets)
  {
    if |ids| > 0 {
      ReleaseAllAccounts(k, ids[..|ids| - 1], now);
      var was, id := ReleaseAll(k, ids[..|ids| - 1], now), ids[|ids| - 1];
      if id < |was.reservations| { ShiftFrame(was.buckets, was.reservations[id].rows, Return); }
    }
  }

  // Taking unspent credits back, as an update of the one bucket.
  lemma TakeRow(k: Book, b: nat, unspent: int, event: Ref)
    requires b < |k.buckets|
    ensures
      var x := k.buckets[b];
      TakeBack(k, b, unspent, event) ==
        if unspent == 0 then k.(buckets := k.buckets[b := x.(available := x.available - unspent)])
        else Post(k.(buckets := k.buckets[b := x.(available := x.available - unspent)]), x.account, -unspent, REVERSAL,
                  ReversalKey(event), Some(b), [Row(b, unspent)])
  {
    ShiftOne(k.buckets, Row(b, unspent), Drain);
    OneRow([Row(b, unspent)]);
    assert unspent == 0 ==> k.buckets[b := k.buckets[b].(available := k.buckets[b].available - unspent)] == k.buckets;
  }
}
