/** A short run on which the ledger no longer explains the balance. */
module Witness {
  import opened Prelude
  import opened Ledger
  import opened LedgerInvariants
  import opened CreditOps
  import opened CreditLaws
  import opened Billing

  const TRIAL := Bucket(0, TrialBucket, TrialSource(1, 0), 10, 6, 4, Some(100))
  const HELD := Reservation(0, Reference(1, 1), 4, Status.Reserved, [Row(0, 4)], RESERVATION_TTL, None, None, None)
  const GRANTED := Item(Entry(0, Some(0), 10, GRANT, 10, TrialKey(1, 0)), true, [])
  const SWEPT := Item(Entry(0, Some(0), -6, EXPIRE, 4, ExpireKey(0)), true, [Row(0, 6)])
  const DROPPED := Item(Entry(0, Some(0), -4, EXPIRE, 0, ExpireKey(0)), false, [Row(0, 4)])

  // Grant ten trial credits and hold four of them, let the trial expire and be swept,
  // release the hold, sweep again.
  const RESERVE := Timed(0, ReserveOp(0, true, Some(Policy(1, 1, true, 10, 100)), Price(4, 0), 0, Reference(1, 1),
    None))
  const SWEEP := Timed(200, ViewOp(0, false, None))
  const RELEASE := Timed(0, ReleaseOp(Some(0)))
  const SWEEP_AGAIN := Timed(0, ViewOp(0, false, None))

  function Start(): State {
    Init(0, {0}, map[])
  }

  const FULL := TRIAL.(available := 10, reserved := 0)
  const OPENED := Start().(accounts := map[0 := Account(Active, 0)], trials := {(0, 1)},
    book := Book([FULL], [], [GRANTED]))

  lemma AfterTrial()
    ensures EnsureTrial(Start(), 0, true, Some(Policy(1, 1, true, 10, 100))) == Ok(OPENED)
  {
    assert Balance([FULL], 0) == 10;
    assert [] + [FULL] == [FULL] && [] + [GRANTED] == [GRANTED];
    assert AddGrant(EMPTY_BOOK, FULL, GRANT, TrialKey(1, 0)) == Book([FULL], [], [GRANTED]);
    assert {} + {(0, 1)} == {(0, 1)};
  }

  lemma Drawing()
    ensures ReserveBook(OPENED.book, 0, 4, Reference(1, 1), RESERVATION_TTL, 0) == Ok(Book([TRIAL], [HELD], [GRANTED]))
  {
    var bs := [FULL];
    assert ExpiredIds(bs, 0, 0, 1) == [];
    assert ReserveOrder(bs, 0, 1) == [0];
    assert Offered(bs, [0]) == 10;
    assert Greedy(bs, [0], 4) == [Row(0, 4)];
    ShiftOne(bs, Row(0, 4), Hold);
    hide Shift, Greedy, ReserveOrder, Offered, ExpiredIds;
    assert bs[0 := TRIAL] == [TRIAL];
    assert [] + [HELD] == [HELD];
  }

  lemma AfterReserve()
    ensures Step(Start(), 0, RESERVE.op) == OPENED.(book := Book([TRIAL], [HELD], [GRANTED]))
  {
    AfterTrial();
    Drawing();
    hide EnsureTrial, ReserveBook;
  }

  lemma SweepOne(b: Bucket, rs: seq<Reservation>, j: seq<Item>, item: Item)
    requires b.account == 0
    requires item == Item(Entry(0, Some(0), -b.available, EXPIRE, b.reserved, ExpireKey(0)), !Used(j, 0, ExpireKey(0)),
      [Row(0, b.available)])
    ensures ExpireOne(Book([b], rs, j), 0) == Book([b.(available := 0)], rs, j + [item])
  {
    var rows := [Row(0, b.available)];
    ShiftOne([b], rows[0], Drain);
    OneRow(rows);
    assert [b][0 := b.(available := 0)] == [b.(available := 0)];
    assert Balance([b.(available := 0)], 0) == b.reserved;
    hide Shift, Total, Alloc, Balance, Used;
  }

  lemma Sweeping(b: Bucket, rs: seq<Reservation>, j: seq<Item>, item: Item)
    requires b.account == 0 && b.available > 0 && b.expires == Some(100)
    requires item == Item(Entry(0, Some(0), -b.available, EXPIRE, b.reserved, ExpireKey(0)), !Used(j, 0, ExpireKey(0)),
      [Row(0, b.available)])
    ensures ExpireBuckets(Book([b], rs, j), 0, 200) == Book([b.(available := 0)], rs, j + [item])
  {
    SweepOne(b, rs, j, item);
    var k := Book([b], rs, j);
    SingleSweep(k, 0);
    SingleExpired(b);
    hide ExpireOne, ExpiredIds, ExpireAll, Used;
  }

  lemma SingleSweep(k: Book, b: nat)
    requires b < |k.buckets|
    ensures ExpireAll(k, [b]) == ExpireOne(k, b)
  {
    assert [b][..0] == [];
  }

  lemma SingleExpired(b: Bucket)
    requires b.account == 0 && b.available > 0 && b.expires == Some(100)
    ensures ExpiredIds([b], 0, 200, 1) == [0]
  {}

  const EXPIRED := TRIAL.(available := 0)
  const REFILLED := TRIAL.(available := 4, reserved := 0)
  const FREE := HELD.(status := Released, releasedAt := Some(200))

  // A sweep of account 0 by `credit_account`.
  lemma AfterSweep(s: State, wait: nat, b: Bucket, item: Item)
    requires 0 in s.accounts && |s.book.buckets| == 1 && s.book.buckets[0] == b && s.clock + wait == 200
    requires b.account == 0 && b.available > 0 && b.expires == Some(100)
    requires item == Item(Entry(0, Some(0), -b.available, EXPIRE, b.reserved, ExpireKey(0)),
      !Used(s.book.journal, 0, ExpireKey(0)), [Row(0, b.available)])
    ensures Step(s, wait, ViewOp(0, false, None)) ==
      s.(clock := 200, book := Book([b.(available := 0)], s.book.reservations, s.book.journal + [item]))
  {
    assert s.book == Book([b], s.book.reservations, s.book.journal);
    Sweeping(b, s.book.reservations, s.book.journal, item);
    hide ExpireBuckets, Used;
  }

  lemma AfterRelease(s: State)
    requires s.clock == 200 && s.book == Book([EXPIRED], [HELD], [GRANTED, SWEPT])
    ensures Step(s, 0, RELEASE.op) == s.(book := Book([REFILLED], [FREE], [GRANTED, SWEPT]))
  {
    Releasing();
    hide ReleaseBook;
  }

  lemma Releasing()
    ensures ReleaseBook(Book([EXPIRED], [HELD], [GRANTED, SWEPT]), Some(0), 200) ==
      Book([REFILLED], [FREE], [GRANTED, SWEPT])
  {
    Returned();
    assert [HELD][0 := FREE] == [FREE];
    hide Shift;
  }

  lemma Returned()
    ensures Shift([EXPIRED], HELD.rows, Return) == [REFILLED]
  {
    hide Shift;
    ShiftOne([EXPIRED], Row(0, 4), Return);
    assert [EXPIRED][0 := REFILLED] == [REFILLED];
  }

  lemma JournalSums(j: seq<Item>)
    requires j == [GRANTED, SWEPT, DROPPED]
    ensures LedgerSum(j, 0) == 4 && Unjournaled(j, 0) == 4
  {
    SumsAppend([], GRANTED);
    SumsAppend([GRANTED], SWEPT);
    SumsAppend([GRANTED, SWEPT], DROPPED);
    assert [] + [GRANTED] == [GRANTED] && [GRANTED] + [SWEPT] == [GRANTED, SWEPT] && [GRANTED, SWEPT] + [DROPPED] == j;
  }

  lemma SumsAppend(j: seq<Item>, x: Item)
    ensures LedgerSum(j + [x], 0) == LedgerSum(j, 0) + if x.posted && x.entry.account == 0 then x.entry.amount else 0
    ensures Unjournaled(j + [x], 0) == Unjournaled(j, 0) + if !x.posted
      && x.entry.account == 0 then -x.entry.amount else 0
  {
    assert (j + [x])[..|j|] == j;
  }

  // After this run the ledger sums to 4 and the balance is 0: four credits left without an entry.
  lemma UnjournaledRun()
    ensures
      var k := Run(Start(), [RESERVE, SWEEP, RELEASE, SWEEP_AGAIN]).book;
      LedgerSum(k.journal, 0) == 4 && Balance(k.buckets, 0) == 0 && Unjournaled(k.journal, 0) == 4
  {
    AfterReserve();
    hide Step;
    var s1 := Step(Start(), 0, RESERVE.op);
    AfterSweep(s1, 200, TRIAL, SWEPT);
    var s2 := Step(s1, 200, SWEEP.op);
    assert s2.book == Book([EXPIRED], [HELD], [GRANTED, SWEPT]);
    AfterRelease(s2);
    var s3 := Step(s2, 0, RELEASE.op);
    assert s3.book.journal[1] == SWEPT;
    AfterSweep(s3, 0, REFILLED, DROPPED);
    var s4 := Step(s3, 0, SWEEP_AGAIN.op);
    Unfold(s1, s2, s3, s4);
    JournalSums(s4.book.journal);
  }

  lemma Unfold(s1: State, s2: State, s3: State, s4: State)
    requires s1 == Step(Start(), 0, RESERVE.op) && s2 == Step(s1, 200, SWEEP.op)
    requires s3 == Step(s2, 0, RELEASE.op) && s4 == Step(s3, 0, SWEEP_AGAIN.op)
    ensures Run(Start(), [RESERVE, SWEEP, RELEASE, SWEEP_AGAIN]) == s4
  {
    hide Step;
    var ops := [RESERVE, SWEEP, RELEASE, SWEEP_AGAIN];
    assert ops[..3][..2] == ops[..2] && ops[..2][..1] == ops[..1] && ops[..1][..0] == [];
    assert Run(Start(), ops[..1]) == s1;
    assert Run(Start(), ops[..2]) == s2;
    assert Run(Start(), ops[..3]) == s3;
  }
}
