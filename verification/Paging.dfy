/** Keyset paging of an account's ledger, newest entry first. */
module Paging {
  import opened Prelude

  // The sort key of a ledger entry: its time, then its id.
  datatype Entry = Entry(at: Time, id: Ref)

  predicate Older(x: Entry, y: Entry) {
    x.at < y.at || (x.at == y.at && x.id < y.id)
  }

  ghost predicate Descending(es: seq<Entry>) {
    forall i, j :: 0 <= i < j < |es| ==> Older(es[j], es[i])
  }

  ghost predicate Lists(es: seq<Entry>, s: set<Entry>) {
    Descending(es) && forall e :: e in es <==> e in s
  }

  lemma {:induction false} Newest(s: set<Entry>) returns (m: Entry)
    requires s != {}
    ensures m in s && forall x :: x in s && x != m ==> Older(x, m)
  {
    var a :| a in s;
    if s == {a} {
      m := a;
    } else {
      var n := Newest(s - {a});
      m := if Older(n, a) then a else n;
      forall x | x in s && x != m ensures Older(x, m) {
        assert x == a || x == n || Older(x, n);
      }
    }
  }

  lemma HasNewest(s: set<Entry>)
    requires s != {}
    ensures exists m :: m in s && forall x :: x in s && x != m ==> Older(x, m)
  {
    var m := Newest(s);
  }

  // The query's result order.
  ghost function Listing(s: set<Entry>): (es: seq<Entry>)
    ensures Lists(es, s)
  {
    if s == {} then []
    else
      HasNewest(s);
      var m :| m in s && forall x :: x in s && x != m ==> Older(x, m);
      [m] + Listing(s - {m})
  }

  lemma {:induction false} ListingUnique(es: seq<Entry>, fs: seq<Entry>, s: set<Entry>)
    requires Lists(es, s) && Lists(fs, s)
    ensures es == fs
  {
    ListsSize(es, s);
    ListsSize(fs, s);
    if |es| > 0 {
      assert es[0] in s && fs[0] in s;
      assert es[0] == fs[0];
      Tail(es, s);
      Tail(fs, s);
      ListingUnique(es[1..], fs[1..], s - {es[0]});
      assert es == [es[0]] + es[1..] && fs == [fs[0]] + fs[1..];
    }
  }

  lemma {:induction false} ListsSize(es: seq<Entry>, s: set<Entry>)
    requires Lists(es, s)
    ensures |es| == |s|
  {
    if |es| == 0 {
      assert s == {};
    } else {
      Tail(es, s);
      ListsSize(es[1..], s - {es[0]});
    }
  }

  lemma Tail(es: seq<Entry>, s: set<Entry>)
    requires Lists(es, s) && |es| > 0
    ensures Lists(es[1..], s - {es[0]})
  {
    assert es == [es[0]] + es[1..];
    assert forall i :: 0 < i < |es| ==> es[i] != es[0];
  }

  // The entries the query selects.
  function Remaining(s: set<Entry>, cursor: Option<Entry>): set<Entry> {
    set e | e in s && (cursor.Some? ==> Older(e, cursor.value))
  }

  datatype Page = Page(entries: seq<Entry>, next: Option<Entry>)

  // One request: the query fetches one entry more than it shows.
  ghost function Fetch(s: set<Entry>, cursor: Option<Entry>, limit: nat): Page
    requires limit >= 1
  {
    var selected := Listing(Remaining(s, cursor));
    var fetched := selected[..Min(limit + 1, |selected|)];
    if |fetched| > limit then Page(fetched[..limit], Some(fetched[limit - 1])) else Page(fetched, None)
  }

  // What a page and its cursor mean: the page starts the listing, and the entries behind
  // the cursor are the rest of it.
  ghost predicate Splits(s: set<Entry>, cursor: Option<Entry>, limit: nat, page: Page) {
    if page.next.None? then page.entries == Listing(Remaining(s, cursor))
    else
      && |page.entries| == limit > 0
      && page.next.value == page.entries[|page.entries| - 1]
      && page.next.value in Remaining(s, cursor)
      && page.entries + Listing(Remaining(s, page.next)) == Listing(Remaining(s, cursor))
  }

  lemma RemainingShrinks(s: set<Entry>, cursor: Option<Entry>, last: Entry)
    requires last in Remaining(s, cursor)
    ensures (set e | e in Remaining(s, cursor) && Older(e, last)) == Remaining(s, Some(last))
  {}

  lemma FetchSplits(s: set<Entry>, cursor: Option<Entry>, limit: nat)
    requires limit >= 1
    ensures Splits(s, cursor, limit, Fetch(s, cursor, limit))
    ensures |Fetch(s, cursor, limit).entries| <= limit
  {
    hide Listing, Older, Descending;
    var page, all := Fetch(s, cursor, limit), Listing(Remaining(s, cursor));
    if page.next.Some? {
      var last, rest := page.next.value, all[limit..];
      assert page.entries == all[..limit] && last == all[limit - 1];
      assert all == all[..limit] + rest;
      RestLists(all, Remaining(s, cursor), limit);
      RemainingShrinks(s, cursor, last);
      ListingUnique(rest, Listing(Remaining(s, page.next)), Remaining(s, page.next));
      assert last in all;
    }
  }

  lemma RestLists(all: seq<Entry>, s: set<Entry>, n: nat)
    requires Lists(all, s) && 1 <= n <= |all|
    ensures Lists(all[n..], set e | e in s && Older(e, all[n - 1]))
  {
    forall e ensures e in all[n..] <==> e in s && Older(e, all[n - 1]) {
      if e in s && Older(e, all[n - 1]) {
        var i :| 0 <= i < |all| && all[i] == e;
        assert i >= n;
        assert all[n..][i - n] == e;
      }
    }
  }

  ghost function All(arrivals: seq<set<Entry>>): set<Entry> {
    if |arrivals| == 0 then {} else arrivals[0] + All(arrivals[1..])
  }

  ghost function First(arrivals: seq<set<Entry>>): set<Entry> {
    if |arrivals| == 0 then {} else arrivals[0]
  }

  ghost function Later(arrivals: seq<set<Entry>>): seq<set<Entry>> {
    if |arrivals| == 0 then [] else arrivals[1..]
  }

  // Everything shown by following `next` to the end; `arrivals[k]` are the entries
  // written between pages k and k + 1.
  ghost function Follow(s: set<Entry>, cursor: Option<Entry>, limit: nat, arrivals: seq<set<Entry>>): seq<Entry>
    requires limit >= 1
    decreases |Remaining(s + All(arrivals), cursor)|
  {
    var page := Fetch(s, cursor, limit);
    if page.next.None? then page.entries
    else
      Shrinks(s, cursor, limit, arrivals);
      page.entries + Follow(s + First(arrivals), page.next, limit, Later(arrivals))
  }

  // Following the cursor terminates whatever arrives.
  lemma Shrinks(s: set<Entry>, cursor: Option<Entry>, limit: nat, arrivals: seq<set<Entry>>)
    requires limit >= 1 && Fetch(s, cursor, limit).next.Some?
    ensures
      var next := Fetch(s, cursor, limit).next;
      |Remaining(s + First(arrivals) + All(Later(arrivals)), next)| < |Remaining(s + All(arrivals), cursor)|
  {
    hide Fetch, Listing;
    FetchSplits(s, cursor, limit);
    var next := Fetch(s, cursor, limit).next;
    var before, after := Remaining(s + All(arrivals), cursor),
      Remaining(s + First(arrivals) + All(Later(arrivals)), next);
    assert s + First(arrivals) + All(Later(arrivals)) == s + All(arrivals);
    assert next.value in before && next.value !in after && after <= before;
    assert before == after + (before - after);
  }

  // Whatever is written meanwhile, no entry is shown twice or out of order.
  lemma {:induction false} FollowDescending(s: set<Entry>, cursor: Option<Entry>, limit: nat, arrivals: seq<set<Entry>>)
    requires limit >= 1
    ensures Descending(Follow(s, cursor, limit, arrivals))
    ensures forall e :: e in Follow(s, cursor, limit, arrivals) ==> e in Remaining(s + All(arrivals), cursor)
    decreases |Remaining(s + All(arrivals), cursor)|
  {
    hide Fetch, Listing;
    FetchSplits(s, cursor, limit);
    var page := Fetch(s, cursor, limit);
    if page.next.Some? {
      Shrinks(s, cursor, limit, arrivals);
      var s2 := s + First(arrivals);
      var rest := Follow(s2, page.next, limit, Later(arrivals));
      FollowDescending(s2, page.next, limit, Later(arrivals));
      assert s2 + All(Later(arrivals)) == s + All(arrivals);
      AppendDescending(page.entries, Listing(Remaining(s, page.next)), rest);
      assert forall e :: e in page.entries ==> e in Listing(Remaining(s, cursor));
    }
  }

  lemma AppendDescending(es: seq<Entry>, tail: seq<Entry>, rest: seq<Entry>)
    requires Descending(es + tail) && Descending(rest) && |es| > 0
    requires forall e :: e in rest ==> Older(e, es[|es| - 1])
    ensures Descending(es + rest)
  {
    assert forall i :: 0 <= i < |es| ==> (es + tail)[i] == es[i];
    assert forall i :: 0 <= i < |rest| ==> rest[i] in rest;
  }

  // No entry present at the start is skipped.
  lemma {:induction false} FollowComplete(s: set<Entry>, cursor: Option<Entry>, limit: nat, arrivals: seq<set<Entry>>)
    requires limit >= 1
    ensures forall e :: e in Remaining(s, cursor) ==> e in Follow(s, cursor, limit, arrivals)
    decreases |Remaining(s + All(arrivals), cursor)|
  {
    hide Fetch, Listing;
    FetchSplits(s, cursor, limit);
    var page := Fetch(s, cursor, limit);
    if page.next.Some? {
      Shrinks(s, cursor, limit, arrivals);
      FollowComplete(s + First(arrivals), page.next, limit, Later(arrivals));
      assert Remaining(s, page.next) <= Remaining(s + First(arrivals), page.next);
      forall e | e in Remaining(s, cursor) && e !in page.entries ensures e in Remaining(s, page.next) {
        assert e in page.entries + Listing(Remaining(s, page.next));
      }
    }
  }

  // Nothing that arrives while the listing is read sorts behind the cursor then in use.
  ghost predicate Undisturbed(s: set<Entry>, cursor: Option<Entry>, limit: nat, arrivals: seq<set<Entry>>)
    requires limit >= 1
    decreases |Remaining(s + All(arrivals), cursor)|
  {
    var page := Fetch(s, cursor, limit);
    if page.next.None? then true
    else
      Shrinks(s, cursor, limit, arrivals);
      && AheadOf(First(arrivals) - s, page.next.value)
      && Undisturbed(s + First(arrivals), page.next, limit, Later(arrivals))
  }

  ghost predicate AheadOf(arrived: set<Entry>, cursor: Entry) {
    forall e :: e in arrived ==> !Older(e, cursor)
  }

  // The pages concatenate to exactly the listing as it was when the first page was read
  // if and only if nothing arrives behind the cursor.
  lemma {:induction false} FollowExact(s: set<Entry>, cursor: Option<Entry>, limit: nat, arrivals: seq<set<Entry>>)
    requires limit >= 1
    ensures Follow(s, cursor, limit, arrivals) == Listing(Remaining(s, cursor)) <==>
      Undisturbed(s, cursor, limit, arrivals)
    decreases |Remaining(s + All(arrivals), cursor)|
  {
    hide Fetch, Listing;
    FetchSplits(s, cursor, limit);
    var page := Fetch(s, cursor, limit);
    if page.next.Some? {
      Shrinks(s, cursor, limit, arrivals);
      var s2, rest := s + First(arrivals), Follow(s + First(arrivals), page.next, limit, Later(arrivals));
      FollowExact(s2, page.next, limit, Later(arrivals));
      SamePrefix(page.entries, rest, Listing(Remaining(s, page.next)));
      if AheadOf(First(arrivals) - s, page.next.value) {
        assert Remaining(s2, page.next) == Remaining(s, page.next);
      } else {
        var e :| e in First(arrivals) - s && Older(e, page.next.value);
        FollowComplete(s2, page.next, limit, Later(arrivals));
        assert e in Remaining(s2, page.next);
        assert e !in Remaining(s, page.next);
      }
    }
  }

  lemma SamePrefix(es: seq<Entry>, x: seq<Entry>, y: seq<Entry>)
    ensures es + x == es + y <==> x == y
  {
    assert (es + x)[|es|..] == x && (es + y)[|es|..] == y;
  }

  lemma {:induction false} NewerUndisturbed(
      s: set<Entry>, cursor: Option<Entry>, limit: nat, arrivals: seq<set<Entry>>, s0: set<Entry>)
    requires limit >= 1 && forall e, x :: e in All(arrivals) && x in s0 ==> Older(x, e)
    requires Remaining(s, cursor) <= s0
    ensures Undisturbed(s, cursor, limit, arrivals)
    decreases |Remaining(s + All(arrivals), cursor)|
  {
    hide Fetch, Listing;
    FetchSplits(s, cursor, limit);
    var page := Fetch(s, cursor, limit);
    if page.next.Some? {
      Shrinks(s, cursor, limit, arrivals);
      assert page.next.value in s0;
      assert First(arrivals) <= All(arrivals) && All(Later(arrivals)) <= All(arrivals);
      NewerUndisturbed(s + First(arrivals), page.next, limit, Later(arrivals), s0);
    }
  }

  // The whole ledger, page by page, while strictly newer entries are written.
  lemma WholeLedger(s: set<Entry>, limit: nat, arrivals: seq<set<Entry>>)
    requires limit >= 1 && forall e, x :: e in All(arrivals) && x in s ==> Older(x, e)
    ensures Follow(s, None, limit, arrivals) == Listing(s)
  {
    NewerUndisturbed(s, None, limit, arrivals, s);
    FollowExact(s, None, limit, arrivals);
    assert Remaining(s, None) == s;
  }
}
