/** The catalog scheduler: published catalogs form a chain of half-open intervals.

One market and currency; a row's id is its index.
*/
module Catalog {
  import opened Prelude

  datatype CatalogStatus = Draft | Published
  datatype CatalogRow = CatalogRow(status: CatalogStatus, from: Option<Time>, to: Option<Time>)

  predicate Live(c: CatalogRow) {
    c.status == Published && c.from.Some?
  }

  // ---- The scheduler and the lookup ----

  // Index of the published catalog with the greatest start before `e`.
  function Predecessor(cs: seq<CatalogRow>, e: Time): (p: Option<nat>)
    ensures p.Some? ==> p.value < |cs| && Live(cs[p.value]) && cs[p.value].from.value < e
    ensures forall i :: 0 <= i < |cs| && Live(cs[i]) && cs[i].from.value < e ==>
      p.Some? && cs[i].from.value <= cs[p.value].from.value
  {
    if |cs| == 0 then None
    else
      var n := |cs| - 1;
      var p := Predecessor(cs[..n], e);
      assert forall i :: 0 <= i < n ==> cs[..n][i] == cs[i];
      if Live(cs[n]) && cs[n].from.value < e && (p.None? || cs[n].from.value > cs[p.value].from.value) then Some(n)
        else p
  }

  // Index of the published catalog with the least start after `e`.
  function Successor(cs: seq<CatalogRow>, e: Time): (p: Option<nat>)
    ensures p.Some? ==> p.value < |cs| && Live(cs[p.value]) && cs[p.value].from.value > e
    ensures forall i :: 0 <= i < |cs| && Live(cs[i]) && cs[i].from.value > e ==>
      p.Some? && cs[p.value].from.value <= cs[i].from.value
  {
    if |cs| == 0 then None
    else
      var n := |cs| - 1;
      var p := Successor(cs[..n], e);
      assert forall i :: 0 <= i < n ==> cs[..n][i] == cs[i];
      if Live(cs[n]) && cs[n].from.value > e && (p.None? || cs[n].from.value < cs[p.value].from.value) then Some(n)
        else p
  }

  predicate StartsAt(cs: seq<CatalogRow>, e: Time) {
    exists i :: 0 <= i < |cs| && Live(cs[i]) && cs[i].from.value == e
  }

  // `activate_catalog`: publish draft `id` from time `e` on.
  function Activate(cs: seq<CatalogRow>, id: nat, e: Time): Result<seq<CatalogRow>> {
    if id >= |cs| then Err(CatalogNotFound)
    else if cs[id].status != Draft then Err(CatalogImmutable)
    else if StartsAt(cs, e) then Err(EffectiveTimeConflict)
    else
      var p, q := Predecessor(cs, e), Successor(cs, e);
      var closed :=
        if p.Some? && (cs[p.value].to.None? || cs[p.value].to.value > e) then cs[p.value := cs[p.value].(to := Some(e))]
          else cs;
      Ok(closed[id := CatalogRow(Published, Some(e), if q.Some? then cs[q.value].from else None)])
  }

  predicate Covers(c: CatalogRow, t: Time) {
    Live(c) && c.from.value <= t && (c.to.None? || c.to.value > t)
  }

  // `active_catalog`: of the catalogs covering `t`, the one with the latest start.
  function ActiveAt(cs: seq<CatalogRow>, t: Time): Option<nat> {
    if |cs| == 0 then None
    else
      var n := |cs| - 1;
      var p := ActiveAt(cs[..n], t);
      if !Covers(cs[n], t) then p
      else if p.None? || p.value >= n || cs[p.value].from.None? || cs[n].from.value > cs[p.value].from.value
      then Some(n)
      else p
  }

  // ---- The chain ----

  function Starts(cs: seq<CatalogRow>): set<Time> {
    set i | 0 <= i < |cs| && Live(cs[i]) :: cs[i].from.value
  }

  // `to` is the first start after `t`, or open when there is none.
  ghost predicate IsNext(starts: set<Time>, t: Time, to: Option<Time>) {
    match to
    case None => forall s :: s in starts ==> s <= t
    case Some(v) => v in starts && t < v && forall s :: s in starts ==> s <= t || v <= s
  }

  // Each published interval ends where the next begins, and only the last is open.
  ghost predicate Chain(cs: seq<CatalogRow>) {
    && (forall i :: 0 <= i < |cs| && cs[i].status == Published ==> cs[i].from.Some?)
    && (forall i :: 0 <= i < |cs| && Live(cs[i]) ==> IsNext(Starts(cs), cs[i].from.value, cs[i].to))
    && (forall i, j :: 0 <= i < j < |cs| && Live(cs[i]) && Live(cs[j]) ==> cs[i].from != cs[j].from)
  }

  lemma ActivateStarts(cs: seq<CatalogRow>, id: nat, e: Time)
    requires Activate(cs, id, e).Ok?
    ensures Starts(Activate(cs, id, e).value) == Starts(cs) + {e}
  {
    var ds := Activate(cs, id, e).value;
    forall s | s in Starts(cs) + {e} ensures s in Starts(ds) {
      if s == e {
        assert Live(ds[id]) && ds[id].from.value == e;
      } else {
        var i :| 0 <= i < |cs| && Live(cs[i]) && cs[i].from.value == s;
        assert Live(ds[i]) && ds[i].from.value == s;
      }
    }
  }

  // What activation changes in row `i`.
  lemma ActivateRow(cs: seq<CatalogRow>, id: nat, e: Time, i: nat)
    requires Chain(cs) && Activate(cs, id, e).Ok? && i < |cs|
    ensures var row, ds := cs[i], Activate(cs, id, e).value;
      && |ds| == |cs| && (i != id ==> ds[i].status == row.status && ds[i].from == row.from)
      && (i != id && Live(row) ==> IsNext(Starts(cs) + {e}, row.from.value, ds[i].to))
  {
    hide Predecessor, Successor;
    var p := Predecessor(cs, e);
    assert e !in Starts(cs) by { assert !StartsAt(cs, e); }
    if i != id && Live(cs[i]) {
      assert cs[i].from.value in Starts(cs);
      assert IsNext(Starts(cs), cs[i].from.value, cs[i].to);
      if p.Some? {
        assert cs[p.value].from.value in Starts(cs);
        assert p.value != i ==> cs[p.value].from != cs[i].from;
      }
    }
  }

  lemma NextAfterInsert(cs: seq<CatalogRow>, e: Time)
    ensures var q := Successor(cs, e);
      IsNext(Starts(cs) + {e}, e, if q.Some? then cs[q.value].from else None)
  {
    hide Successor;
    var q := Successor(cs, e);
    if q.Some? { assert cs[q.value].from.value in Starts(cs); }
  }

  // Activation keeps the chain, wherever in the schedule it inserts.
  lemma ActivateKeepsChain(cs: seq<CatalogRow>, id: nat, e: Time)
    requires Chain(cs) && Activate(cs, id, e).Ok?
    ensures Chain(Activate(cs, id, e).value)
  {
    hide Predecessor, Successor;
    var ds := Activate(cs, id, e).value;
    ActivateStarts(cs, id, e);
    NextAfterInsert(cs, e);
    assert !StartsAt(cs, e);
    forall i | 0 <= i < |ds|
      ensures ds[i].status == Published ==> ds[i].from.Some?
      ensures Live(ds[i]) ==> IsNext(Starts(ds), ds[i].from.value, ds[i].to)
      ensures i != id ==> ds[i].status == cs[i].status && ds[i].from == cs[i].from
    {
      ActivateRow(cs, id, e, i);
    }
    hide Activate, IsNext, Starts;
  }

  // ---- Lookup by time ----

  lemma {:induction false} ActiveAtCorrect(cs: seq<CatalogRow>, t: Time)
    ensures var r := ActiveAt(cs, t);
      && (r.Some? ==> r.value < |cs| && Covers(cs[r.value], t))
      && (forall i :: 0 <= i < |cs| && Covers(cs[i], t) ==> r.Some? && cs[i].from.value <= cs[r.value].from.value)
  {
    if |cs| > 0 {
      ActiveAtCorrect(cs[..|cs| - 1], t);
      assert forall i :: 0 <= i < |cs| - 1 ==> cs[..|cs| - 1][i] == cs[i];
    }
  }

  // The latest start not after `t` is still in force at `t`.
  lemma LatestCovers(cs: seq<CatalogRow>, t: Time, i: nat)
    requires Chain(cs) && Predecessor(cs, t + 1) == Some(i)
    ensures Covers(cs[i], t)
  {
    hide Predecessor;
    assert IsNext(Starts(cs), cs[i].from.value, cs[i].to);
    if cs[i].to.Some? {
      var k :| 0 <= k < |cs| && Live(cs[k]) && cs[k].from.value == cs[i].to.value;
    }
  }

  // On a chain the catalog in force at `t` is the one with the greatest start not after
  // `t`, and there is one exactly when some start is not after `t`.
  lemma ActiveIsLatest(cs: seq<CatalogRow>, t: Time)
    requires Chain(cs)
    ensures ActiveAt(cs, t) == Predecessor(cs, t + 1)
  {
    ActiveAtCorrect(cs, t);
    hide ActiveAt, Predecessor;
    var p, r := Predecessor(cs, t + 1), ActiveAt(cs, t);
    if p.Some? {
      LatestCovers(cs, t, p.value);
      assert cs[r.value].from == cs[p.value].from;
    }
  }

  // Activating at `e` changes the catalog in force only from `e` until the next start.
  lemma ActivateLocal(cs: seq<CatalogRow>, id: nat, e: Time, t: Time)
    requires Chain(cs) && Activate(cs, id, e).Ok?
    ensures var ds, q := Activate(cs, id, e).value, Successor(cs, e);
      if e <= t && (q.None? || t < cs[q.value].from.value) then ActiveAt(ds, t) == Some(id)
      else ActiveAt(ds, t) == ActiveAt(cs, t)
  {
    hide Predecessor, Successor, ActiveAt, IsNext, Starts;
    var ds := Activate(cs, id, e).value;
    ActivateKeepsChain(cs, id, e);
    ActiveIsLatest(cs, t);
    ActiveIsLatest(ds, t);
    forall i | 0 <= i < |cs| && i != id ensures ds[i].from == cs[i].from && ds[i].status == cs[i].status {
      ActivateRow(cs, id, e, i);
    }
    assert Live(ds[id]) && ds[id].from == Some(e) && !Live(cs[id]);
    hide Activate;
    LatestAfterInsert(cs, ds, id, e, t);
  }

  lemma LatestAfterInsert(cs: seq<CatalogRow>, ds: seq<CatalogRow>, id: nat, e: Time, t: Time)
    requires Chain(ds) && |ds| == |cs| && id < |cs| && !Live(cs[id]) && Live(ds[id]) && ds[id].from == Some(e)
    requires forall i :: 0 <= i < |cs| && i != id ==> ds[i].from == cs[i].from && ds[i].status == cs[i].status
    ensures var q := Successor(cs, e);
      if e <= t && (q.None? || t < cs[q.value].from.value) then Predecessor(ds, t + 1) == Some(id)
      else Predecessor(ds, t + 1) == Predecessor(cs, t + 1)
  {
    hide Predecessor, Successor, IsNext, Starts;
    var q, a, b := Successor(cs, e), Predecessor(cs, t + 1), Predecessor(ds, t + 1);
    assert forall i :: 0 <= i < |cs| && i != id ==> Live(ds[i]) == Live(cs[i]);
    assert e <= t ==> b.Some?;
    if e <= t && q.Some? && t >= cs[q.value].from.value { assert Live(ds[q.value]); }
    if a.Some? { assert Live(ds[a.value]) && b.Some?; }
  }

  // ---- Order independence ----

  lemma NextUnique(starts: set<Time>, t: Time, to: Option<Time>, other: Option<Time>)
    requires IsNext(starts, t, to) && IsNext(starts, t, other)
    ensures to == other
  {}

  lemma SameStarts(cs: seq<CatalogRow>, ds: seq<CatalogRow>)
    requires |cs| == |ds| && forall i :: 0 <= i < |cs| ==> cs[i].status == ds[i].status && cs[i].from == ds[i].from
    ensures Starts(cs) == Starts(ds)
  {}

  // A chain is determined by which catalogs are published from when.
  lemma ChainUnique(cs: seq<CatalogRow>, ds: seq<CatalogRow>)
    requires Chain(cs) && Chain(ds) && |cs| == |ds|
    requires forall i :: 0 <= i < |cs| ==> cs[i].status == ds[i].status && cs[i].from == ds[i].from
    requires forall i :: 0 <= i < |cs| && cs[i].status == Draft ==> cs[i] == ds[i]
    ensures cs == ds
  {
    SameStarts(cs, ds);
    hide IsNext, Starts;
    forall i | 0 <= i < |cs| ensures cs[i] == ds[i] {
      if cs[i].status == Published {
        NextUnique(Starts(cs), cs[i].from.value, cs[i].to, ds[i].to);
      }
    }
  }

  datatype Activation = Activation(id: nat, at: Time)

  function ActivateAll(cs: seq<CatalogRow>, acts: seq<Activation>): Result<seq<CatalogRow>> {
    if |acts| == 0 then Ok(cs)
    else
      var last := acts[|acts| - 1];
      var ds :- ActivateAll(cs, acts[..|acts| - 1]);
      Activate(ds, last.id, last.at)
  }

  // What has to hold of a set of activations, whatever their order.
  ghost predicate Compatible(cs: seq<CatalogRow>, acts: seq<Activation>) {
    && (forall k :: 0 <= k < |acts| ==>
      acts[k].id < |cs| && cs[acts[k].id].status == Draft && acts[k].at !in Starts(cs))
    && (forall k, m :: 0 <= k < m < |acts| ==> acts[k].id != acts[m].id && acts[k].at != acts[m].at)
  }

  // `ds` is `cs` with exactly these activations carried out.
  ghost predicate CarriedOut(cs: seq<CatalogRow>, acts: seq<Activation>, ds: seq<CatalogRow>) {
    && Chain(ds) && |ds| == |cs|
    && (forall k :: 0 <= k < |acts| ==>
      acts[k].id < |ds| && ds[acts[k].id].status == Published && ds[acts[k].id].from == Some(acts[k].at))
    && (forall i :: 0 <= i < |cs| && (forall k :: 0 <= k < |acts| ==> acts[k].id != i) ==>
      ds[i].status == cs[i].status && ds[i].from == cs[i].from && (cs[i].status == Draft ==> ds[i] == cs[i]))
    && (forall t :: t in Starts(ds) <==> t in Starts(cs) || exists k :: 0 <= k < |acts| && acts[k].at == t)
  }

  lemma CarryOneMore(cs: seq<CatalogRow>, acts: seq<Activation>, ds: seq<CatalogRow>, last: Activation)
    requires CarriedOut(cs, acts, ds) && Activate(ds, last.id, last.at).Ok?
    ensures CarriedOut(cs, acts + [last], Activate(ds, last.id, last.at).value)
  {
    hide Predecessor, Successor, IsNext;
    var es, more := Activate(ds, last.id, last.at).value, acts + [last];
    ActivateKeepsChain(ds, last.id, last.at);
    ActivateStarts(ds, last.id, last.at);
    hide Starts;
    forall i | 0 <= i < |ds| && i != last.id
      ensures es[i].from == ds[i].from && es[i].status == ds[i].status && (ds[i].status == Draft ==> es[i] == ds[i])
    {
      ActivateRow(ds, last.id, last.at, i);
    }
    hide Chain;
    forall i | 0 <= i < |cs| && (forall k :: 0 <= k < |more| ==> more[k].id != i)
      ensures es[i].status == cs[i].status && es[i].from == cs[i].from && (cs[i].status == Draft ==> es[i] == cs[i])
    {
      assert more[|acts|].id != i;
      forall k | 0 <= k < |acts| ensures acts[k].id != i { assert more[k].id != i; }
    }
    forall t ensures t in Starts(es) <==> t in Starts(cs) || exists k :: 0 <= k < |more| && more[k].at == t {
      if k :| 0 <= k < |acts| && acts[k].at == t { assert more[k].at == t; }
      if t == last.at { assert more[|acts|].at == t; }
    }
  }

  // A sequence of activations succeeds exactly when they are compatible, and then
  // publishes exactly its catalogs at their times, keeping the chain.
  lemma {:induction false} ActivateAllCorrect(cs: seq<CatalogRow>, acts: seq<Activation>)
    requires Chain(cs)
    ensures ActivateAll(cs, acts).Ok? <==> Compatible(cs, acts)
    ensures ActivateAll(cs, acts).Ok? ==> CarriedOut(cs, acts, ActivateAll(cs, acts).value)
  {
    if |acts| > 0 {
      var n := |acts| - 1;
      var init, last := acts[..n], acts[n];
      assert acts == init + [last];
      ActivateAllCorrect(cs, init);
      if ActivateAll(cs, init).Ok? {
        var ds := ActivateAll(cs, init).value;
        LastCompatible(cs, init, ds, last);
        if Activate(ds, last.id, last.at).Ok? { CarryOneMore(cs, init, ds, last); }
        hide Activate, CarriedOut, Chain, Starts;
        assert Compatible(cs, acts) <==> Activate(ds, last.id, last.at).Ok?;
      } else {
        hide Activate, CarriedOut, Chain, Starts;
        if Compatible(cs, acts) { PrefixCompatible(cs, init, last); }
      }
    }
  }

  lemma PrefixCompatible(cs: seq<CatalogRow>, init: seq<Activation>, last: Activation)
    requires Compatible(cs, init + [last])
    ensures Compatible(cs, init)
  {
    assert forall k :: 0 <= k < |init| ==> (init + [last])[k] == init[k];
  }

  lemma CompatibleAppend(cs: seq<CatalogRow>, init: seq<Activation>, last: Activation)
    requires Compatible(cs, init)
    ensures Compatible(cs, init + [last]) <==>
      && last.id < |cs| && cs[last.id].status == Draft && last.at !in Starts(cs)
      && forall k :: 0 <= k < |init| ==> init[k].id != last.id && init[k].at != last.at
  {
    hide Starts;
    var acts := init + [last];
    assert acts[|init|] == last && forall k :: 0 <= k < |init| ==> acts[k] == init[k];
    if Compatible(cs, acts) {
      forall k | 0 <= k < |init| ensures init[k].id != last.id && init[k].at != last.at {
        assert acts[k].id != acts[|init|].id && acts[k].at != acts[|init|].at;
      }
    }
  }

  // After compatible activations, one more succeeds exactly when it is compatible with them.
  lemma LastCompatible(cs: seq<CatalogRow>, init: seq<Activation>, ds: seq<CatalogRow>, last: Activation)
    requires Compatible(cs, init) && CarriedOut(cs, init, ds)
    ensures Compatible(cs, init + [last]) <==> Activate(ds, last.id, last.at).Ok?
  {
    CompatibleAppend(cs, init, last);
    assert StartsAt(ds, last.at) <==> last.at in Starts(ds);
    hide Compatible, Chain, Predecessor, Successor, StartsAt, Starts;
    assert last.id < |ds| && ds[last.id].status == Draft ==> forall k :: 0 <= k < |init| ==> init[k].id != last.id;
  }

  // The same activations in another order succeed alike and leave the same schedule.
  lemma OrderIndependent(cs: seq<CatalogRow>, acts: seq<Activation>, other: seq<Activation>)
    requires Chain(cs) && multiset(acts) == multiset(other) && ActivateAll(cs, acts).Ok?
    ensures ActivateAll(cs, other) == ActivateAll(cs, acts)
  {
    ActivateAllCorrect(cs, acts);
    ActivateAllCorrect(cs, other);
    PermutedCompatible(cs, acts, other);
    SameMembers(acts, other);
    hide ActivateAll, Compatible;
    SameOutcome(cs, acts, other, ActivateAll(cs, acts).value, ActivateAll(cs, other).value);
  }

  lemma SameOutcome(cs: seq<CatalogRow>, acts: seq<Activation>, other: seq<Activation>, ds: seq<CatalogRow>,
      es: seq<CatalogRow>)
    requires CarriedOut(cs, acts, ds) && CarriedOut(cs, other, es) && forall x :: x in acts <==> x in other
    ensures ds == es
  {
    forall i | 0 <= i < |cs|
      ensures ds[i].status == es[i].status && ds[i].from == es[i].from && (ds[i].status == Draft ==> ds[i] == es[i])
    {
      if k :| 0 <= k < |acts| && acts[k].id == i {
        assert acts[k] in other;
        var m :| 0 <= m < |other| && other[m] == acts[k];
      } else {
        forall m | 0 <= m < |other| ensures other[m].id != i {
          assert other[m] in acts;
        }
      }
    }
    ChainUnique(ds, es);
  }

  lemma SameMembers(acts: seq<Activation>, other: seq<Activation>)
    requires multiset(acts) == multiset(other)
    ensures forall x :: x in acts <==> x in other
  {
    forall x ensures x in acts <==> x in other {
      assert x in acts <==> x in multiset(acts);
      assert x in other <==> x in multiset(other);
    }
  }

  lemma {:induction false} DistinctOnce(acts: seq<Activation>)
    requires forall k, m :: 0 <= k < m < |acts| ==> acts[k] != acts[m]
    ensures forall x :: multiset(acts)[x] <= 1
  {
    if |acts| > 0 {
      var n := |acts| - 1;
      DistinctOnce(acts[..n]);
      assert acts == acts[..n] + [acts[n]];
      assert acts[n] !in acts[..n];
    }
  }

  lemma OnceDistinct(acts: seq<Activation>, k: nat, m: nat)
    requires k < m < |acts| && multiset(acts)[acts[m]] <= 1
    ensures acts[k] != acts[m]
  {
    assert acts == acts[..m] + acts[m..];
    assert acts[..m][k] in multiset(acts[..m]);
    assert acts[m..][0] in multiset(acts[m..]);
  }

  lemma PermutedCompatible(cs: seq<CatalogRow>, acts: seq<Activation>, other: seq<Activation>)
    requires Compatible(cs, acts) && multiset(acts) == multiset(other)
    ensures Compatible(cs, other)
  {
    SameMembers(acts, other);
    DistinctOnce(acts);
    forall k | 0 <= k < |other|
      ensures other[k].id < |cs| && cs[other[k].id].status == Draft && other[k].at !in Starts(cs)
    {
      assert other[k] in other;
    }
    forall k, m | 0 <= k < m < |other| ensures other[k].id != other[m].id && other[k].at != other[m].at {
      assert other[k] in other && other[m] in other;
      var x :| 0 <= x < |acts| && acts[x] == other[k];
      var y :| 0 <= y < |acts| && acts[y] == other[m];
      OnceDistinct(other, k, m);
    }
  }

  // ---- The table the scheduler updates in place ----

  class CatalogTable {
    var rows: seq<CatalogRow>

    // The published catalogs that `_schedule_catalog_activation` inserts between.
    method FindNeighbours(e: Time) returns (conflict: bool, predecessor: Option<nat>, successor: Option<nat>)
      ensures conflict <==> StartsAt(rows, e)
      ensures !conflict ==> predecessor == Predecessor(rows, e) && successor == Successor(rows, e)
    {
      conflict, predecessor, successor := false, None, None;
      for i := 0 to |rows|
        invariant !conflict && forall k :: 0 <= k < i ==> !(Live(rows[k]) && rows[k].from.value == e)
        invariant predecessor == Predecessor(rows[..i], e) && successor == Successor(rows[..i], e)
      {
        assert rows[..i + 1][..i] == rows[..i];
        if Live(rows[i]) {
          var start := rows[i].from.value;
          if start == e { return true, predecessor, successor; }
          if start < e && (predecessor.None? || start > rows[predecessor.value].from.value) { predecessor := Some(i); }
          if start > e && (successor.None? || start < rows[successor.value].from.value) { successor := Some(i); }
        }
      }
      assert rows[..|rows|] == rows;
    }

    method Publish(id: nat, e: Time) returns (error: Option<Error>)
      modifies this
      ensures match Activate(old(rows), id, e)
        case Ok(next) => error == None && rows == next
        case Err(why) => error == Some(why) && rows == old(rows)
      ensures old(Chain(rows)) ==> Chain(rows)
    {
      if id >= |rows| { return Some(CatalogNotFound); }
      if rows[id].status != Draft { return Some(CatalogImmutable); }
      var conflict, predecessor, successor := FindNeighbours(e);
      if conflict { return Some(EffectiveTimeConflict); }
      ghost var before := rows;
      var until := if successor.Some? then rows[successor.value].from else None;
      if predecessor.Some? && (rows[predecessor.value].to.None? || rows[predecessor.value].to.value > e) {
        rows := rows[predecessor.value := rows[predecessor.value].(to := Some(e))];
      }
      rows := rows[id := CatalogRow(Published, Some(e), until)];
      if Chain(before) { ActivateKeepsChain(before, id, e); }
      return None;
    }
  }
}
