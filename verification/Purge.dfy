/** The privacy purge: a recursive deletion over the foreign-key graph that keeps a visited
set, skips retained tables, and counts what it deletes per table. */
module Purge {
  import opened Prelude

  datatype Row = Row(table: Ref, id: Ref)

  // A foreign key of table `child`; `onId` when it points at the parent's id column.
  datatype ForeignKey = ForeignKey(child: Ref, parent: Ref, onId: bool)

  // Row `child` of the key's child table refers to row `parent` of its parent table
  // through that key.
  datatype Reference = Reference(key: nat, child: Ref, parent: Ref)

  // What a purge reads and never changes. `keyed` are the tables with an id column,
  // `owned` the rows whose user, actor or reporter is the deleted user.
  datatype Schema = Schema(
    tables: seq<Ref>, keys: seq<ForeignKey>, retained: set<Ref>, keyed: set<Ref>,
    references: set<Reference>, owned: set<Row>)

  // ---- What is to be deleted ----

  predicate Purgeable(s: Schema, table: Ref) {
    table !in s.retained && table in s.keyed
  }

  predicate Follows(s: Schema, k: nat, parent: Ref)
    requires k < |s.keys|
  {
    Purgeable(s, s.keys[k].child) && s.keys[k].parent == parent && s.keys[k].onId
  }

  predicate RefersBy(s: Schema, k: nat, c: Row, p: Row)
    requires k < |s.keys|
  {
    s.keys[k].parent == p.table && s.keys[k].child == c.table && Reference(k, c.id, p.id) in s.references
  }

  // Row `c` references row `p` through some foreign key.
  predicate Refers(s: Schema, c: Row, p: Row) {
    exists k :: 0 <= k < |s.keys| && RefersBy(s, k, c, p)
  }

  predicate ChildBy(s: Schema, k: nat, c: Row, p: Row)
    requires k < |s.keys|
  {
    Follows(s, k, p.table) && RefersBy(s, k, c, p)
  }

  // Row `c` references row `p` through a key that the purge follows.
  predicate Child(s: Schema, c: Row, p: Row) {
    exists k :: 0 <= k < |s.keys| && ChildBy(s, k, c, p)
  }

  ghost predicate Closed(s: Schema, all: set<Row>, xs: set<Row>) {
    forall c, p :: p in xs && c in all && Child(s, c, p) ==> c in xs
  }

  function Roots(s: Schema, all: set<Row>): set<Row> {
    set r | r in all && r in s.owned && r.table in s.tables && Purgeable(s, r.table)
  }

  // A walk from a root down child references.
  ghost predicate Walk(s: Schema, all: set<Row>, path: seq<Row>) {
    && |path| > 0
    && path[0] in Roots(s, all)
    && (forall i :: 0 <= i < |path| ==> path[i] in all)
    && (forall i :: 0 < i < |path| ==> Child(s, path[i], path[i - 1]))
  }

  ghost predicate Reached(s: Schema, all: set<Row>, r: Row) {
    exists path :: Walk(s, all, path) && path[|path| - 1] == r
  }

  ghost function Reachable(s: Schema, all: set<Row>): set<Row> {
    set r | r in all && Reached(s, all, r)
  }

  lemma ReachableClosed(s: Schema, all: set<Row>)
    ensures Closed(s, all, Reachable(s, all)) && Roots(s, all) <= Reachable(s, all)
  {
    forall c, p | p in Reachable(s, all) && c in all && Child(s, c, p) ensures Reached(s, all, c) {
      var path :| Walk(s, all, path) && path[|path| - 1] == p;
      assert Walk(s, all, path + [c]);
    }
    forall r | r in Roots(s, all) ensures Reached(s, all, r) {
      assert Walk(s, all, [r]);
    }
  }

  lemma {:induction false} WalkStays(s: Schema, all: set<Row>, xs: set<Row>, path: seq<Row>)
    requires Closed(s, all, xs) && Roots(s, all) <= xs && Walk(s, all, path)
    ensures path[|path| - 1] in xs
  {
    var n := |path| - 1;
    if n > 0 {
      WalkStays(s, all, xs, path[..n]);
      assert Child(s, path[n], path[n - 1]);
    }
  }

  // The rows reachable from the roots are the least closed set that holds the roots.
  lemma LeastClosed(s: Schema, all: set<Row>, xs: set<Row>)
    requires Closed(s, all, xs) && Roots(s, all) <= xs
    requires forall ys :: Closed(s, all, ys) && Roots(s, all) <= ys ==> xs <= ys
    ensures xs == Reachable(s, all)
  {
    ReachableClosed(s, all);
    forall r | r in Reachable(s, all) ensures r in xs {
      var path :| Walk(s, all, path) && path[|path| - 1] == r;
      WalkStays(s, all, xs, path);
    }
  }

  // Row `c` refers to the id of row `p`.
  predicate PointsAt(s: Schema, c: Row, p: Row) {
    exists k :: 0 <= k < |s.keys| &&
      s.keys[k].onId && s.keys[k].parent == p.table && s.keys[k].child == c.table
        && Reference(k, c.id, p.id) in s.references
  }

  // A row is reachable exactly if its table is not retained and has ids, and it is the
  // user's own or refers to the id of a reachable row.
  lemma ReachableExact(s: Schema, all: set<Row>, r: Row)
    requires r in all
    ensures r in Reachable(s, all) <==>
      && r.table !in s.retained && r.table in s.keyed
      && ((r in s.owned && r.table in s.tables) || exists p :: p in Reachable(s, all) && PointsAt(s, r, p))
  {
    ReachableClosed(s, all);
    forall p ensures Child(s, r, p) <==> Purgeable(s, r.table) && PointsAt(s, r, p) {
      if Child(s, r, p) {
        var k :| 0 <= k < |s.keys| && ChildBy(s, k, r, p);
        assert PointsAt(s, r, p);
      }
      if Purgeable(s, r.table) && PointsAt(s, r, p) {
        var k :| 0 <= k < |s.keys| && s.keys[k].onId && s.keys[k].parent == p.table && s.keys[k].child == r.table
          && Reference(k, r.id, p.id) in s.references;
        assert ChildBy(s, k, r, p);
      }
    }
    if r in Reachable(s, all) {
      ReachablePurgeable(s, all, r);
      var path :| Walk(s, all, path) && path[|path| - 1] == r;
      if |path| > 1 {
        var n := |path| - 1;
        assert Walk(s, all, path[..n]);
        assert path[n - 1] in Reachable(s, all) && Child(s, r, path[n - 1]);
      }
    }
  }

  // Only rows of tables that may be purged are reachable; no retained row is.
  lemma ReachablePurgeable(s: Schema, all: set<Row>, r: Row)
    requires r in Reachable(s, all)
    ensures Purgeable(s, r.table)
  {
    var path :| Walk(s, all, path) && path[|path| - 1] == r;
    if |path| > 1 {
      assert Child(s, r, path[|path| - 2]);
    }
  }

  // Whatever key the reference goes through, the purge does not follow it: its table is
  // retained or has no id column, or it does not point at an id.
  ghost predicate Unfollowed(s: Schema, c: Row, p: Row) {
    forall k :: 0 <= k < |s.keys| && RefersBy(s, k, c, p) ==>
      s.keys[k].child in s.retained || s.keys[k].child !in s.keyed || !s.keys[k].onId
  }

  lemma NoChildUnfollowed(s: Schema, c: Row, p: Row)
    requires !Child(s, c, p)
    ensures Unfollowed(s, c, p)
  {
    forall k | 0 <= k < |s.keys| && RefersBy(s, k, c, p)
      ensures s.keys[k].child in s.retained || s.keys[k].child !in s.keyed || !s.keys[k].onId
    {
      assert !ChildBy(s, k, c, p);
    }
  }

  // ---- Cycles of tables ----

  // A followed key leads from table `parent` down to table `child`.
  predicate Down(s: Schema, parent: Ref, child: Ref) {
    exists k :: 0 <= k < |s.keys| && s.keys[k].child == child && Follows(s, k, parent)
  }

  ghost predicate TablePath(s: Schema, path: seq<Ref>) {
    |path| > 1 && forall i :: 0 < i < |path| ==> Down(s, path[i - 1], path[i])
  }

  ghost predicate Leads(s: Schema, from: Ref, to: Ref) {
    exists path :: TablePath(s, path) && path[0] == from && path[|path| - 1] == to
  }

  // The followed keys lead from some table back to it; a key from a table to itself is one.
  ghost predicate Cyclic(s: Schema) {
    exists t: Ref :: Leads(s, t, t)
  }

  ghost function Below(s: Schema, table: Ref): set<Ref> {
    set k | 0 <= k < |s.keys| && Leads(s, table, s.keys[k].child) :: s.keys[k].child
  }

  ghost function Height(s: Schema, table: Ref): nat {
    |Below(s, table)|
  }

  // Every followed key leads to a table of smaller height.
  ghost predicate Ranked(s: Schema) {
    forall k :: 0 <= k < |s.keys| && Follows(s, k, s.keys[k].parent) ==>
      Height(s, s.keys[k].child) < Height(s, s.keys[k].parent)
  }

  lemma DownLeads(s: Schema, parent: Ref, child: Ref)
    requires Down(s, parent, child)
    ensures Leads(s, parent, child)
    ensures forall t: Ref :: Leads(s, child, t) ==> Leads(s, parent, t)
  {
    assert TablePath(s, [parent, child]);
    forall t: Ref | Leads(s, child, t) ensures Leads(s, parent, t) {
      var path :| TablePath(s, path) && path[0] == child && path[|path| - 1] == t;
      var longer := [parent] + path;
      assert forall i :: 0 < i < |longer| ==> longer[i] == path[i - 1];
      assert TablePath(s, longer) && longer[0] == parent && longer[|longer| - 1] == t;
    }
  }

  lemma {:induction false} HeightFalls(s: Schema, path: seq<Ref>)
    requires Ranked(s) && TablePath(s, path)
    ensures Height(s, path[|path| - 1]) < Height(s, path[0])
  {
    var n := |path| - 1;
    assert Down(s, path[n - 1], path[n]);
    var k :| 0 <= k < |s.keys| && s.keys[k].child == path[n] && Follows(s, k, path[n - 1]);
    if n > 1 {
      HeightFalls(s, path[..n]);
    }
  }

  // The heights rank the tables exactly when the followed keys form no cycle of tables.
  lemma RankedIffAcyclic(s: Schema)
    ensures Ranked(s) <==> !Cyclic(s)
  {
    if Ranked(s) {
      forall path | TablePath(s, path) ensures path[0] != path[|path| - 1] {
        HeightFalls(s, path);
      }
    }
    if !Cyclic(s) {
      forall k | 0 <= k < |s.keys| && Follows(s, k, s.keys[k].parent)
        ensures Height(s, s.keys[k].child) < Height(s, s.keys[k].parent)
      {
        var parent, child := s.keys[k].parent, s.keys[k].child;
        DownLeads(s, parent, child);
        assert child in Below(s, parent) && child !in Below(s, child);
        Smaller(Below(s, child), Below(s, parent));
      }
    }
  }

  function Of(rows: set<Row>, table: Ref): set<Row> {
    set r | r in rows && r.table == table
  }

  function Rows(table: Ref, ids: set<Ref>): set<Row> {
    set i | i in ids :: Row(table, i)
  }

  function Counted(manifest: map<Ref, nat>, table: Ref): nat {
    if table in manifest then manifest[table] else 0
  }

  ghost predicate Covered(roots: seq<(Ref, set<Ref>)>, r: Row) {
    exists j :: 0 <= j < |roots| && r in Rows(roots[j].0, roots[j].1)
  }

  lemma ClosedBy(s: Schema, all: set<Row>, xs: set<Row>)
    requires forall c, p :: p in xs && p !in {} && c in all && Child(s, c, p) ==> c in xs
    ensures Closed(s, all, xs)
  {}

  // What the deletions from all the roots visited is what is reachable.
  lemma DeletedReachable(s: Schema, all: set<Row>, roots: seq<(Ref, set<Ref>)>, visited: set<Row>)
    requires forall r :: r in Roots(s, all) ==> Covered(roots, r)
    requires forall j :: 0 <= j < |roots| ==> Rows(roots[j].0, roots[j].1) <= visited
    requires Closed(s, all, visited)
    requires forall xs :: Closed(s, all, xs) && Roots(s, all) <= xs ==> visited <= xs
    ensures visited == Reachable(s, all)
  {
    forall r | r in Roots(s, all) ensures r in visited {
      assert Covered(roots, r);
    }
    LeastClosed(s, all, visited);
  }

  // ---- The purge ----

  class Purger {
    const s: Schema
    ghost const all: set<Row>
    var rows: set<Row>
    var visited: set<Row>
    var manifest: map<Ref, nat>
    // Surviving child and deleted parent, at the moment of each deletion.
    ghost var dangling: set<(Row, Row)>

    constructor (s: Schema, rows: set<Row>)
      ensures this.s == s && this.rows == this.all == rows
      ensures visited == {} && manifest == map[] && dangling == {}
    {
      this.s, this.rows, all := s, rows, rows;
      visited, manifest, dangling := {}, map[], {};
    }

    ghost predicate Valid()
      reads this
    {
      && visited <= all
      && rows <= all
      && all - rows <= visited
      && Recorded()
      && forall t :: Counted(manifest, t) == |Of(all - rows, t)|
    }

    // `dangling` holds every reference of a present row to a deleted one, and only
    // references to deleted rows.
    ghost predicate Recorded()
      reads this
    {
      && (forall c, p :: c in rows && p in all - rows && Refers(s, c, p) ==> (c, p) in dangling)
      && forall c, p :: (c, p) in dangling ==> p in all - rows && Refers(s, c, p)
    }

    // No recorded reference goes through a key that the purge follows.
    ghost predicate OnlyUnfollowed()
      reads this
    {
      forall c, p :: (c, p) in dangling ==> !Child(s, c, p)
    }

    // Rows whose deletion is still pending lie in tables above `table`.
    ghost predicate PendingAbove(table: Ref)
      reads this
    {
      forall r :: r in visited && r in rows ==> Height(s, r.table) > Height(s, table)
    }

    // Deletes the rows of one batch and adds their number to the manifest.
    method DeleteRows(table: Ref, ids: set<Ref>)
      requires Valid() && Rows(table, ids) <= rows && Rows(table, ids) <= visited
      modifies this`rows, this`manifest, this`dangling
      ensures Valid() && rows == old(rows) - Rows(table, ids)
      ensures dangling == old(dangling) + Dangling(rows, Rows(table, ids))
    {
      var hit := set r | r in rows && r.table == table && r.id in ids;
      BatchCounts(all, rows, table, ids, hit);
      hide Of, Rows, Dangling;
      manifest := manifest[table := (if table in manifest then manifest[table] else 0) + |hit|];
      rows := rows - hit;
      dangling := dangling + Dangling(rows, Rows(table, ids));
    }

    ghost function Dangling(surviving: set<Row>, deleted: set<Row>): set<(Row, Row)> {
      set c, p | c in surviving && p in deleted && Refers(s, c, p) :: (c, p)
    }

    // `_delete_graph`.
    method DeleteGraph(table: Ref, ids: set<Ref>)
      requires Valid() && Rows(table, ids) <= all
      modifies this`rows, this`visited, this`manifest, this`dangling
      decreases |all - visited|, 0
      ensures Valid() && old(visited) <= visited
      ensures rows == old(rows) - (visited - old(visited))
      ensures table !in s.retained ==> Rows(table, ids) <= visited
      ensures FollowedUp(old(visited))
      ensures forall xs :: Closed(s, all, xs) && (table in s.retained || Rows(table, ids) <= xs) ==>
        visited - old(visited) <= xs
      ensures Ranked(s) && old(PendingAbove(table)) && old(OnlyUnfollowed()) ==> OnlyUnfollowed()
    {
      var pending := set i | i in ids && Row(table, i) !in visited;
      assert forall i :: i in ids ==> i in pending || Row(table, i) in visited;
      if pending == {} || table in s.retained {
        return;
      }
      ghost var batch := Rows(table, pending);
      assert batch <= rows;
      assert exists i :: i in pending && Row(table, i) in all - visited;
      visited := visited + Rows(table, pending);
      Smaller(all - visited, old(all - visited));
      label Marked:
      FollowKeys(table, pending);
      assert batch <= rows;
      label Rest:
      DeleteRows(table, pending);
      if Ranked(s) && old(PendingAbove(table)) {
        assert forall c, p :: p in batch && c in all && Child(s, c, p) ==>
          c in visited && Height(s, c.table) < Height(s, table);
        assert forall c, p :: (c, p) in Dangling(rows, batch) ==> !Child(s, c, p);
      }
    }

    // Every child of a row visited since `before` is visited.
    ghost predicate FollowedUp(before: set<Row>)
      reads this
    {
      forall c, p :: p in visited && p !in before && c in all && Child(s, c, p) ==> c in visited
    }

    // The ids of the rows that reference the batch through key `k`.
    method SelectChildren(k: nat, pending: set<Ref>) returns (ids: set<Ref>)
      requires k < |s.keys| && Follows(s, k, s.keys[k].parent)
      ensures Rows(s.keys[k].child, ids) <= rows
      ensures forall c, p :: p in Rows(s.keys[k].parent, pending) && c in rows && ChildBy(s, k, c, p) ==>
        c in Rows(s.keys[k].child, ids)
      ensures rows <= all ==> forall xs :: Closed(s, all, xs) && Rows(s.keys[k].parent, pending) <= xs ==>
        Rows(s.keys[k].child, ids) <= xs
    {
      var parent, child := s.keys[k].parent, s.keys[k].child;
      ids := set r, i | r in rows && r.table == child && i in pending && Reference(k, r.id, i) in s.references :: r.id;
      forall xs, c | rows <= all && Closed(s, all, xs) && Rows(parent, pending) <= xs && c in Rows(child, ids)
        ensures c in xs
      {
        var i :| i in pending && Reference(k, c.id, i) in s.references;
        assert ChildBy(s, k, c, Row(parent, i));
        assert Row(parent, i) in Rows(parent, pending);
      }
      forall c, p | p in Rows(parent, pending) && c in rows && ChildBy(s, k, c, p) ensures c in Rows(child, ids) {
        assert c.id in ids;
        assert c == Row(child, c.id);
      }
    }

    // One key of the loop of `_delete_graph`.
    method DeleteChildren(k: nat, pending: set<Ref>)
      requires Valid() && k < |s.keys| && Follows(s, k, s.keys[k].parent)
      modifies this`rows, this`visited, this`manifest, this`dangling
      decreases |all - visited|, 1
      ensures Valid() && old(visited) <= visited
      ensures rows == old(rows) - (visited - old(visited))
      ensures forall c, p :: p in Rows(s.keys[k].parent, pending) && c in all && ChildBy(s, k, c, p) ==> c in visited
      ensures FollowedUp(old(visited))
      ensures forall xs :: Closed(s, all, xs) && Rows(s.keys[k].parent, pending) <= xs ==> visited - old(visited) <= xs
      ensures Ranked(s) && old(AtOrAbove(s.keys[k].parent)) && old(OnlyUnfollowed()) ==> OnlyUnfollowed()
    {
      var ids := SelectChildren(k, pending);
      if ids != {} {
        DeleteGraph(s.keys[k].child, ids);
      }
      assert forall c :: c in all && c !in old(rows) ==> c in visited;
    }

    // The loop of `_delete_graph` over the keys that point at `table`.
    method FollowKeys(table: Ref, pending: set<Ref>)
      requires Valid() && Rows(table, pending) <= visited
      modifies this`rows, this`visited, this`manifest, this`dangling
      decreases |all - visited|, 2
      ensures Valid() && old(visited) <= visited
      ensures rows == old(rows) - (visited - old(visited))
      ensures forall c, p :: p in Rows(table, pending) && c in all && Child(s, c, p) ==> c in visited
      ensures FollowedUp(old(visited))
      ensures forall xs :: Closed(s, all, xs) && Rows(table, pending) <= xs ==> visited - old(visited) <= xs
      ensures Ranked(s) && old(AtOrAbove(table)) && old(OnlyUnfollowed()) ==> OnlyUnfollowed()
    {
      ghost var batch := Rows(table, pending);
      for k := 0 to |s.keys|
        invariant Valid() && old(visited) <= visited
        invariant rows == old(rows) - (visited - old(visited))
        invariant forall j, c, p :: 0 <= j < k && p in batch && c in all && ChildBy(s, j, c, p) ==> c in visited
        invariant FollowedUp(old(visited))
        invariant forall xs :: Closed(s, all, xs) && batch <= xs ==> visited - old(visited) <= xs
        invariant Ranked(s) && old(AtOrAbove(table)) && old(OnlyUnfollowed()) ==> OnlyUnfollowed()
      {
        if Follows(s, k, table) {
          NoLarger(all - visited, old(all - visited));
          DeleteChildren(k, pending);
        }
      }
    }

    ghost predicate AtOrAbove(table: Ref)
      reads this
    {
      forall r :: r in visited && r in rows ==> Height(s, r.table) >= Height(s, table)
    }

    // The ids of one root, in a table that may be purged.
    ghost predicate RootIds(table: Ref, ids: set<Ref>)
      reads this
    {
      Purgeable(s, table) && Rows(table, ids) <= Roots(s, all)
    }

    // The user's rows of every table, collected before anything is deleted.
    method CollectRoots() returns (roots: seq<(Ref, set<Ref>)>)
      requires rows == all
      ensures forall j :: 0 <= j < |roots| ==> RootIds(roots[j].0, roots[j].1)
      ensures forall r :: r in Roots(s, all) ==> Covered(roots, r)
    {
      roots := [];
      for i := 0 to |s.tables|
        invariant forall j :: 0 <= j < |roots| ==> RootIds(roots[j].0, roots[j].1)
        invariant forall r :: r in Roots(s, all) && r.table in s.tables[..i] ==> Covered(roots, r)
      {
        var table := s.tables[i];
        if Purgeable(s, table) {
          var ids := set r | r in rows && r in s.owned && r.table == table :: r.id;
          ghost var was := roots;
          if ids != {} {
            roots := roots + [(table, ids)];
          }
          forall r | r in Roots(s, all) && r.table in s.tables[..i + 1] ensures Covered(roots, r) {
            if r.table == table {
              assert r.id in ids && r == Row(table, r.id);
              assert r in Rows(roots[|was|].0, roots[|was|].1);
            } else {
              assert Covered(was, r);
              var j :| 0 <= j < |was| && r in Rows(was[j].0, was[j].1);
              assert roots[j] == was[j];
            }
          }
        }
      }
      assert s.tables[..|s.tables|] == s.tables;
    }

    // The deletions of `_purge_domain_rows`, root by root.
    method DeleteRoots(roots: seq<(Ref, set<Ref>)>)
      requires Valid() && visited == {} && dangling == {}
      requires forall j :: 0 <= j < |roots| ==> RootIds(roots[j].0, roots[j].1)
      modifies this`rows, this`visited, this`manifest, this`dangling
      ensures Valid() && rows == all - visited && FollowedUp({})
      ensures forall j :: 0 <= j < |roots| ==> Rows(roots[j].0, roots[j].1) <= visited
      ensures forall xs :: Closed(s, all, xs) && Roots(s, all) <= xs ==> visited <= xs
      ensures !Cyclic(s) ==> forall c, p :: (c, p) in dangling ==> Unfollowed(s, c, p)
    {
      RankedIffAcyclic(s);
      hide Recorded, Ranked, Closed, Cyclic, Unfollowed;
      for i := 0 to |roots|
        invariant Valid() && rows == all - visited && FollowedUp({})
        invariant forall j :: 0 <= j < i ==> Rows(roots[j].0, roots[j].1) <= visited
        invariant forall xs :: Closed(s, all, xs) && Roots(s, all) <= xs ==> visited <= xs
        invariant Ranked(s) ==> OnlyUnfollowed()
      {
        assert RootIds(roots[i].0, roots[i].1);
        DeleteGraph(roots[i].0, roots[i].1);
      }
      forall c, p | (c, p) in dangling && !Child(s, c, p) ensures Unfollowed(s, c, p) {
        NoChildUnfollowed(s, c, p);
      }
    }

    method StartPurge()
      requires rows == all && dangling == {}
      modifies this`visited, this`manifest
      ensures Valid() && visited == {}
    {
      visited, manifest := {}, map[];
      assert all - rows == {} && forall t :: Of({}, t) == {};
    }

    // `_purge_domain_rows`: exactly the rows reachable from the user's rows are deleted and
    // the manifest counts them per table. `dangling` records exactly the references left to
    // a row when it was deleted; where the followed keys form no cycle of tables each of
    // them goes through a key the purge does not follow.
    method PurgeUser()
      requires rows == all && dangling == {}
      modifies this`rows, this`visited, this`manifest, this`dangling
      ensures rows == all - Reachable(s, all)
      ensures forall t :: Counted(manifest, t) == |Of(Reachable(s, all), t)|
      ensures forall c, p :: c in rows && p in Reachable(s, all) && Refers(s, c, p) ==> (c, p) in dangling
      ensures forall c, p :: (c, p) in dangling ==> p in Reachable(s, all) && Refers(s, c, p)
      ensures !Cyclic(s) ==> forall c, p :: (c, p) in dangling ==> Unfollowed(s, c, p)
    {
      StartPurge();
      var roots := CollectRoots();
      hide Ranked, Cyclic, Reachable, Roots, Covered, Rows, Closed, Unfollowed, Of;
      DeleteRoots(roots);
      assert Closed(s, all, visited) by { ClosedBy(s, all, visited); }
      DeletedReachable(s, all, roots, visited);
      assert all - rows == visited;
    }
  }

  // Deleting a batch raises its table's count by the batch and no other count.
  lemma BatchCounts(all: set<Row>, rows: set<Row>, table: Ref, ids: set<Ref>, hit: set<Row>)
    requires rows <= all && Rows(table, ids) <= rows
    requires hit == set r | r in rows && r.table == table && r.id in ids
    ensures hit == Rows(table, ids)
    ensures forall t :: |Of(all - (rows - hit), t)| == |Of(all - rows, t)| + if t == table then |hit| else 0
  {
    forall r | r in hit ensures r in Rows(table, ids) { assert r == Row(table, r.id); }
    forall t ensures |Of(all - (rows - hit), t)| == |Of(all - rows, t)| + if t == table then |hit| else 0 {
      assert Of(all - (rows - hit), t) == if t == table then Of(all - rows, t) + hit else Of(all - rows, t);
    }
  }

  lemma NoLarger<T>(a: set<T>, b: set<T>)
    requires a <= b
    ensures |a| <= |b|
  {
    if a != b { Smaller(a, b); }
  }

  lemma Smaller<T>(a: set<T>, b: set<T>)
    requires a < b
    ensures |a| < |b|
  {
    assert b == a + (b - a);
    assert b - a != {};
  }
}
