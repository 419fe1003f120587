// The persisted thread-spawn topology: one row per child thread, changed by upserts and
// status updates, and read by the child and descendant listings.
//
// A thread id stands for the number its UUID denotes; canonical UUID text sorts in the
// same order.
module SpawnGraph {
  import opened Prelude

  type ThreadId = nat

  // `Future` is a status written by a later release; only an unfiltered listing returns it.
  datatype Status = Open | Closed | Future(name: string)

  datatype Edge = Edge(parent: ThreadId, status: Status)

  // The child id is the table's primary key.
  type Edges = map<ThreadId, Edge>

  type Filter = Option<Status>

  predicate Matches(e: Edge, f: Filter) {
    f.None? || e.status == f.value
  }

  // ----- What the documentation calls a descendant -----

  // The `i`-th edge of the downward path `p` leaves `root` or the thread before.
  predicate EdgeOnPath(g: Edges, f: Filter, root: ThreadId, p: seq<ThreadId>, i: nat)
    requires i < |p|
  {
    p[i] in g && Matches(g[p[i]], f) && g[p[i]].parent == if i == 0 then root else p[i - 1]
  }

  predicate IsPath(g: Edges, f: Filter, root: ThreadId, p: seq<ThreadId>) {
    forall i :: 0 <= i < |p| ==> EdgeOnPath(g, f, root, p, i)
  }

  // `x` ends a downward path of `d` matching edges from `root`.
  ghost predicate ReachedBy(g: Edges, f: Filter, root: ThreadId, x: ThreadId, d: nat) {
    exists p: seq<ThreadId> :: |p| == d && d > 0 && p[d - 1] == x && IsPath(g, f, root, p)
  }

  // ----- The same notion computed upward, through the single parent -----

  function Ancestor(g: Edges, f: Filter, x: ThreadId, d: nat): Option<ThreadId>
    decreases d
  {
    if d == 0 then Some(x)
    else if x in g && Matches(g[x], f) then Ancestor(g, f, g[x].parent, d - 1)
    else None
  }

  predicate DescendsAt(g: Edges, f: Filter, root: ThreadId, x: ThreadId, d: nat) {
    d > 0 && Ancestor(g, f, x, d) == Some(root)
  }

  ghost predicate Descends(g: Edges, f: Filter, root: ThreadId, x: ThreadId) {
    exists d: nat :: DescendsAt(g, f, root, x, d)
  }

  ghost predicate OnCycle(g: Edges, f: Filter, root: ThreadId) {
    Descends(g, f, root, root)
  }

  lemma {:induction false} PathClimbs(g: Edges, f: Filter, root: ThreadId, p: seq<ThreadId>)
    requires p != [] && IsPath(g, f, root, p)
    ensures DescendsAt(g, f, root, p[|p| - 1], |p|)
    decreases |p|
  {
    var n := |p| - 1;
    assert EdgeOnPath(g, f, root, p, n);
    if n > 0 {
      var q := p[..n];
      assert forall i :: 0 <= i < n && EdgeOnPath(g, f, root, p, i) ==> EdgeOnPath(g, f, root, q, i);
      PathClimbs(g, f, root, q);
    }
  }

  lemma {:induction false} ClimbGivesPath(g: Edges, f: Filter, root: ThreadId, x: ThreadId, d: nat) returns (p: seq<ThreadId>)
    requires DescendsAt(g, f, root, x, d)
    ensures |p| == d && p[d - 1] == x && IsPath(g, f, root, p)
    decreases d
  {
    if d == 1 {
      p := [x];
    } else {
      var q := ClimbGivesPath(g, f, root, g[x].parent, d - 1);
      p := q + [x];
      forall i | 0 <= i < d
        ensures EdgeOnPath(g, f, root, p, i)
      {
        if i < d - 1 {
          assert EdgeOnPath(g, f, root, q, i);
        }
      }
    }
  }

  lemma ReachedByIffDescendsAt(g: Edges, f: Filter, root: ThreadId, x: ThreadId, d: nat)
    ensures ReachedBy(g, f, root, x, d) <==> DescendsAt(g, f, root, x, d)
  {
    if ReachedBy(g, f, root, x, d) {
      var p: seq<ThreadId> :| |p| == d && d > 0 && p[d - 1] == x && IsPath(g, f, root, p);
      PathClimbs(g, f, root, p);
    }
    if DescendsAt(g, f, root, x, d) {
      var p := ClimbGivesPath(g, f, root, x, d);
    }
  }

  lemma {:induction false} AncestorSplits(g: Edges, f: Filter, x: ThreadId, a: nat, b: nat)
    ensures Ancestor(g, f, x, a + b) ==
            if Ancestor(g, f, x, a).Some? then Ancestor(g, f, Ancestor(g, f, x, a).value, b) else None
    decreases a
  {
    if a > 0 && x in g && Matches(g[x], f) {
      AncestorSplits(g, f, g[x].parent, a - 1, b);
      assert a - 1 + b == a + b - 1;
    }
  }

  // ----- Cycles -----

  // Every node has one parent, so a cycle reachable from `root` passes through `root`.
  lemma ReachableCycleIsOwn(g: Edges, f: Filter, root: ThreadId, x: ThreadId)
    requires Descends(g, f, root, x) && OnCycle(g, f, x)
    ensures OnCycle(g, f, root)
  {
    var d: nat :| DescendsAt(g, f, root, x, d);
    var p: nat :| DescendsAt(g, f, x, x, p);
    RoundTrips(g, f, x, p, d);
    assert d * p >= d by { MulAtLeast(d, p); }
    var rest := d * p - d;
    AncestorSplits(g, f, x, d, rest);
    AncestorSplits(g, f, root, rest, d);
    assert DescendsAt(g, f, root, root, rest + d);
  }

  lemma MulAtLeast(d: nat, p: nat)
    requires p >= 1
    ensures d * p >= d
  {}

  lemma {:induction false} RoundTrips(g: Edges, f: Filter, x: ThreadId, p: nat, k: nat)
    requires Ancestor(g, f, x, p) == Some(x)
    ensures Ancestor(g, f, x, k * p) == Some(x)
    decreases k
  {
    if k > 0 {
      RoundTrips(g, f, x, p, k - 1);
      AncestorSplits(g, f, x, p, (k - 1) * p);
      assert k * p == p + (k - 1) * p;
    }
  }

  lemma TwoDepthsMakeACycle(g: Edges, f: Filter, root: ThreadId, x: ThreadId, a: nat, b: nat)
    requires DescendsAt(g, f, root, x, a) && DescendsAt(g, f, root, x, b) && a < b
    ensures OnCycle(g, f, root)
  {
    AncestorSplits(g, f, x, a, b - a);
    assert DescendsAt(g, f, root, root, b - a);
  }

  lemma DepthIsUnique(g: Edges, f: Filter, root: ThreadId, x: ThreadId, a: nat, b: nat)
    requires !OnCycle(g, f, root)
    requires DescendsAt(g, f, root, x, a) && DescendsAt(g, f, root, x, b)
    ensures a == b
  {
    if a < b {
      TwoDepthsMakeACycle(g, f, root, x, a, b);
    } else if b < a {
      TwoDepthsMakeACycle(g, f, root, x, b, a);
    }
  }

  // The nodes from `x` up to, but not including, `root`.
  lemma {:induction false} UpwardNodes(g: Edges, f: Filter, root: ThreadId, x: ThreadId, d: nat) returns (s: set<ThreadId>)
    requires !OnCycle(g, f, root) && DescendsAt(g, f, root, x, d)
    ensures s <= g.Keys && |s| == d
    ensures forall y :: y in s ==> exists k: nat :: k <= d && DescendsAt(g, f, root, y, k)
    decreases d
  {
    if d == 1 {
      s := {x};
    } else {
      var above := UpwardNodes(g, f, root, g[x].parent, d - 1);
      if x in above {
        var k: nat :| k <= d - 1 && DescendsAt(g, f, root, x, k);
        DepthIsUnique(g, f, root, x, d, k);
      }
      s := above + {x};
    }
  }

  // The recursive query produces finitely many rows exactly when `root` is on no matching cycle.
  lemma RowsAreBoundedIffNoCycle(g: Edges, f: Filter, root: ThreadId)
    ensures !OnCycle(g, f, root) <==> exists bound: nat :: DepthsBoundedBy(g, f, root, bound)
    ensures !OnCycle(g, f, root) ==> DepthsBoundedBy(g, f, root, |g|)
  {
    if !OnCycle(g, f, root) {
      forall x: ThreadId, d: nat | DescendsAt(g, f, root, x, d)
        ensures d <= |g|
      {
        var s := UpwardNodes(g, f, root, x, d);
        SubsetSize(s, g.Keys);
      }
      assert DepthsBoundedBy(g, f, root, |g|);
    } else {
      var p: nat :| DescendsAt(g, f, root, root, p);
      forall bound: nat
        ensures !DepthsBoundedBy(g, f, root, bound)
      {
        RoundTrips(g, f, root, p, bound + 1);
        assert (bound + 1) * p >= bound + 1 by { MulAtLeast(bound + 1, p); }
        assert DescendsAt(g, f, root, root, (bound + 1) * p);
      }
    }
  }

  ghost predicate DepthsBoundedBy(g: Edges, f: Filter, root: ThreadId, bound: nat) {
    forall x: ThreadId, d: nat :: DescendsAt(g, f, root, x, d) ==> d <= bound
  }

  // ----- Listings -----

  // What a caller may rely on: exactly the descendants, by depth and then by id.
  ghost predicate IsListing(g: Edges, f: Filter, root: ThreadId, r: seq<ThreadId>) {
    && (forall x :: x in r <==> Descends(g, f, root, x))
    && forall i, j, a: nat, b: nat ::
         0 <= i < j < |r| && DescendsAt(g, f, root, r[i], a) && DescendsAt(g, f, root, r[j], b) ==>
           a < b || (a == b && r[i] < r[j])
  }

  lemma ListingHasNoRepeats(g: Edges, f: Filter, root: ThreadId, r: seq<ThreadId>)
    requires IsListing(g, f, root, r)
    ensures forall i, j :: 0 <= i < j < |r| ==> r[i] != r[j]
  {
    forall i, j | 0 <= i < j < |r|
      ensures r[i] != r[j]
    {
      assert r[i] in r;
      var d: nat :| DescendsAt(g, f, root, r[i], d);
    }
  }

  lemma ListingIsUnique(g: Edges, f: Filter, root: ThreadId, r: seq<ThreadId>, s: seq<ThreadId>)
    requires !OnCycle(g, f, root)
    requires IsListing(g, f, root, r) && IsListing(g, f, root, s)
    ensures r == s
  {
    AgreeUpTo(g, f, root, r, s, |r|);
    AgreeUpTo(g, f, root, s, r, |s|);
  }

  lemma {:induction false} AgreeUpTo(g: Edges, f: Filter, root: ThreadId, r: seq<ThreadId>, s: seq<ThreadId>, n: nat)
    requires !OnCycle(g, f, root)
    requires IsListing(g, f, root, r) && IsListing(g, f, root, s)
    requires n <= |r|
    ensures n <= |s| && r[..n] == s[..n]
    decreases n
  {
    if n > 0 {
      AgreeUpTo(g, f, root, r, s, n - 1);
      var k := PlaceOf(g, f, root, r, s, n - 1);
      var j := PlaceOf(g, f, root, s, r, n - 1);
      assert r[n - 1] in r;
      var dx: nat :| DescendsAt(g, f, root, r[n - 1], dx);
      assert s[n - 1] in s;
      var dy: nat :| DescendsAt(g, f, root, s[n - 1], dy);
      assert k == n - 1;
    }
  }

  // Where the `n`-th thread of one listing stands in another that starts with the same `n` threads.
  lemma PlaceOf(g: Edges, f: Filter, root: ThreadId, r: seq<ThreadId>, s: seq<ThreadId>, n: nat) returns (k: nat)
    requires IsListing(g, f, root, r) && IsListing(g, f, root, s)
    requires n < |r| && n <= |s| && r[..n] == s[..n]
    ensures n <= k < |s| && s[k] == r[n]
  {
    ListingHasNoRepeats(g, f, root, r);
    assert r[n] in r;
    k :| 0 <= k < |s| && s[k] == r[n];
    assert forall i :: 0 <= i < n ==> s[i] == s[..n][i] == r[..n][i] == r[i];
  }

  // ----- Sorting ids -----

  lemma {:induction false} LeastExists(s: set<ThreadId>) returns (m: ThreadId)
    requires s != {}
    ensures m in s && forall y :: y in s ==> m <= y
    decreases s
  {
    var x :| x in s;
    m := x;
    if s != {x} {
      var least := LeastExists(s - {x});
      m := if x <= least then x else least;
      assert forall y :: y in s ==> y == x || y in s - {x};
    }
  }

  predicate Ascending(r: seq<ThreadId>) {
    forall i, j :: 0 <= i < j < |r| ==> r[i] < r[j]
  }

  lemma AscendingGrows(r: seq<ThreadId>, m: ThreadId)
    requires Ascending(r) && forall i :: 0 <= i < |r| ==> r[i] < m
    ensures Ascending(r + [m])
  {
  }

  method SortIds(s: set<ThreadId>) returns (r: seq<ThreadId>)
    ensures Ascending(r)
    ensures (set x | x in r) == s
  {
    r := [];
    var rest := s;
    while rest != {}
      invariant Ascending(r)
      invariant forall x :: x in r ==> x in s
      invariant forall x :: x in s ==> x in r || x in rest
      invariant rest <= s
      invariant forall i, y :: 0 <= i < |r| && y in rest ==> r[i] < y
      decreases rest
    {
      ghost var least := LeastExists(rest);
      var m :| m in rest && forall y :: y in rest ==> m <= y;
      AscendingGrows(r, m);
      r, rest := r + [m], rest - {m};
    }
  }

  // ----- Operations on the table -----

  datatype Op =
    | Upsert(parent: ThreadId, child: ThreadId, status: Status)
    | SetStatus(child: ThreadId, status: Status)
    | InsertIfAbsent(parent: ThreadId, child: ThreadId)

  function Apply(g: Edges, op: Op): Edges {
    match op
    case Upsert(p, c, s) => g[c := Edge(p, s)]
    case SetStatus(c, s) => if c in g then g[c := Edge(g[c].parent, s)] else g
    case InsertIfAbsent(p, c) => if c in g then g else g[c := Edge(p, Open)]
  }

  predicate IsChild(g: Edges, f: Filter, parent: ThreadId, x: ThreadId) {
    x in g && g[x].parent == parent && Matches(g[x], f)
  }

  function Children(g: Edges, f: Filter, parent: ThreadId): set<ThreadId> {
    set x | x in g && IsChild(g, f, parent, x)
  }

  datatype Row = Row(id: ThreadId, depth: nat)

  function Ids(rows: seq<Row>): set<ThreadId> {
    set r | r in rows :: r.id
  }

  predicate RowBefore(a: Row, b: Row) {
    a.depth < b.depth || (a.depth == b.depth && a.id < b.id)
  }

  predicate Ordered(rows: seq<Row>) {
    forall i, j :: 0 <= i < j < |rows| ==> RowBefore(rows[i], rows[j])
  }

  predicate DistinctIds(rows: seq<Row>) {
    forall i, j :: 0 <= i < j < |rows| ==> rows[i].id != rows[j].id
  }

  function InsertRow(rows: seq<Row>, r: Row): (out: seq<Row>)
    requires Ordered(rows) && r.id !in Ids(rows)
    ensures Ordered(out)
    ensures forall x :: x in out <==> x == r || x in rows
  {
    if rows == [] then [r]
    else
      assert rows[0].id in Ids(rows);
      if RowBefore(r, rows[0]) then [r] + rows
      else
        assert forall x :: x in rows[1..] ==> x in rows;
        assert forall x :: x in rows ==> x == rows[0] || x in rows[1..];
        var rest := InsertRow(rows[1..], r);
        assert forall i :: 0 <= i < |rest| ==> rest[i] in rest && RowBefore(rows[0], rest[i]);
        [rows[0]] + rest
  }

  // ----- The store -----

  class SpawnGraphStore {
    var edges: Edges

    constructor ()
      ensures edges == map[]
    {
      edges := map[];
    }

    method UpsertEdge(parent: ThreadId, child: ThreadId, status: Status)
      modifies this
      ensures edges == old(edges)[child := Edge(parent, status)]
      ensures edges == Apply(old(edges), Upsert(parent, child, status))
    {
      edges := edges[child := Edge(parent, status)];
    }

    method SetEdgeStatus(child: ThreadId, status: Status)
      modifies this
      ensures child in old(edges) ==> edges == old(edges)[child := Edge(old(edges)[child].parent, status)]
      ensures child !in old(edges) ==> edges == old(edges)
      ensures edges == Apply(old(edges), SetStatus(child, status))
    {
      if child in edges {
        edges := edges[child := edges[child].(status := status)];
      }
    }

    method InsertEdgeIfAbsent(parent: ThreadId, child: ThreadId)
      modifies this
      ensures child in old(edges) ==> edges == old(edges)
      ensures child !in old(edges) ==> edges == old(edges)[child := Edge(parent, Open)]
      ensures edges == Apply(old(edges), InsertIfAbsent(parent, child))
    {
      if child !in edges {
        edges := edges[child := Edge(parent, Open)];
      }
    }

    method ListChildren(parent: ThreadId, f: Filter) returns (r: seq<ThreadId>)
      ensures forall x :: x in r <==> x in edges && edges[x].parent == parent && (f == None || f == Some(edges[x].status))
      ensures forall x :: x in r <==> DescendsAt(edges, f, parent, x, 1)
      ensures Ascending(r)
    {
      var found := Children(edges, f, parent);
      r := SortIds(found);
      forall x
        ensures x in r <==> DescendsAt(edges, f, parent, x, 1)
      {
        assert x in r <==> x in found;
        assert Ancestor(edges, f, x, 1) == Some(parent) <==> IsChild(edges, f, parent, x);
      }
    }

    method ListDescendants(root: ThreadId, f: Filter) returns (r: seq<ThreadId>)
      requires !OnCycle(edges, f, root)
      ensures IsListing(edges, f, root, r)
    {
      var done := CollectRows(edges, f, root);
      var rows := SortRows(done);
      r := seq(|rows|, i requires 0 <= i < |rows| => rows[i].id);
      SortedRowsAreListing(edges, f, root, done, rows, r);
    }
  }

  // The rows a recursive step adds for `parent`.
  method ChildRows(g: Edges, f: Filter, parent: ThreadId, depth: nat) returns (rows: seq<Row>)
    ensures Ids(rows) == Children(g, f, parent) && DistinctIds(rows)
    ensures forall r :: r in rows ==> r.depth == depth
  {
    var ids := SortIds(Children(g, f, parent));
    rows := [];
    for i := 0 to |ids|
      invariant |rows| == i && forall k :: 0 <= k < i ==> rows[k] == Row(ids[k], depth)
      invariant Ids(rows) == set x | x in ids[..i]
    {
      IdsWith(rows, Row(ids[i], depth));
      assert ids[..i + 1] == ids[..i] + [ids[i]];
      rows := rows + [Row(ids[i], depth)];
    }
    assert ids[..|ids|] == ids;
  }

  // The recursive query: a work queue of rows, each extracted row joined with the table,
  // and duplicates kept.
  method CollectRows(g: Edges, f: Filter, root: ThreadId) returns (done: seq<Row>)
    requires !OnCycle(g, f, root)
    ensures WorkInvariant(g, f, root, done, done)
  {
    var queue := ChildRows(g, f, root, 1);
    done := [];
    ChildRowsDescend(g, f, root, root, 0, queue);
    assert done + queue == queue;
    while queue != []
      invariant WorkInvariant(g, f, root, done, done + queue)
      decreases g.Keys - Ids(done)
    {
      var row := queue[0];
      var found := ChildRows(g, f, row.id, row.depth + 1);
      assert queue == [row] + queue[1..];
      DistinctSplit(done, row, queue[1..]);
      TakeRow(g, f, root, done, done + queue, row, found);
      IdsWith(done, row);
      assert (done + queue) + found == (done + [row]) + (queue[1..] + found);
      done, queue := done + [row], queue[1..] + found;
    }
    assert done + queue == done;
  }

  method SortRows(done: seq<Row>) returns (rows: seq<Row>)
    requires DistinctIds(done)
    ensures Ordered(rows)
    ensures forall x :: x in rows <==> x in done
  {
    rows := [];
    for i := 0 to |done|
      invariant Ordered(rows)
      invariant forall x :: x in rows <==> x in done[..i]
    {
      rows := InsertRow(rows, done[i]);
      assert done[..i + 1] == done[..i] + [done[i]];
    }
    assert done[..|done|] == done;
  }

  ghost predicate AllDescend(g: Edges, f: Filter, root: ThreadId, rows: seq<Row>) {
    forall r :: r in rows ==> DescendsAt(g, f, root, r.id, r.depth)
  }

  // Every child of `root` or of a finished row has been found.
  ghost predicate ChildrenFound(g: Edges, f: Filter, root: ThreadId, done: seq<Row>, found: set<ThreadId>) {
    && Children(g, f, root) <= found
    && forall r :: r in done ==> Children(g, f, r.id) <= found
  }

  // Every row was found through `root` or a finished row.
  ghost predicate FoundThrough(g: Edges, root: ThreadId, rows: seq<Row>, done: set<ThreadId>) {
    forall r :: r in rows ==> r.id in g && (g[r.id].parent == root || g[r.id].parent in done)
  }

  // `rows` holds the finished rows `done` and those still queued.
  ghost predicate WorkInvariant(g: Edges, f: Filter, root: ThreadId, done: seq<Row>, rows: seq<Row>) {
    && AllDescend(g, f, root, rows)
    && DistinctIds(rows)
    && ChildrenFound(g, f, root, done, Ids(rows))
    && FoundThrough(g, root, rows, Ids(done))
  }

  lemma ChildRowsDescend(g: Edges, f: Filter, root: ThreadId, parent: ThreadId, depth: nat, rows: seq<Row>)
    requires if depth == 0 then parent == root else DescendsAt(g, f, root, parent, depth)
    requires Ids(rows) == Children(g, f, parent) && forall r :: r in rows ==> r.depth == depth + 1
    ensures AllDescend(g, f, root, rows)
  {
    forall r | r in rows
      ensures DescendsAt(g, f, root, r.id, r.depth)
    {
      assert r.id in Ids(rows);
      assert Ancestor(g, f, r.id, depth + 1) == Ancestor(g, f, parent, depth);
    }
  }

  lemma IdsOfConcat(a: seq<Row>, b: seq<Row>)
    ensures Ids(a + b) == Ids(a) + Ids(b)
  {
    forall x | x in Ids(a) + Ids(b)
      ensures x in Ids(a + b)
    {
      if x in Ids(a) {
        var r :| r in a && r.id == x;
        assert r in a + b;
      } else {
        var r :| r in b && r.id == x;
        assert r in a + b;
      }
    }
  }

  lemma DistinctConcat(a: seq<Row>, b: seq<Row>)
    requires DistinctIds(a) && DistinctIds(b) && Ids(a) !! Ids(b)
    ensures DistinctIds(a + b)
  {
    var c := a + b;
    forall i, j | 0 <= i < j < |c|
      ensures c[i].id != c[j].id
    {
      if i < |a| <= j {
        assert a[i] in a && a[i].id in Ids(a);
        assert b[j - |a|] in b && b[j - |a|].id in Ids(b);
      }
    }
  }

  lemma DistinctSplit(a: seq<Row>, r: Row, b: seq<Row>)
    requires DistinctIds(a + ([r] + b))
    ensures r.id !in Ids(a)
  {
    var c := a + ([r] + b);
    assert c[|a|] == r;
    assert forall i :: 0 <= i < |a| ==> c[i] == a[i];
  }

  // The children of a row that is not finished yet are new.
  lemma ChildrenAreNew(g: Edges, f: Filter, root: ThreadId, done: seq<Row>, rows: seq<Row>, row: Row)
    requires !OnCycle(g, f, root) && row in rows && row.id !in Ids(done)
    requires WorkInvariant(g, f, root, done, rows)
    ensures Ids(rows) !! Children(g, f, row.id)
  {
    assert DescendsAt(g, f, root, row.id, row.depth);
    assert row.id != root;
    forall x | x in Ids(rows)
      ensures x !in Children(g, f, row.id)
    {
      var r :| r in rows && r.id == x;
    }
  }

  lemma TakeRow(g: Edges, f: Filter, root: ThreadId, done: seq<Row>, rows: seq<Row>, row: Row, found: seq<Row>)
    requires !OnCycle(g, f, root) && row in rows && row.id !in Ids(done)
    requires WorkInvariant(g, f, root, done, rows)
    requires Ids(found) == Children(g, f, row.id) && DistinctIds(found)
    requires forall r :: r in found ==> r.depth == row.depth + 1
    ensures row.id in g && WorkInvariant(g, f, root, done + [row], rows + found)
  {
    ChildrenAreNew(g, f, root, done, rows, row);
    ChildRowsDescend(g, f, root, row.id, row.depth, found);
    DistinctConcat(rows, found);
    IdsOfConcat(rows, found);
    IdsWith(done, row);
    RowStepKeeps(g, f, root, done, row, rows, found);
  }

  lemma IdsWith(done: seq<Row>, row: Row)
    ensures Ids(done + [row]) == Ids(done) + {row.id}
  {
    IdsOfConcat(done, [row]);
    assert row in [row];
  }

  lemma RowStepKeeps(g: Edges, f: Filter, root: ThreadId, done: seq<Row>, row: Row, rows: seq<Row>, found: seq<Row>)
    requires AllDescend(g, f, root, rows) && AllDescend(g, f, root, found)
    requires ChildrenFound(g, f, root, done, Ids(rows)) && FoundThrough(g, root, rows, Ids(done))
    requires Ids(found) == Children(g, f, row.id)
    requires Ids(done + [row]) == Ids(done) + {row.id} && Ids(rows + found) == Ids(rows) + Ids(found)
    ensures AllDescend(g, f, root, rows + found)
    ensures ChildrenFound(g, f, root, done + [row], Ids(rows + found))
    ensures FoundThrough(g, root, rows + found, Ids(done + [row]))
  {
    forall r | r in rows + found
      ensures r.id in g && (g[r.id].parent == root || g[r.id].parent in Ids(done + [row]))
    {
      if r in found {
        assert r.id in Ids(found);
      }
    }
  }

  lemma AllDescendantsCollected(g: Edges, f: Filter, root: ThreadId, done: seq<Row>)
    requires WorkInvariant(g, f, root, done, done)
    ensures forall x :: x in Ids(done) <==> Descends(g, f, root, x)
  {
    forall x, d: nat | DescendsAt(g, f, root, x, d)
      ensures x in Ids(done)
    {
      CollectedAtDepth(g, f, root, done, x, d);
    }
  }

  lemma {:induction false} CollectedAtDepth(g: Edges, f: Filter, root: ThreadId, done: seq<Row>, x: ThreadId, d: nat)
    requires WorkInvariant(g, f, root, done, done)
    requires DescendsAt(g, f, root, x, d)
    ensures x in Ids(done)
    decreases d
  {
    if d == 1 {
      assert x in Children(g, f, root);
    } else {
      var p := g[x].parent;
      CollectedAtDepth(g, f, root, done, p, d - 1);
      assert x in Children(g, f, p);
    }
  }

  lemma SortedRowsAreListing(g: Edges, f: Filter, root: ThreadId, done: seq<Row>, rows: seq<Row>, r: seq<ThreadId>)
    requires !OnCycle(g, f, root) && WorkInvariant(g, f, root, done, done)
    requires Ordered(rows) && forall x :: x in rows <==> x in done
    requires |r| == |rows| && forall i :: 0 <= i < |r| ==> r[i] == rows[i].id
    ensures IsListing(g, f, root, r)
  {
    AllDescendantsCollected(g, f, root, done);
    forall x
      ensures x in r <==> Descends(g, f, root, x)
    {
      if x in Ids(done) {
        var o :| o in done && o.id == x;
        assert o in rows;
        var k :| 0 <= k < |rows| && rows[k] == o;
        assert r[k] == x;
      }
      if x in r {
        var k :| 0 <= k < |r| && r[k] == x;
        assert rows[k] in rows;
      }
    }
    forall i, j, a: nat, b: nat
      | 0 <= i < j < |r| && DescendsAt(g, f, root, r[i], a) && DescendsAt(g, f, root, r[j], b)
      ensures a < b || (a == b && r[i] < r[j])
    {
      assert rows[i] in rows && rows[j] in rows;
      DepthIsUnique(g, f, root, r[i], a, rows[i].depth);
      DepthIsUnique(g, f, root, r[j], b, rows[j].depth);
    }
  }

  // ----- The filter, against the unfiltered listing -----

  lemma {:induction false} FilteredChainIsChain(g: Edges, f: Filter, x: ThreadId, d: nat)
    requires Ancestor(g, f, x, d).Some?
    ensures Ancestor(g, None, x, d) == Ancestor(g, f, x, d)
    decreases d
  {
    if d > 0 {
      FilteredChainIsChain(g, f, g[x].parent, d - 1);
    }
  }

  lemma FilteredCycleIsCycle(g: Edges, f: Filter, root: ThreadId)
    requires OnCycle(g, f, root)
    ensures OnCycle(g, None, root)
  {
    var d: nat :| DescendsAt(g, f, root, root, d);
    FilteredChainIsChain(g, f, root, d);
    assert DescendsAt(g, None, root, root, d);
  }

  lemma {:induction false} KeepIsOrdered(g: Edges, f: Filter, root: ThreadId, r: seq<ThreadId>, s: set<ThreadId>)
    requires forall i, j, a: nat, b: nat ::
               0 <= i < j < |r| && DescendsAt(g, f, root, r[i], a) && DescendsAt(g, f, root, r[j], b) ==>
                 a < b || (a == b && r[i] < r[j])
    ensures forall x :: x in Keep(r, s) <==> x in r && x in s
    ensures forall i, j, a: nat, b: nat ::
              0 <= i < j < |Keep(r, s)| && DescendsAt(g, f, root, Keep(r, s)[i], a) && DescendsAt(g, f, root, Keep(r, s)[j], b) ==>
                a < b || (a == b && Keep(r, s)[i] < Keep(r, s)[j])
  {
    if r != [] {
      var front, last := r[..|r| - 1], r[|r| - 1];
      KeepIsOrdered(g, f, root, front, s);
      var k := Keep(front, s);
      assert r == front + [last];
      if last in s {
        forall i, a: nat, b: nat | 0 <= i < |k| && DescendsAt(g, f, root, k[i], a) && DescendsAt(g, f, root, last, b)
          ensures a < b || (a == b && k[i] < last)
        {
          assert k[i] in k;
          var m :| 0 <= m < |front| && front[m] == k[i];
          assert r[m] == k[i];
        }
      }
    }
  }

  // A filtered listing is the unfiltered one with the threads dropped whose root path has a
  // non-matching edge.
  lemma FilteredListingIsSubsequence(g: Edges, f: Filter, root: ThreadId, all: seq<ThreadId>, r: seq<ThreadId>, kept: set<ThreadId>)
    requires !OnCycle(g, None, root)
    requires IsListing(g, None, root, all) && IsListing(g, f, root, r)
    requires forall x :: x in kept <==> Descends(g, f, root, x)
    ensures r == Keep(all, kept)
  {
    if OnCycle(g, f, root) {
      FilteredCycleIsCycle(g, f, root);
    }
    KeepIsOrdered(g, None, root, all, kept);
    var k := Keep(all, kept);
    forall x
      ensures x in k <==> Descends(g, f, root, x)
    {
      if Descends(g, f, root, x) {
        var d: nat :| DescendsAt(g, f, root, x, d);
        FilteredChainIsChain(g, f, x, d);
        assert DescendsAt(g, None, root, x, d);
      }
    }
    forall i, j, a: nat, b: nat
      | 0 <= i < j < |k| && DescendsAt(g, f, root, k[i], a) && DescendsAt(g, f, root, k[j], b)
      ensures a < b || (a == b && k[i] < k[j])
    {
      FilteredChainIsChain(g, f, k[i], a);
      FilteredChainIsChain(g, f, k[j], b);
      assert DescendsAt(g, None, root, k[i], a) && DescendsAt(g, None, root, k[j], b);
    }
    ListingIsUnique(g, f, root, r, k);
  }

  lemma ListingsByStatusAreDisjoint(g: Edges, root: ThreadId, s: Status, t: Status, r: seq<ThreadId>, q: seq<ThreadId>)
    requires s != t
    requires IsListing(g, Some(s), root, r) && IsListing(g, Some(t), root, q)
    ensures forall x :: x in r ==> x !in q
  {
    forall x | x in r
      ensures x !in q
    {
      var d: nat :| DescendsAt(g, Some(s), root, x, d);
      if x in q {
        var e: nat :| DescendsAt(g, Some(t), root, x, e);
      }
    }
  }

  // ----- Re-parenting -----

  // `x` is `c` or below it.
  ghost predicate InSubtree(g: Edges, f: Filter, c: ThreadId, x: ThreadId) {
    x == c || Descends(g, f, c, x)
  }

  lemma {:induction false} OutsideSubtreeUnchanged(g: Edges, f: Filter, c: ThreadId, e: Edge, x: ThreadId, d: nat)
    requires !InSubtree(g, f, c, x)
    ensures Ancestor(g[c := e], f, x, d) == Ancestor(g, f, x, d)
    decreases d
  {
    if d > 0 && x in g && Matches(g[x], f) {
      var p := g[x].parent;
      assert !InSubtree(g, f, c, p) by {
        if p == c {
          assert Ancestor(g, f, p, 0) == Some(c);
          assert DescendsAt(g, f, c, x, 1);
        } else if Descends(g, f, c, p) {
          var k: nat :| DescendsAt(g, f, c, p, k);
          assert DescendsAt(g, f, c, x, k + 1);
        }
      }
      OutsideSubtreeUnchanged(g, f, c, e, p, d - 1);
    }
  }

  // Up to the first time it meets `c`, a chain does not see `c`'s own edge.
  lemma {:induction false} InsideSubtreeUnchanged(g: Edges, f: Filter, c: ThreadId, e: Edge, x: ThreadId, k: nat, d: nat)
    requires !OnCycle(g, f, c)
    requires Ancestor(g, f, x, k) == Some(c) && d <= k
    ensures Ancestor(g[c := e], f, x, d) == Ancestor(g, f, x, d)
    decreases d
  {
    if d > 0 {
      assert DescendsAt(g, f, c, x, k);
      InsideSubtreeUnchanged(g, f, c, e, g[x].parent, k - 1, d - 1);
    }
  }

  // Giving `c` the edge `e` carries along exactly `c`'s subtree: every other thread keeps its
  // place under every root, and a thread `k` levels below `c` hangs `k + 1` levels below `e.parent`.
  lemma ReparentingMovesExactlyTheSubtree(g: Edges, f: Filter, c: ThreadId, e: Edge, root: ThreadId, x: ThreadId, d: nat)
    requires !OnCycle(g, f, c) && !InSubtree(g, f, c, e.parent)
    ensures !InSubtree(g, f, c, x) ==> (DescendsAt(g[c := e], f, root, x, d) <==> DescendsAt(g, f, root, x, d))
    ensures forall k: nat :: Ancestor(g, f, x, k) == Some(c) && k < d ==>
                               (DescendsAt(g[c := e], f, root, x, d) <==>
                                Matches(e, f) && Ancestor(g, f, e.parent, d - k - 1) == Some(root))
    ensures forall k: nat :: Ancestor(g, f, x, k) == Some(c) && d <= k ==>
                               (DescendsAt(g[c := e], f, root, x, d) <==> DescendsAt(g, f, root, x, d))
  {
    if !InSubtree(g, f, c, x) {
      OutsideSubtreeUnchanged(g, f, c, e, x, d);
    }
    forall k: nat | Ancestor(g, f, x, k) == Some(c)
      ensures k < d ==> (DescendsAt(g[c := e], f, root, x, d) <==>
                         Matches(e, f) && Ancestor(g, f, e.parent, d - k - 1) == Some(root))
      ensures d <= k ==> (DescendsAt(g[c := e], f, root, x, d) <==> DescendsAt(g, f, root, x, d))
    {
      if d <= k {
        InsideSubtreeUnchanged(g, f, c, e, x, k, d);
      } else {
        InsideSubtreeUnchanged(g, f, c, e, x, k, k);
        AncestorSplits(g[c := e], f, x, k, d - k);
        OutsideSubtreeUnchanged(g, f, c, e, e.parent, d - k - 1);
      }
    }
  }

  // ----- Runs -----

  ghost predicate Acyclic(g: Edges) {
    forall x :: !OnCycle(g, None, x)
  }

  lemma UpsertBelowItselfMakesACycle(g: Edges, c: ThreadId, e: Edge)
    requires !OnCycle(g, None, c) && InSubtree(g, None, c, e.parent)
    ensures OnCycle(g[c := e], None, c)
  {
    var h := g[c := e];
    var k: nat := 0;
    if e.parent != c {
      k :| DescendsAt(g, None, c, e.parent, k);
    }
    InsideSubtreeUnchanged(g, None, c, e, e.parent, k, k);
    assert Ancestor(h, None, c, k + 1) == Ancestor(h, None, e.parent, k);
    assert DescendsAt(h, None, c, c, k + 1);
  }

  // A cycle made by the new edge of `c` runs from its parent back down to `c`.
  lemma NewCyclePassesThroughParent(g: Edges, c: ThreadId, e: Edge, x: ThreadId)
    requires Acyclic(g) && OnCycle(g[c := e], None, x)
    ensures InSubtree(g, None, c, e.parent)
  {
    if !InSubtree(g, None, c, e.parent) {
      var d: nat :| DescendsAt(g[c := e], None, x, x, d);
      ReparentingMovesExactlyTheSubtree(g, None, c, e, x, x, d);
      assert !OnCycle(g, None, x);
      assert !DescendsAt(g, None, x, x, d);
      var k: nat := 0;
      if x != c {
        k :| DescendsAt(g, None, c, x, k);
      }
      assert Ancestor(g, None, x, k) == Some(c);
      ClimbThrough(g, c, x, e.parent, d - k - 1, k);
    }
  }

  lemma ClimbThrough(g: Edges, c: ThreadId, x: ThreadId, p: ThreadId, a: nat, b: nat)
    requires Ancestor(g, None, p, a) == Some(x) && Ancestor(g, None, x, b) == Some(c)
    ensures InSubtree(g, None, c, p)
  {
    AncestorSplits(g, None, p, a, b);
    if a + b > 0 {
      assert DescendsAt(g, None, c, p, a + b);
    }
  }

  // What a caller can check before an upsert: the new parent is neither the child nor below it.
  lemma UpsertStaysAcyclicIff(g: Edges, parent: ThreadId, child: ThreadId, status: Status)
    requires Acyclic(g)
    ensures Acyclic(Apply(g, Upsert(parent, child, status))) <==> !InSubtree(g, None, child, parent)
  {
    var e := Edge(parent, status);
    var h := g[child := e];
    if InSubtree(g, None, child, parent) {
      UpsertBelowItselfMakesACycle(g, child, e);
    } else {
      forall x
        ensures !OnCycle(h, None, x)
      {
        if OnCycle(h, None, x) {
          NewCyclePassesThroughParent(g, child, e, x);
        }
      }
    }
  }

  lemma {:induction false} StatusDoesNotMatter(g: Edges, c: ThreadId, status: Status, x: ThreadId, d: nat)
    ensures Ancestor(Apply(g, SetStatus(c, status)), None, x, d) == Ancestor(g, None, x, d)
    decreases d
  {
    if d > 0 && x in g {
      StatusDoesNotMatter(g, c, status, g[x].parent, d - 1);
    }
  }

  // Closing or reopening a thread leaves every unfiltered listing as it was.
  lemma SetStatusKeepsUnfilteredListings(g: Edges, c: ThreadId, status: Status, root: ThreadId, r: seq<ThreadId>)
    ensures IsListing(Apply(g, SetStatus(c, status)), None, root, r) <==> IsListing(g, None, root, r)
    ensures OnCycle(Apply(g, SetStatus(c, status)), None, root) <==> OnCycle(g, None, root)
  {
    var h := Apply(g, SetStatus(c, status));
    forall x: ThreadId, d: nat
      ensures DescendsAt(h, None, root, x, d) <==> DescendsAt(g, None, root, x, d)
    {
      StatusDoesNotMatter(g, c, status, x, d);
    }
  }

  function Run(g: Edges, ops: seq<Op>): Edges
    decreases |ops|
  {
    if ops == [] then g else Run(Apply(g, ops[0]), ops[1..])
  }

  // No operation hangs a thread below itself.
  ghost predicate Guarded(g: Edges, ops: seq<Op>)
    decreases |ops|
  {
    ops == [] ||
    (&& (match ops[0]
         case Upsert(p, c, _) => !InSubtree(g, None, c, p)
         case InsertIfAbsent(p, c) => c in g || !InSubtree(g, None, c, p)
         case SetStatus(_, _) => true)
     && Guarded(Apply(g, ops[0]), ops[1..]))
  }

  // Listing is defined after every guarded run, for every root and filter.
  lemma {:induction false} GuardedRunsStayAcyclic(g: Edges, ops: seq<Op>)
    requires Acyclic(g) && Guarded(g, ops)
    ensures Acyclic(Run(g, ops))
    ensures forall root, f :: !OnCycle(Run(g, ops), f, root)
    decreases |ops|
  {
    if ops == [] {
      forall root, f
        ensures !OnCycle(g, f, root)
      {
        if OnCycle(g, f, root) {
          FilteredCycleIsCycle(g, f, root);
        }
      }
    } else {
      match ops[0] {
        case Upsert(p, c, s) =>
          UpsertStaysAcyclicIff(g, p, c, s);
        case InsertIfAbsent(p, c) =>
          UpsertStaysAcyclicIff(g, p, c, Open);
        case SetStatus(c, s) =>
          var h := Apply(g, ops[0]);
          forall x
            ensures !OnCycle(h, None, x)
          {
            SetStatusKeepsUnfilteredListings(g, c, s, x, []);
          }
      }
      GuardedRunsStayAcyclic(Apply(g, ops[0]), ops[1..]);
    }
  }
}
