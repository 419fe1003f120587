// What each update of the spawn table does to the listings.
module SpawnUpdates {
  import opened Prelude
  import opened SpawnGraph

  // The table after an update, row by row.
  lemma TableAfter(g: Edges, op: Op, x: ThreadId)
    ensures var h := Apply(g, op);
            && (x != op.child ==> (x in h <==> x in g) && (x in g ==> h[x] == g[x]))
            && (op.Upsert? ==> op.child in h && h[op.child].parent == op.parent && h[op.child].status == op.status)
            && (op.SetStatus? ==> (op.child in h <==> op.child in g))
            && (op.SetStatus? && op.child in g ==> h[op.child].parent == g[op.child].parent && h[op.child].status == op.status)
            && (op.InsertIfAbsent? ==> op.child in h)
            && (op.InsertIfAbsent? && op.child in g ==> h == g)
            && (op.InsertIfAbsent? && op.child !in g ==> h[op.child].parent == op.parent && h[op.child].status == Open)
  {
  }

  // ----- A filtered descent is an unfiltered one over matching edges -----

  // The thread `k` levels above `x`.
  function Above(g: Edges, x: ThreadId, k: nat): Option<ThreadId> {
    Ancestor(g, None, x, k)
  }

  // The edge `k` levels above `x` passes the filter.
  predicate EdgePasses(g: Edges, f: Filter, x: ThreadId, k: nat) {
    && Above(g, x, k).Some? && Above(g, x, k).value in g
    && (f == None || f == Some(g[Above(g, x, k).value].status))
  }

  lemma {:induction false} ClimbMeans(g: Edges, f: Filter, root: ThreadId, x: ThreadId, d: nat)
    ensures Ancestor(g, f, x, d) == Some(root) <==>
            Above(g, x, d) == Some(root) && forall k: nat :: k < d ==> EdgePasses(g, f, x, k)
    decreases d
  {
    if d > 0 && x in g {
      var p := g[x].parent;
      forall k: nat
        ensures EdgePasses(g, f, x, k + 1) <==> EdgePasses(g, f, p, k)
      {
        assert Above(g, x, k + 1) == Above(g, p, k);
      }
      ClimbMeans(g, f, root, p, d - 1);
      assert EdgePasses(g, f, x, 0) <==> Matches(g[x], f);
      forall k: nat | k < d && k > 0
        ensures EdgePasses(g, f, x, k) <==> EdgePasses(g, f, p, k - 1)
      {
        assert EdgePasses(g, f, x, k - 1 + 1) <==> EdgePasses(g, f, p, k - 1);
      }
      if forall k: nat :: k < d ==> EdgePasses(g, f, x, k) {
        forall k: nat | k < d - 1
          ensures EdgePasses(g, f, p, k)
        {
          assert EdgePasses(g, f, x, k + 1);
        }
      }
    } else if d > 0 {
      assert !EdgePasses(g, f, x, 0);
    }
  }

  // ----- Status updates -----

  // After the status of `c` is set to `s`: `c` is listed under its parent by a filter exactly when
  // the filter is `s`, and every other child is listed as before.
  lemma StatusUpdateOnChildren(g: Edges, c: ThreadId, s: Status, f: Filter, p: ThreadId, x: ThreadId)
    requires c in g
    ensures var h := Apply(g, SetStatus(c, s));
            && (DescendsAt(h, f, p, c, 1) <==> p == g[c].parent && (f == None || f == Some(s)))
            && (x != c ==> (DescendsAt(h, f, p, x, 1) <==> DescendsAt(g, f, p, x, 1)))
  {
    var h := Apply(g, SetStatus(c, s));
    ChildMeans(h, f, p, c);
    ChildMeans(h, f, p, x);
    ChildMeans(g, f, p, x);
  }

  lemma ChildMeans(g: Edges, f: Filter, p: ThreadId, x: ThreadId)
    ensures DescendsAt(g, f, p, x, 1) <==> x in g && g[x].parent == p && (f == None || f == Some(g[x].status))
  {
    if x in g {
      assert Ancestor(g, f, g[x].parent, 0) == Some(g[x].parent);
    }
  }

  // The same for every descent: it is the descent of before, with `s` in place of the status of the
  // edge of `c` wherever the path crosses it.
  lemma StatusUpdateOnDescents(g: Edges, c: ThreadId, s: Status, f: Filter, root: ThreadId, x: ThreadId, d: nat)
    requires c in g
    ensures DescendsAt(Apply(g, SetStatus(c, s)), f, root, x, d) <==>
            && d > 0 && Above(g, x, d) == Some(root)
            && forall k: nat :: k < d ==> if Above(g, x, k) == Some(c) then f == None || f == Some(s) else EdgePasses(g, f, x, k)
  {
    var h := Apply(g, SetStatus(c, s));
    ClimbMeans(h, f, root, x, d);
    StatusDoesNotMatter(g, c, s, x, d);
    forall k: nat
      ensures EdgePasses(h, f, x, k) <==>
              if Above(g, x, k) == Some(c) then f == None || f == Some(s) else EdgePasses(g, f, x, k)
    {
      StatusDoesNotMatter(g, c, s, x, k);
    }
  }

  // A path that does not cross the edge is as it was.
  lemma StatusUpdateElsewhere(g: Edges, c: ThreadId, s: Status, f: Filter, root: ThreadId, x: ThreadId, d: nat)
    requires c in g && forall k: nat :: k < d ==> Above(g, x, k) != Some(c)
    ensures DescendsAt(Apply(g, SetStatus(c, s)), f, root, x, d) <==> DescendsAt(g, f, root, x, d)
  {
    StatusUpdateOnDescents(g, c, s, f, root, x, d);
    ClimbMeans(g, f, root, x, d);
  }

  // ----- Upserts and inserts -----

  // After an upsert the child is listed under its new parent alone, by its new status.
  lemma UpsertOnChildren(g: Edges, c: ThreadId, p: ThreadId, s: Status, f: Filter, q: ThreadId, x: ThreadId)
    ensures var h := Apply(g, Upsert(p, c, s));
            && (DescendsAt(h, f, q, c, 1) <==> q == p && (f == None || f == Some(s)))
            && (x != c ==> (DescendsAt(h, f, q, x, 1) <==> DescendsAt(g, f, q, x, 1)))
  {
    var h := Apply(g, Upsert(p, c, s));
    ChildMeans(h, f, q, c);
    ChildMeans(h, f, q, x);
    ChildMeans(g, f, q, x);
  }

  // An insert lists a new child as open, and leaves a known one alone.
  lemma InsertOnChildren(g: Edges, c: ThreadId, p: ThreadId, f: Filter, q: ThreadId, x: ThreadId)
    ensures var h := Apply(g, InsertIfAbsent(p, c));
            && (c !in g ==> (DescendsAt(h, f, q, c, 1) <==> q == p && (f == None || f == Some(Open))))
            && (x != c || c in g ==> (DescendsAt(h, f, q, x, 1) <==> DescendsAt(g, f, q, x, 1)))
  {
    var h := Apply(g, InsertIfAbsent(p, c));
    ChildMeans(h, f, q, c);
    ChildMeans(h, f, q, x);
    ChildMeans(g, f, q, x);
  }
}
