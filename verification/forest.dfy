/**
 The prefix tree as a forest: a parent map whose creation ranks grow from parent to child. A segment is a
 maximal chain in which every node but the last, the endpoint, has exactly one child.
 */
module Forest {
  import opened Prelude

  type Id = nat

  datatype Tree = Tree(parent: map<Id, Option<Id>>, rank: map<Id, nat>, next: nat)

  const EMPTY := Tree(map[], map[], 0)

  function Rank(t: Tree, n: Id): nat { if n in t.rank then t.rank[n] else 0 }

  ghost predicate NodeOk(t: Tree, n: Id) {
    n in t.parent ==>
      && Rank(t, n) < t.next
      && (t.parent[n].Some? ==> t.parent[n].value in t.parent && Rank(t, t.parent[n].value) < Rank(t, n))
  }

  ghost predicate Grown(t: Tree) { forall n :: NodeOk(t, n) }

  function Children(t: Tree, n: Id): set<Id> { set c | c in t.parent && t.parent[c] == Some(n) }

  function ChildCount(t: Tree, n: Id): nat { |Children(t, n)| }

  lemma OneMember<T>(s: set<T>, x: T)
    requires |s| == 1 && x in s
    ensures s == {x}
  {
    assert |s - {x}| == 0;
    assert s == (s - {x}) + {x};
  }

  function OnlyChild(t: Tree, n: Id): (c: Id)
    requires ChildCount(t, n) == 1
    ensures Children(t, n) == {c}
  {
    var c :| c in Children(t, n);
    OneMember(Children(t, n), c);
    assert forall d <- Children(t, n) :: d == c by {
      forall d | d in Children(t, n) ensures d == c { OneMember(Children(t, n), d); }
    }
    c
  }

  /** The endpoint of the segment that holds `n`. */
  function Leaf(t: Tree, n: Id): (e: Id)
    requires Grown(t) && n in t.parent
    ensures e in t.parent && ChildCount(t, e) != 1
    decreases t.next - Rank(t, n)
  {
    assert NodeOk(t, n);
    if ChildCount(t, n) != 1 then n
    else
      var c := OnlyChild(t, n);
      assert c in Children(t, n) && NodeOk(t, c);
      Leaf(t, c)
  }

  /** A node with its ancestors. */
  function Path(t: Tree, n: Id): (path: set<Id>)
    requires Grown(t) && n in t.parent
    ensures n in path && path <= t.parent.Keys
    decreases Rank(t, n)
  {
    assert NodeOk(t, n);
    if t.parent[n].None? then {n} else {n} + Path(t, t.parent[n].value)
  }

  /** The nodes of the segment that ends at `e`, top first. */
  function Segment(t: Tree, e: Id): (nodes: seq<Id>)
    requires Grown(t) && e in t.parent
    ensures nodes != [] && nodes[|nodes| - 1] == e && forall n <- nodes :: n in t.parent
    decreases Rank(t, e)
  {
    assert NodeOk(t, e);
    if t.parent[e].None? || ChildCount(t, t.parent[e].value) >= 2 then [e]
    else Segment(t, t.parent[e].value) + [e]
  }

  // ---- Segments partition the nodes ----

  lemma {:induction false} LeafBelow(t: Tree, n: Id)
    requires Grown(t) && n in t.parent
    ensures n in Path(t, Leaf(t, n))
    decreases t.next - Rank(t, n)
  {
    assert NodeOk(t, n);
    if ChildCount(t, n) == 1 {
      var c := OnlyChild(t, n);
      assert c in Children(t, n) && NodeOk(t, c);
      LeafBelow(t, c);
      PathTransitive(t, n, c, Leaf(t, c));
    }
  }

  lemma {:induction false} PathTransitive(t: Tree, a: Id, b: Id, c: Id)
    requires Grown(t) && b in t.parent && c in t.parent
    requires a in Path(t, b) && b in Path(t, c)
    ensures a in Path(t, c)
    decreases Rank(t, c)
  {
    assert NodeOk(t, c);
    if b != c { PathTransitive(t, a, b, t.parent[c].value); }
  }

  lemma {:induction false} PathRank(t: Tree, a: Id, n: Id)
    requires Grown(t) && n in t.parent && a in Path(t, n)
    ensures a == n || Rank(t, a) < Rank(t, n)
    decreases Rank(t, n)
  {
    assert NodeOk(t, n);
    if a != n { PathRank(t, a, t.parent[n].value); }
  }

  lemma {:induction false} SegmentShares(t: Tree, e: Id, n: Id)
    requires Grown(t) && e in t.parent && n in Segment(t, e)
    ensures Leaf(t, n) == Leaf(t, e) && n in Path(t, e)
    decreases Rank(t, e)
  {
    assert NodeOk(t, e);
    if n != e {
      var p := t.parent[e].value;
      SegmentShares(t, p, n);
      assert e in Children(t, p);
      assert ChildCount(t, p) != 0;
      assert Children(t, p) == {OnlyChild(t, p)};
    }
  }

  lemma {:induction false} LeafInSegment(t: Tree, n: Id)
    requires Grown(t) && n in t.parent
    ensures n in Segment(t, Leaf(t, n))
    decreases t.next - Rank(t, n)
  {
    assert NodeOk(t, n);
    if ChildCount(t, n) == 1 {
      var c := OnlyChild(t, n);
      assert c in Children(t, n) && NodeOk(t, c);
      LeafInSegment(t, c);
      SegmentUpward(t, Leaf(t, c), c);
    }
  }

  /** A segment is closed under moving to a parent with one child. */
  lemma {:induction false} SegmentUpward(t: Tree, e: Id, c: Id)
    requires Grown(t) && e in t.parent && c in Segment(t, e)
    requires t.parent[c].Some? && ChildCount(t, t.parent[c].value) == 1
    ensures t.parent[c].value in Segment(t, e)
    decreases Rank(t, e)
  {
    assert NodeOk(t, e);
    if c != e { SegmentUpward(t, t.parent[e].value, c); }
  }

  /** The segments partition the nodes: `n` belongs to the segment of an endpoint exactly when that endpoint is
      where the walk down from `n` stops. */
  lemma SegmentsPartition(t: Tree, e: Id, n: Id)
    requires Grown(t) && e in t.parent && ChildCount(t, e) != 1
    ensures n in Segment(t, e) <==> n in t.parent && Leaf(t, n) == e
  {
    if n in Segment(t, e) { SegmentShares(t, e, n); }
    if n in t.parent && Leaf(t, n) == e { LeafInSegment(t, n); }
  }

  lemma {:induction false} SegmentDistinct(t: Tree, e: Id)
    requires Grown(t) && e in t.parent
    ensures forall i, j | 0 <= i < j < |Segment(t, e)| :: Segment(t, e)[i] != Segment(t, e)[j]
    decreases Rank(t, e)
  {
    assert NodeOk(t, e);
    if !(t.parent[e].None? || ChildCount(t, t.parent[e].value) >= 2) {
      var p := t.parent[e].value;
      var above := Segment(t, p);
      SegmentDistinct(t, p);
      forall i | 0 <= i < |above| ensures above[i] != e {
        assert above[i] in above;
        SegmentShares(t, p, above[i]);
        PathRank(t, above[i], p);
      }
      assert Segment(t, e) == above + [e];
    }
  }

  // ---- Creating and pruning one node ----

  /** `u` is `t` with one more node `n`, which has no children. */
  ghost predicate Grows(t: Tree, u: Tree, n: Id) {
    && Grown(t) && Grown(u)
    && n !in t.parent && n in u.parent
    && u.parent == t.parent[n := u.parent[n]]
  }

  function Add(t: Tree, n: Id, parent: Option<Id>): Tree {
    Tree(t.parent[n := parent], t.rank[n := t.next], t.next + 1)
  }

  function Remove(t: Tree, n: Id): Tree { Tree(t.parent - {n}, t.rank - {n}, t.next) }

  lemma AddGrows(t: Tree, n: Id, parent: Option<Id>)
    requires Grown(t) && n !in t.parent && (parent.Some? ==> parent.value in t.parent)
    ensures Grows(t, Add(t, n, parent), n)
  {
    forall m ensures NodeOk(Add(t, n, parent), m) {
      assert NodeOk(t, m);
      if parent.Some? { assert NodeOk(t, parent.value); }
    }
  }

  lemma RemoveGrows(t: Tree, n: Id)
    requires Grown(t) && n in t.parent && Children(t, n) == {}
    ensures Grows(Remove(t, n), t, n)
  {
    forall m ensures NodeOk(Remove(t, n), m) {
      assert NodeOk(t, m);
      assert m !in Children(t, n);
    }
  }

  lemma ChildrenGrow(t: Tree, u: Tree, n: Id, m: Id)
    requires Grows(t, u, n)
    ensures Children(u, m) == Children(t, m) + (if u.parent[n] == Some(m) then {n} else {})
    ensures ChildCount(u, m) == ChildCount(t, m) + (if u.parent[n] == Some(m) then 1 else 0)
    ensures ChildCount(u, n) == 0 && u.parent[n] != Some(n)
    ensures u.parent[n].Some? ==> u.parent[n].value in t.parent
  {
    assert NodeOk(u, n);
    assert n !in Children(t, m);
    forall c | c in u.parent ensures u.parent[c] != Some(n) { assert NodeOk(u, c) && NodeOk(t, c); }
    assert Children(u, n) == {};
  }

  lemma {:induction false} PathGrows(t: Tree, u: Tree, n: Id, m: Id)
    requires Grows(t, u, n) && m in t.parent
    ensures Path(u, m) == Path(t, m)
    decreases Rank(t, m)
  {
    assert NodeOk(t, m);
    if t.parent[m].Some? { PathGrows(t, u, n, t.parent[m].value); }
  }

  /** How one more leaf under `p` changes the segment of an older node `m`: below a former endpoint the segment
      is extended; in the middle of a chain the segment is cut at `p`; elsewhere nothing changes. */
  lemma {:induction false} LeafGrows(t: Tree, u: Tree, n: Id, m: Id)
    requires Grows(t, u, n) && m in t.parent
    ensures Leaf(u, n) == n
    ensures u.parent[n].None? ==> Leaf(u, m) == Leaf(t, m)
    ensures u.parent[n].Some? ==>
      var p := u.parent[n].value;
      && p in t.parent
      && (ChildCount(t, p) == 0 ==> Leaf(u, m) == if Leaf(t, m) == p then n else Leaf(t, m))
      && (ChildCount(t, p) == 1 ==>
            && Leaf(u, m) == (if m in Segment(u, p) then p else Leaf(t, m))
            && (m in Segment(u, p) ==> Leaf(t, m) == Leaf(t, p)))
      && (ChildCount(t, p) >= 2 ==> Leaf(u, m) == Leaf(t, m))
    decreases u.next - Rank(u, m)
  {
    ChildrenGrow(t, u, n, m);
    assert NodeOk(t, m) && NodeOk(u, m);
    if u.parent[n].Some? {
      var p := u.parent[n].value;
      ChildrenGrow(t, u, n, p);
      if ChildCount(t, p) == 1 { SegmentsPartition(u, p, m); }
    }
    if ChildCount(t, m) == 1 {
      var c := OnlyChild(t, m);
      assert c in Children(t, m) && NodeOk(u, c);
      LeafGrows(t, u, n, c);
      if u.parent[n] != Some(m) {
        assert OnlyChild(u, m) == c by { assert OnlyChild(u, m) in Children(u, m); }
        if u.parent[n].Some? && ChildCount(t, u.parent[n].value) == 1 { SegmentsPartition(u, u.parent[n].value, c); }
      }
    } else if ChildCount(u, m) == 1 {
      assert OnlyChild(u, m) == n by { assert OnlyChild(u, m) in Children(u, m); }
    }
  }
}
