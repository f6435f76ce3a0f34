/** When an ancestor joins the segment that ends at a node: exactly when nothing is left aside of the way between. */
module Joining {
  import opened Prelude
  import opened Forest
  import opened Pruning

  /** What hangs off the way from `a` down to `e`: the nodes below `a` that are neither on that way nor below `e`. */
  ghost predicate AsideAt(t: Tree, e: Id, a: Id, x: Id)
    requires Grown(t) && e in t.parent
  {
    x in t.parent && a in Path(t, x) && x !in Path(t, e) && e !in Path(t, x)
  }

  ghost function Aside(t: Tree, e: Id, a: Id): (aside: set<Id>)
    requires Grown(t) && e in t.parent
    ensures forall x :: x in aside <==> AsideAt(t, e, a, x)
  {
    set x | x in t.parent && AsideAt(t, e, a, x)
  }

  // ---- Ancestors ----

  lemma {:induction false} PathComparable(t: Tree, a: Id, b: Id, x: Id)
    requires Grown(t) && x in t.parent && a in Path(t, x) && b in Path(t, x)
    ensures a in t.parent && b in t.parent && (a in Path(t, b) || b in Path(t, a))
    decreases Rank(t, x)
  {
    assert NodeOk(t, x);
    if a != x && b != x { PathComparable(t, a, b, t.parent[x].value); }
  }

  /** Below a proper ancestor there is one of its children. */
  lemma {:induction false} ChildOnPath(t: Tree, p: Id, x: Id) returns (c: Id)
    requires Grown(t) && x in t.parent && p in Path(t, x) && p != x
    ensures c in Children(t, p) && c in Path(t, x)
    decreases Rank(t, x)
  {
    assert NodeOk(t, x);
    var q := t.parent[x].value;
    if q == p { c := x; } else { c := ChildOnPath(t, p, q); }
  }

  lemma {:induction false} ChildlessBelow(t: Tree, x: Id) returns (y: Id)
    requires Grown(t) && x in t.parent
    ensures y in t.parent && Children(t, y) == {} && x in Path(t, y)
    decreases t.next - Rank(t, x)
  {
    assert NodeOk(t, x);
    if Children(t, x) == {} {
      y := x;
    } else {
      var c :| c in Children(t, x);
      assert NodeOk(t, c);
      y := ChildlessBelow(t, c);
      PathTransitive(t, x, c, y);
    }
  }

  lemma {:induction false} PathShrunk(t: Tree, u: Tree, x: Id)
    requires Shrunk(t, u) && x in u.parent
    ensures Path(u, x) == Path(t, x)
    decreases Rank(t, x)
  {
    assert NodeOk(u, x);
    if u.parent[x].Some? { PathShrunk(t, u, u.parent[x].value); }
  }

  lemma AsideShrunk(t: Tree, u: Tree, e: Id, a: Id)
    requires Shrunk(t, u) && e in u.parent
    ensures Aside(u, e, a) == Aside(t, e, a) * u.parent.Keys
  {
    PathShrunk(t, u, e);
    forall x ensures x in Aside(u, e, a) <==> x in Aside(t, e, a) && x in u.parent {
      if x in u.parent { PathShrunk(t, u, x); }
    }
  }

  /** What lies below something aside is aside. */
  lemma AsideBelow(t: Tree, e: Id, a: Id, x: Id, y: Id)
    requires Grown(t) && e in t.parent && y in t.parent && AsideAt(t, e, a, x) && x in Path(t, y)
    ensures AsideAt(t, e, a, y)
  {
    PathTransitive(t, a, x, y);
    if y in Path(t, e) { PathTransitive(t, x, y, e); }
    if e in Path(t, y) { PathComparable(t, e, x, y); }
  }

  // ---- Joining ----

  /** A sibling of a node on the way is aside of it. */
  lemma SiblingAside(t: Tree, e: Id, a: Id, c: Id)
    requires Grown(t) && e in t.parent && t.parent[e].Some? && a in Path(t, e) && a != e
    requires c in Children(t, t.parent[e].value) && c != e
    ensures AsideAt(t, e, a, c)
  {
    assert NodeOk(t, e) && NodeOk(t, c);
    var p := t.parent[e].value;
    if c in Path(t, p) { PathRank(t, c, p); }
    if e in Path(t, p) { PathRank(t, e, p); }
  }

  lemma AsideAbove(t: Tree, e: Id, a: Id, x: Id)
    requires Grown(t) && e in t.parent && t.parent[e].Some? && t.parent[e].value in t.parent
    requires AsideAt(t, t.parent[e].value, a, x)
    ensures AsideAt(t, e, a, x)
  {
    assert NodeOk(t, e);
    var p := t.parent[e].value;
    assert p in Path(t, p);
    if e in Path(t, x) { PathTransitive(t, p, e, x); }
  }

  /** An ancestor is in the segment that ends at `e` exactly when nothing is aside of the way down from it. */
  lemma {:induction false} JoinedExactly(t: Tree, e: Id, a: Id)
    requires Grown(t) && e in t.parent && a in Path(t, e)
    ensures a in Segment(t, e) <==> Aside(t, e, a) == {}
    decreases Rank(t, e)
  {
    assert NodeOk(t, e);
    if a == e {
      NothingAside(t, e);
    } else {
      var p := t.parent[e].value;
      JoinedExactly(t, p, a);
      if a in Segment(t, e) { JoinedClear(t, e, a); }
      if Aside(t, e, a) == {} { ClearJoined(t, e, a); }
    }
  }

  lemma NothingAside(t: Tree, e: Id)
    requires Grown(t) && e in t.parent
    ensures Aside(t, e, e) == {} && e in Segment(t, e)
  {
    forall x ensures !AsideAt(t, e, e, x) {}
  }

  lemma JoinedClear(t: Tree, e: Id, a: Id)
    requires Grown(t) && e in t.parent && a in Segment(t, e) && a != e
    requires t.parent[e].Some? && t.parent[e].value in t.parent && a in Path(t, t.parent[e].value)
    requires a in Segment(t, t.parent[e].value) <==> Aside(t, t.parent[e].value, a) == {}
    ensures Aside(t, e, a) == {}
  {
    var p := t.parent[e].value;
    assert e in Children(t, p);
    assert ChildCount(t, p) == 1 && Children(t, p) == {OnlyChild(t, p)};
    forall x ensures !AsideAt(t, e, a, x) {
      assert x !in Aside(t, p, a);
      if x in t.parent && p in Path(t, x) && p != x { var c := ChildOnPath(t, p, x); }
    }
  }

  lemma ClearJoined(t: Tree, e: Id, a: Id)
    requires Grown(t) && e in t.parent && Aside(t, e, a) == {} && a != e && a in Path(t, e)
    requires t.parent[e].Some? && t.parent[e].value in t.parent
    requires a in Segment(t, t.parent[e].value) <==> Aside(t, t.parent[e].value, a) == {}
    ensures a in Segment(t, e)
  {
    var p := t.parent[e].value;
    forall c | c in Children(t, p) ensures c == e {
      if c != e { SiblingAside(t, e, a, c); }
    }
    assert Children(t, p) == {e};
    forall x ensures !AsideAt(t, p, a, x) {
      if AsideAt(t, p, a, x) { AsideAbove(t, e, a, x); }
    }
  }

  /** A chain that ends at a node aside lies aside as a whole. */
  lemma SegmentAside(t: Tree, e: Id, a: Id, x: Id, y: Id)
    requires Grown(t) && e in t.parent && a in Path(t, e) && AsideAt(t, e, a, x) && y in Segment(t, x)
    ensures AsideAt(t, e, a, y)
  {
    SegmentInPath(t, x, y);
    JoinedExactly(t, x, y);
    assert e !in Aside(t, x, y);
    if e in Path(t, y) { PathTransitive(t, e, y, x); }
    PathComparable(t, a, y, x);
    if a !in Path(t, y) { PathTransitive(t, y, a, e); }
  }

  lemma {:induction false} SegmentInPath(t: Tree, e: Id, n: Id)
    requires Grown(t) && e in t.parent && n in Segment(t, e)
    ensures n in Path(t, e)
    decreases Rank(t, e)
  {
    assert NodeOk(t, e);
    if n != e { SegmentInPath(t, t.parent[e].value, n); }
  }
}
