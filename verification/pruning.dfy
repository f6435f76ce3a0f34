/** What removing childless nodes does to a tree, its segments and its leaves without copies. */
module Pruning {
  import opened Prelude
  import opened Forest

  /** `u` is `t` without some of its nodes. */
  ghost predicate Shrunk(t: Tree, u: Tree) {
    Grown(t) && Grown(u) && forall n <- u.parent :: n in t.parent && u.parent[n] == t.parent[n] && Rank(u, n) == Rank(t, n)
  }

  /** Nodes that shared a segment still do, if they are still there. */
  ghost predicate SharesKept(t: Tree, u: Tree)
    requires Shrunk(t, u)
  {
    forall a, b :: a in u.parent && b in u.parent && Leaf(t, a) == Leaf(t, b) ==> Leaf(u, a) == Leaf(u, b)
  }

  lemma SharesThrough(t: Tree, u: Tree, v: Tree)
    requires Shrunk(t, u) && Shrunk(u, v) && SharesKept(t, u) && SharesKept(u, v)
    ensures Shrunk(t, v) && SharesKept(t, v)
  {}

  /** Removing a leaf merges segments and shortens them, but separates no two nodes. */
  lemma RemoveShares(t: Tree, n: Id)
    requires Grown(t) && n in t.parent && Children(t, n) == {}
    ensures Shrunk(t, Remove(t, n)) && SharesKept(t, Remove(t, n))
  {
    RemoveGrows(t, n);
    var u := Remove(t, n);
    forall a, b | a in u.parent && b in u.parent && Leaf(t, a) == Leaf(t, b) ensures Leaf(u, a) == Leaf(u, b) {
      LeafGrows(u, t, n, a);
      LeafGrows(u, t, n, b);
      ChildrenGrow(u, t, n, n);
    }
  }

  // ---- Pruning stays inside a zone ----

  /** A node outside the zone with a child inside has another child outside: removing zone nodes never makes
      it childless. */
  ghost predicate FencedAt(t: Tree, zone: iset<Id>, p: Id, c: Id) {
    p in t.parent && p !in zone && c in zone && c in Children(t, p) ==> exists d :: d in Children(t, p) && d !in zone
  }

  ghost predicate Fenced(t: Tree, zone: iset<Id>) { forall p, c :: FencedAt(t, zone, p, c) }

  lemma RemoveFenced(t: Tree, zone: iset<Id>, n: Id)
    requires Grown(t) && Fenced(t, zone) && n in t.parent && n in zone && Children(t, n) == {}
    ensures Fenced(Remove(t, n), zone)
  {
    var u := Remove(t, n);
    forall p: Id, c: Id ensures FencedAt(u, zone, p, c) {
      assert FencedAt(t, zone, p, c);
      if p in u.parent && p !in zone && c in zone && c in Children(u, p) {
        assert c in Children(t, p);
        var d :| d in Children(t, p) && d !in zone;
        assert d in Children(u, p);
      }
    }
  }

  /** The parent of a removed zone node is in the zone or keeps a child. */
  lemma FencedParent(t: Tree, zone: iset<Id>, n: Id)
    requires Grown(t) && Fenced(t, zone) && n in t.parent && n in zone && t.parent[n].Some?
    ensures t.parent[n].value in zone || Children(Remove(t, n), t.parent[n].value) != {}
  {
    assert NodeOk(t, n);
    var p := t.parent[n].value;
    assert FencedAt(t, zone, p, n) && n in Children(t, p);
    if p !in zone {
      var d :| d in Children(t, p) && d !in zone;
      assert d in Children(Remove(t, n), p);
    }
  }

  /** The first node of a segment: a root child or a child of a node with several children. */
  predicate Top(t: Tree, n: Id)
    requires n in t.parent
  {
    t.parent[n].None? || ChildCount(t, t.parent[n].value) >= 2
  }

  lemma {:induction false} TopUnique(t: Tree, e: Id, a: Id, b: Id)
    requires Grown(t) && e in t.parent && a in Segment(t, e) && b in Segment(t, e) && Top(t, a) && Top(t, b)
    ensures a == b
    decreases Rank(t, e)
  {
    assert NodeOk(t, e);
    if !Top(t, e) { TopUnique(t, t.parent[e].value, a, b); }
  }

  /** Segments are fenced: pruning inside one never climbs out of it. */
  lemma SegmentFenced(t: Tree, e: Id)
    requires Grown(t) && e in t.parent
    ensures Fenced(t, iset n | n in Segment(t, e))
  {
    var zone := iset n | n in Segment(t, e);
    forall p: Id, c: Id ensures FencedAt(t, zone, p, c) {
      if p in t.parent && p !in zone && c in zone && c in Children(t, p) {
        if ChildCount(t, p) == 1 { SegmentUpward(t, e, c); }
        assert Children(t, p) - {c} != {} by { assert |Children(t, p) - {c}| >= 1; }
        var d :| d in Children(t, p) - {c};
        if d in zone { TopUnique(t, e, c, d); }
      }
    }
  }

  /** The first node of a segment hangs below a branching node above the segment. */
  lemma {:induction false} SegmentTop(t: Tree, e: Id)
    requires Grown(t) && e in t.parent
    ensures var top := Segment(t, e)[0];
      && Top(t, top) && Rank(t, top) <= Rank(t, e)
      && (t.parent[top].Some? ==> t.parent[top].value in t.parent && Rank(t, t.parent[top].value) < Rank(t, e)
                                  && t.parent[top].value !in Segment(t, e))
    decreases Rank(t, e)
  {
    assert NodeOk(t, e);
    if Top(t, e) {
    } else {
      var p := t.parent[e].value;
      SegmentTop(t, p);
      assert Segment(t, e)[0] == Segment(t, p)[0];
    }
  }

  /** A segment whose nodes all survive pruning is part of the segment its endpoint has then. */
  lemma {:induction false} SegmentKept(t: Tree, u: Tree, e: Id)
    requires Shrunk(t, u) && e in t.parent && forall n <- Segment(t, e) :: n in u.parent
    ensures e in u.parent && forall n <- Segment(t, e) :: n in Segment(u, e)
    decreases Rank(t, e)
  {
    assert e in Segment(t, e);
    assert NodeOk(t, e) && NodeOk(u, e);
    if !Top(t, e) {
      var p := t.parent[e].value;
      assert p in Segment(t, p);
      SegmentKept(t, u, p);
      FewerChildren(t, u, p);
    }
  }

  lemma FewerChildren(t: Tree, u: Tree, p: Id)
    requires Shrunk(t, u)
    ensures ChildCount(u, p) <= ChildCount(t, p)
  {
    assert Children(u, p) <= Children(t, p);
    SubsetSize(Children(u, p), Children(t, p));
  }

  lemma SubsetSize<T>(a: set<T>, b: set<T>)
    requires a <= b
    ensures |a| <= |b|
  {
    assert b == a + (b - a);
  }

  // ---- Leaves without copies ----

  ghost predicate BareLeaf(t: Tree, copies: set<Id>, active: Option<Id>, n: Id) {
    n in t.parent && Children(t, n) == {} && n !in copies && active != Some(n)
  }

  /** Every leaf without a copy, other than the node being accessed, is in `suspects`. */
  ghost predicate BareWithin(t: Tree, copies: set<Id>, active: Option<Id>, suspects: set<Id>) {
    forall n :: BareLeaf(t, copies, active, n) ==> n in suspects
  }

  lemma RemoveBare(t: Tree, copies: set<Id>, active: Option<Id>, suspects: set<Id>, n: Id)
    requires Grown(t) && n in t.parent && Children(t, n) == {} && BareWithin(t, copies, active, suspects + {n})
    ensures BareWithin(Remove(t, n), copies, active,
                       suspects + (if t.parent[n].Some? then {t.parent[n].value} else {}))
  {
    RemoveGrows(t, n);
    var u := Remove(t, n);
    forall m | BareLeaf(u, copies, active, m) ensures m in suspects || t.parent[n] == Some(m) {
      ChildrenGrow(u, t, n, m);
      if t.parent[n] != Some(m) { assert BareLeaf(t, copies, active, m); }
    }
  }

  /** A node that loses a copy becomes a suspect. */
  lemma LoseCopy(t: Tree, copies: set<Id>, fewer: set<Id>, active: Option<Id>, suspects: set<Id>, n: Id)
    requires BareWithin(t, copies, active, suspects) && copies <= fewer + {n}
    ensures BareWithin(t, fewer, active, suspects + {n})
  {
    forall m | BareLeaf(t, fewer, active, m) ensures m in suspects + {n} {
      if m != n { assert BareLeaf(t, copies, active, m); }
    }
  }

  lemma GainCopy(t: Tree, copies: set<Id>, more: set<Id>, active: Option<Id>, suspects: set<Id>)
    requires BareWithin(t, copies, active, suspects) && copies <= more
    ensures BareWithin(t, more, active, suspects)
  {
    forall m: Id ensures BareLeaf(t, more, active, m) ==> m in suspects {
      assert BareLeaf(t, copies, active, m) ==> m in suspects;
    }
  }

  /** A new leaf is the only suspect while it is being accessed. */
  lemma AddBare(t: Tree, copies: set<Id>, n: Id, parent: Option<Id>)
    requires Grown(t) && n !in t.parent && (parent.Some? ==> parent.value in t.parent)
    requires BareWithin(t, copies, None, {})
    ensures BareWithin(Add(t, n, parent), copies, Some(n), {})
  {
    AddGrows(t, n, parent);
    var u := Add(t, n, parent);
    forall m: Id ensures !BareLeaf(u, copies, Some(n), m) {
      ChildrenGrow(t, u, n, m);
      assert BareLeaf(t, copies, None, m) ==> m in {};
    }
  }
}
