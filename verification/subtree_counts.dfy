/**
 Counts of the resident nodes of every subtree, as the memory and the storage index keep them, and the test for
 a segment without residents below it.
 */
module SubtreeCounts {
  import opened Prelude
  import opened Forest

  /** Residents at or below `a`. */
  function Below(t: Tree, residents: set<Id>, a: Id): set<Id>
    requires Grown(t)
  {
    set r | r in residents && r in t.parent && a in Path(t, r)
  }

  function Count(subtree: map<Id, nat>, a: Id): nat { if a in subtree then subtree[a] else 0 }

  ghost predicate CountOk(t: Tree, residents: set<Id>, subtree: map<Id, nat>, a: Id)
    requires Grown(t)
  {
    Count(subtree, a) == |Below(t, residents, a)| && (a in subtree ==> subtree[a] > 0)
  }

  ghost predicate Counted(t: Tree, residents: set<Id>, subtree: map<Id, nat>)
    requires Grown(t)
  {
    forall a :: CountOk(t, residents, subtree, a)
  }

  ghost predicate RaisedAt(path: set<Id>, before: map<Id, nat>, after: map<Id, nat>, a: Id) {
    Count(after, a) == Count(before, a) + (if a in path then 1 else 0)
  }

  /** `after` counts one more node at every node of `path`. */
  ghost predicate Raised(path: set<Id>, before: map<Id, nat>, after: map<Id, nat>) {
    forall a :: RaisedAt(path, before, after, a)
  }

  lemma BelowInsert(t: Tree, residents: set<Id>, id: Id, a: Id)
    requires Grown(t) && id in t.parent && id !in residents
    ensures |Below(t, residents + {id}, a)| == |Below(t, residents, a)| + (if a in Path(t, id) then 1 else 0)
  {
    var below := Below(t, residents, a);
    if a in Path(t, id) {
      assert Below(t, residents + {id}, a) == below + {id};
    } else {
      assert Below(t, residents + {id}, a) == below;
    }
  }

  lemma InsertCounted(t: Tree, residents: set<Id>, before: map<Id, nat>, after: map<Id, nat>, id: Id)
    requires Grown(t) && id in t.parent && id !in residents
    requires Counted(t, residents, before) && Raised(Path(t, id), before, after)
    requires forall a <- after :: after[a] > 0
    ensures Counted(t, residents + {id}, after)
  {
    forall a: Id ensures CountOk(t, residents + {id}, after, a) {
      assert CountOk(t, residents, before, a) && RaisedAt(Path(t, id), before, after, a);
      BelowInsert(t, residents, id, a);
    }
  }

  lemma RemoveCounted(t: Tree, residents: set<Id>, before: map<Id, nat>, after: map<Id, nat>, id: Id)
    requires Grown(t) && id in t.parent && id in residents
    requires Counted(t, residents, before) && Raised(Path(t, id), after, before)
    requires forall a <- after :: after[a] > 0
    ensures Counted(t, residents - {id}, after)
  {
    forall a: Id ensures CountOk(t, residents - {id}, after, a) {
      assert CountOk(t, residents, before, a) && RaisedAt(Path(t, id), after, before, a);
      assert residents - {id} + {id} == residents;
      BelowInsert(t, residents - {id}, id, a);
    }
  }

  lemma CountsPositive(t: Tree, residents: set<Id>, subtree: map<Id, nat>)
    requires Grown(t) && Counted(t, residents, subtree)
    ensures forall a <- subtree :: subtree[a] > 0
  {
    forall a | a in subtree ensures subtree[a] > 0 { assert CountOk(t, residents, subtree, a); }
  }

  /** Every ancestor of a resident has a count. */
  lemma CountsOnPath(t: Tree, residents: set<Id>, subtree: map<Id, nat>, id: Id)
    requires Grown(t) && Counted(t, residents, subtree) && id in residents && id in t.parent
    ensures forall a <- Path(t, id) :: a in subtree
  {
    forall a | a in Path(t, id) ensures a in subtree {
      assert CountOk(t, residents, subtree, a) && id in Below(t, residents, a);
    }
  }

  /** Counts do not notice a node that is not resident. */
  lemma GrowCounted(t: Tree, u: Tree, n: Id, residents: set<Id>, subtree: map<Id, nat>)
    requires Grows(t, u, n) && residents <= t.parent.Keys
    ensures Counted(t, residents, subtree) <==> Counted(u, residents, subtree)
  {
    forall a: Id ensures Below(t, residents, a) == Below(u, residents, a) {
      forall r | r in residents ensures Path(u, r) == Path(t, r) { PathGrows(t, u, n, r); }
    }
    if Counted(t, residents, subtree) {
      forall a: Id ensures CountOk(u, residents, subtree, a) { assert CountOk(t, residents, subtree, a); }
    }
    if Counted(u, residents, subtree) {
      forall a: Id ensures CountOk(t, residents, subtree, a) { assert CountOk(u, residents, subtree, a); }
    }
  }

  /** No resident lies strictly below `e`. */
  predicate Bare(t: Tree, residents: set<Id>, e: Id)
    requires Grown(t)
  {
    forall r :: r in Below(t, residents, e) ==> r == e
  }

  /** The count of a subtree equals its root's own residency exactly when nothing below the root is resident. */
  lemma CountDecidesBare(t: Tree, residents: set<Id>, subtree: map<Id, nat>, e: Id)
    requires Grown(t) && Counted(t, residents, subtree) && e in t.parent
    ensures Count(subtree, e) == (if e in residents then 1 else 0) <==> Bare(t, residents, e)
  {
    var below := Below(t, residents, e);
    assert CountOk(t, residents, subtree, e);
    var own := if e in residents then {e} else {};
    assert own <= below;
    if |below| == |own| {
      assert |below - own| == 0;
      assert below == own;
    }
    if Bare(t, residents, e) { assert below == own; }
  }

  /** The path above a node does not come back to it. */
  lemma PathAcyclic(t: Tree, p: Id, n: Id)
    requires Grown(t) && p in t.parent && n in t.parent && t.parent[n] == Some(p)
    ensures n !in Path(t, p)
  {
    assert NodeOk(t, n);
    if n in Path(t, p) { PathRank(t, n, p); }
  }

  /** Adds (or removes) one resident on every count from `id` to the root. */
  method CountPath(t: Tree, id: Id, insert: bool, before: map<Id, nat>) returns (after: map<Id, nat>)
    requires Grown(t) && id in t.parent
    requires forall a <- before :: before[a] > 0
    requires !insert ==> forall a <- Path(t, id) :: a in before
    ensures if insert then Raised(Path(t, id), before, after) else Raised(Path(t, id), after, before)
    ensures forall a <- after :: after[a] > 0
  {
    after := before;
    var current := Some(id);
    ghost var left := Path(t, id);
    while current.Some?
      invariant current.Some? ==> current.value in t.parent && left == Path(t, current.value)
      invariant current.None? ==> left == {}
      invariant left <= Path(t, id)
      invariant forall a <- after :: after[a] > 0
      invariant !insert ==> forall a <- left :: a in after && after[a] == before[a]
      invariant if insert then Raised(Path(t, id) - left, before, after) else Raised(Path(t, id) - left, after, before)
      decreases if current.Some? then 1 + Rank(t, current.value) else 0
    {
      var a := current.value;
      ghost var done, last := Path(t, id) - left, after;
      assert NodeOk(t, a);
      if t.parent[a].Some? { PathAcyclic(t, t.parent[a].value, a); }
      if insert {
        after := after[a := Count(after, a) + 1];
      } else if after[a] == 1 {
        after := after - {a};
      } else {
        after := after[a := after[a] - 1];
      }
      current := t.parent[a];
      left := if current.Some? then Path(t, current.value) else {};
      assert Path(t, id) - left == done + {a};
      forall b: Id ensures if insert then RaisedAt(done + {a}, before, after, b) else RaisedAt(done + {a}, after, before, b) {
        assert if insert then RaisedAt(done, before, last, b) else RaisedAt(done, last, before, b);
      }
    }
    assert Path(t, id) - left == Path(t, id);
  }
}
