/** Choosing the blocks of one eviction round. */
module SimulatorEviction {
  import opened Prelude
  import opened Forest
  import opened Pruning

  /** A memory policy's decision: the endpoint of a segment, whether to drop or to dump its blocks, up to how many,
      and whether to go on with the parent segment after a round that had nothing to write. */
  datatype Eviction = Eviction(endpoint: Id, drop: bool, reclaimParent: bool, most: nat)

  /** What memory policies ask for: the segment holds a memory block. */
  ghost predicate EvictionOk(t: Tree, memory: set<Id>, d: Eviction) {
    Grown(t) && d.endpoint in t.parent && d.most > 0 && exists n <- Segment(t, d.endpoint) :: n in memory
  }

  /** The `n` last elements of a list that are in a set, in order; all of them if there are fewer. */
  function Deepest(nodes: seq<Id>, memory: set<Id>, n: nat): (kept: seq<Id>)
    ensures |kept| <= n && forall x <- kept :: x in nodes && x in memory
    ensures n > 0 && (exists x <- nodes :: x in memory) ==> kept != []
    ensures |kept| < n ==> forall x <- nodes :: x in memory ==> x in kept
  {
    if nodes == [] || n == 0 then []
    else
      var last := nodes[|nodes| - 1];
      if last in memory then Deepest(nodes[..|nodes| - 1], memory, n - 1) + [last]
      else Deepest(nodes[..|nodes| - 1], memory, n)
  }

  /** The elements of a list that are in a set, in order. */
  function Among(nodes: seq<Id>, memory: set<Id>): seq<Id> {
    if nodes == [] then []
    else Among(nodes[..|nodes| - 1], memory) + (if nodes[|nodes| - 1] in memory then [nodes[|nodes| - 1]] else [])
  }

  /** The chosen elements are all those of a suffix, and of the whole list unless there are `n` of them: nothing
      above a kept element is chosen. */
  lemma {:induction false} DeepestIsSuffix(nodes: seq<Id>, memory: set<Id>, n: nat) returns (i: nat)
    ensures i <= |nodes| && Deepest(nodes, memory, n) == Among(nodes[i..], memory)
    ensures i == 0 || |Deepest(nodes, memory, n)| == n
  {
    if nodes == [] || n == 0 {
      i := |nodes|;
    } else {
      var above, last := nodes[..|nodes| - 1], nodes[|nodes| - 1];
      i := DeepestIsSuffix(above, memory, if last in memory then n - 1 else n);
      assert nodes[i..] == above[i..] + [last];
      assert nodes[i..][..|nodes[i..]| - 1] == above[i..];
    }
  }

  lemma {:induction false} DeepestDistinct(nodes: seq<Id>, memory: set<Id>, n: nat)
    requires Distinct(nodes)
    ensures Distinct(Deepest(nodes, memory, n))
  {
    if nodes != [] && n != 0 {
      var above, last := nodes[..|nodes| - 1], nodes[|nodes| - 1];
      assert forall x <- above :: x != last;
      if last in memory {
        DeepestDistinct(above, memory, n - 1);
      } else {
        DeepestDistinct(above, memory, n);
      }
    }
  }

  /** The blocks that no storage copy backs, in order. */
  function Unwritten(nodes: seq<Id>, stored: set<Id>): (kept: seq<Id>)
    ensures forall n :: n in kept <==> n in nodes && n !in stored
  {
    if nodes == [] then []
    else (if nodes[0] !in stored then [nodes[0]] else []) + Unwritten(nodes[1..], stored)
  }

  lemma {:induction false} UnwrittenDistinct(nodes: seq<Id>, stored: set<Id>)
    requires Distinct(nodes)
    ensures Distinct(Unwritten(nodes, stored))
  {
    if nodes != [] {
      UnwrittenDistinct(nodes[1..], stored);
      var rest := Unwritten(nodes[1..], stored);
      forall i | 0 <= i < |rest| ensures rest[i] != nodes[0] { assert rest[i] in nodes[1..]; }
    }
  }

  lemma {:induction false} DistinctSize<T>(s: seq<T>)
    requires Distinct(s)
    ensures |Elems(s)| == |s|
  {
    if s != [] {
      var last, rest := s[|s| - 1], s[..|s| - 1];
      DistinctSize(rest);
      OneMore(rest, last);
      assert s == rest + [last];
    }
  }

  lemma OneMore<T>(s: seq<T>, x: T)
    requires x !in s
    ensures |Elems(s + [x])| == |Elems(s)| + 1
  {
    assert Elems(s + [x]) == Elems(s) + {x};
  }

  lemma {:induction false} DeepestSame(nodes: seq<Id>, a: set<Id>, b: set<Id>, n: nat)
    requires forall x <- nodes :: x in a <==> x in b
    ensures Deepest(nodes, a, n) == Deepest(nodes, b, n)
  {
    if nodes != [] && n != 0 {
      var above, last := nodes[..|nodes| - 1], nodes[|nodes| - 1];
      DeepestSame(above, a, b, if last in a then n - 1 else n);
    }
  }

  lemma {:induction false} UnwrittenAppend(a: seq<Id>, b: seq<Id>, stored: set<Id>)
    ensures Unwritten(a + b, stored) == Unwritten(a, stored) + Unwritten(b, stored)
  {
    if a == [] {
      assert a + b == b;
    } else {
      assert (a + b)[1..] == a[1..] + b;
      UnwrittenAppend(a[1..], b, stored);
    }
  }

  // ---- The walk up the segments ----

  /** The blocks that an eviction takes out of memory: those of the segment that ends at `e`; if they have all been
      written and the policy wants the parents too, those of the segment above as well, and so on. */
  function Walk(t: Tree, memory: set<Id>, stored: set<Id>, d: Eviction, e: Id): (gone: seq<Id>)
    requires Grown(t) && e in t.parent
    ensures forall n <- gone :: n in memory && n in t.parent
    ensures d.most > 0 && (exists n <- Segment(t, e) :: n in memory) ==> gone != []
    decreases Rank(t, e)
  {
    var nodes := Deepest(Segment(t, e), memory, d.most);
    SegmentTop(t, e);
    var parent := t.parent[Segment(t, e)[0]];
    if d.drop || !d.reclaimParent || parent.None? || Unwritten(nodes, stored) != [] then nodes
    else nodes + Walk(t, memory, stored, d, parent.value)
  }

  /** Since `t`, the walk to `e` has pruned only below `e`. */
  ghost predicate Unaffected(t: Tree, u: Tree, e: Id) {
    && Shrunk(t, u) && e in t.parent
    && forall n <- t.parent :: n !in u.parent ==> BelowRank(t, n, Rank(t, e))
  }

  ghost predicate BelowRank(t: Tree, n: Id, rank: nat) {
    n in t.parent && Rank(t, n) > rank && (t.parent[n].Some? ==> Rank(t, t.parent[n].value) >= rank)
  }

  lemma {:induction false} SegmentUnaffected(t: Tree, u: Tree, e: Id)
    requires Unaffected(t, u, e)
    ensures e in u.parent && Segment(u, e) == Segment(t, e)
    decreases Rank(t, e)
  {
    assert NodeOk(t, e);
    if t.parent[e].Some? {
      var p := t.parent[e].value;
      forall n | n in t.parent && n !in u.parent ensures BelowRank(t, n, Rank(t, p)) {
        assert BelowRank(t, n, Rank(t, e));
      }
      assert Children(u, p) == Children(t, p) by {
        forall c | c in Children(t, p) ensures c in Children(u, p) {
          assert c !in u.parent ==> BelowRank(t, c, Rank(t, e));
        }
      }
      SegmentUnaffected(t, u, p);
    }
  }

  /** The nodes of a segment are no higher than its first, and each but the first hangs below another one. */
  lemma {:induction false} SegmentRanks(t: Tree, e: Id, n: Id)
    requires Grown(t) && e in t.parent && n in Segment(t, e)
    ensures Rank(t, Segment(t, e)[0]) <= Rank(t, n) <= Rank(t, e)
    ensures n != Segment(t, e)[0] ==> t.parent[n].Some? && t.parent[n].value in Segment(t, e)
    decreases Rank(t, e)
  {
    assert NodeOk(t, e);
    if !Top(t, e) {
      var p := t.parent[e].value;
      assert Segment(t, e)[0] == Segment(t, p)[0];
      SegmentTop(t, p);
      if n != e { SegmentRanks(t, p, n); }
    }
  }

  /** What a round that prunes within its segment leaves unaffected: the segment above. */
  lemma RoundUnaffected(t: Tree, u: Tree, w: Tree, e: Id)
    requires Unaffected(t, u, e) && Shrunk(u, w) && (forall n <- u.parent :: n !in w.parent ==> n in Segment(t, e))
    requires t.parent[Segment(t, e)[0]].Some?
    ensures Unaffected(t, w, t.parent[Segment(t, e)[0]].value)
  {
    var top := Segment(t, e)[0];
    assert top in Segment(t, e);
    SegmentTop(t, e);
    var p := t.parent[top].value;
    forall n | n in t.parent && n !in w.parent ensures BelowRank(t, n, Rank(t, p)) {
      assert NodeOk(t, n);
      if n in u.parent {
        SegmentRanks(t, e, n);
        if n != top { SegmentRanks(t, e, t.parent[n].value); }
        assert NodeOk(t, top);
      } else {
        assert BelowRank(t, n, Rank(t, e));
      }
    }
  }
}
