/** The per-block table that every storage policy keeps, and the two scans of it that choose a segment to trim. */
module StorageScan {
  import opened Prelude
  import opened Forest
  import opened Tiers
  import opened SubtreeCounts
  import opened StorageIndex
  import opened StorageVictim

  datatype Record = Record(tier: Tier, first: nat, last: nat)

  /** The table names exactly the stored blocks, with their tier and latest use. */
  ghost predicate Mirrors(entries: map<Id, Record>, store: map<Id, Copy>) {
    entries.Keys == store.Keys
    && forall n <- store :: n in entries && entries[n].tier == store[n].tier && entries[n].last == store[n].last
  }

  class PolicyState {
    var entries: map<Id, Record>

    constructor ()
      ensures entries == map[]
    {
      entries := map[];
    }

    method Dumped(nodes: seq<Id>, tier: Tier, now: nat)
      modifies this
      ensures entries.Keys == old(entries).Keys + Elems(nodes)
      ensures forall n <- entries :: entries[n] == if n in nodes then Record(tier, now, now) else old(entries)[n]
    {
      for i := 0 to |nodes|
        invariant entries.Keys == old(entries).Keys + Elems(nodes[..i])
        invariant forall n <- entries :: entries[n] == if n in nodes[..i] then Record(tier, now, now) else old(entries)[n]
      {
        ElemsStep(nodes, i);
        assert nodes[..i + 1] == nodes[..i] + [nodes[i]];
        entries := entries[nodes[i] := Record(tier, now, now)];
      }
      assert nodes[..|nodes|] == nodes;
    }

    /** Trims of capacity or idleness and prunes of nodes. */
    method Erased(nodes: seq<Id>)
      modifies this
      ensures entries == old(entries) - Elems(nodes)
    {
      assert Elems(nodes[..0]) == {};
      for i := 0 to |nodes|
        invariant entries == old(entries) - Elems(nodes[..i])
      {
        ElemsStep(nodes, i);
        entries := entries - {nodes[i]};
      }
      assert nodes[..|nodes|] == nodes;
    }

    method Touched(nodes: seq<Id>, now: nat)
      modifies this
      ensures entries.Keys == old(entries).Keys
      ensures forall n <- entries :: entries[n] == if n in nodes then old(entries)[n].(last := now) else old(entries)[n]
    {
      for i := 0 to |nodes|
        invariant entries.Keys == old(entries).Keys
        invariant forall n <- entries :: entries[n] == if n in nodes[..i] then old(entries)[n].(last := now) else old(entries)[n]
      {
        assert nodes[..i + 1] == nodes[..i] + [nodes[i]];
        if nodes[i] in entries { entries := entries[nodes[i] := entries[nodes[i]].(last := now)]; }
      }
      assert nodes[..|nodes|] == nodes;
    }

    /** The blocks of one tier in the segment that ends at `e`, and their latest use. */
    method SegmentLast(t: Tree, store: map<Id, Copy>, e: Id, tier: Tier) returns (count: nat, last: nat)
      requires Grown(t) && e in t.parent && ChildCount(t, e) != 1 && store.Keys <= t.parent.Keys && Mirrors(entries, store)
      ensures count == |Stored(t, store, e, tier)| && Latest(store, Stored(t, store, e, tier), last)
    {
      var nodes := Segment(t, e);
      SegmentDistinct(t, e);
      count, last := 0, 0;
      for i := 0 to |nodes|
        invariant count == |StoredAmong(store, nodes[..i], tier)| && Latest(store, StoredAmong(store, nodes[..i], tier), last)
      {
        OneMoreStored(store, nodes, i, tier, last);
        var n := nodes[i];
        if n in store && store[n].tier == tier {
          count := count + 1;
          if entries[n].last > last { last := entries[n].last; }
        }
      }
      assert nodes[..|nodes|] == nodes;
      StoredInSegment(t, store, e, tier);
    }

    /** The latest use of a segment, and whether the policy may trim it. */
    method Judge(t: Tree, store: map<Id, Copy>, shielded: set<Id>, tier: Tier, e: Id) returns (last: nat, trimmable: bool)
      requires Grown(t) && e in t.parent && ChildCount(t, e) != 1 && store.Keys <= t.parent.Keys && Mirrors(entries, store)
      ensures Latest(store, Stored(t, store, e, tier), last)
      ensures trimmable <==> Stored(t, store, e, tier) != {} && Bare(t, store.Keys, e) && !Intersects(t, e, shielded)
    {
      var count;
      count, last := SegmentLast(t, store, e, tier);
      trimmable := count != 0 && Bare(t, store.Keys, e) && !Intersects(t, e, shielded);
    }

    /** The original scan: each entry of the tier leads to its segment, each segment is judged once. */
    method LruLeafScan(t: Tree, store: map<Id, Copy>, shielded: set<Id>, tier: Tier) returns (best: Option<Time>)
      requires Grown(t) && store.Keys <= t.parent.Keys && Mirrors(entries, store)
      ensures LruLeaf(t, store, shielded, tier, best)
    {
      best := None;
      var visited: set<Id> := {};
      var rest := entries.Keys;
      while rest != {}
        invariant rest <= entries.Keys && visited <= t.parent.Keys
        invariant forall n <- entries.Keys - rest :: entries[n].tier == tier ==> Leaf(t, n) in visited
        invariant VisitedBest(t, store, shielded, tier, visited, best)
        decreases rest
      {
        var n := Least(rest);
        rest := rest - {n};
        if entries[n].tier == tier && Leaf(t, n) !in visited {
          var endpoint := Leaf(t, n);
          var last, trimmable := Judge(t, store, shielded, tier, endpoint);
          JudgeOnce(t, store, shielded, tier, visited, best, Time(last, endpoint), trimmable);
          visited := visited + {endpoint};
          if trimmable && (best.None? || last < best.value.last || (last == best.value.last && endpoint < best.value.endpoint)) {
            best := Some(Time(last, endpoint));
          }
        }
      }
      VisitedAll(t, store, shielded, tier, visited, best);
    }

    /** The fused scan: marks every node of a judged segment instead of its endpoint. */
    method LruLeafFused(t: Tree, store: map<Id, Copy>, shielded: set<Id>, tier: Tier) returns (best: Option<Time>)
      requires Grown(t) && store.Keys <= t.parent.Keys && Mirrors(entries, store)
      ensures LruLeaf(t, store, shielded, tier, best)
    {
      best := None;
      var visitedNodes: set<Id> := {};
      ghost var visited: set<Id> := {};
      var rest := entries.Keys;
      while rest != {}
        invariant rest <= entries.Keys && visited <= t.parent.Keys && Marked(t, visited, visitedNodes)
        invariant forall n <- entries.Keys - rest :: entries[n].tier == tier ==> Leaf(t, n) in visited
        invariant VisitedBest(t, store, shielded, tier, visited, best)
        decreases rest
      {
        var n := Least(rest);
        rest := rest - {n};
        assert MarkedOk(t, visited, visitedNodes, n);
        if entries[n].tier == tier && n !in visitedNodes {
          var endpoint := Leaf(t, n);
          var last, trimmable := Judge(t, store, shielded, tier, endpoint);
          JudgeOnce(t, store, shielded, tier, visited, best, Time(last, endpoint), trimmable);
          MarkSegment(t, visited, visitedNodes, endpoint);
          visitedNodes := visitedNodes + Elems(Segment(t, endpoint));
          visited := visited + {endpoint};
          if trimmable && (best.None? || (best.value != Time(last, endpoint) && Earlier(Time(last, endpoint), best.value))) {
            best := Some(Time(last, endpoint));
          }
        }
      }
      VisitedAll(t, store, shielded, tier, visited, best);
    }
  }

  ghost predicate MarkedOk(t: Tree, visited: set<Id>, nodes: set<Id>, n: Id)
    requires Grown(t)
  {
    n in nodes <==> n in t.parent && Leaf(t, n) in visited
  }

  /** `nodes` are all nodes of the segments that end at the visited endpoints. */
  ghost predicate Marked(t: Tree, visited: set<Id>, nodes: set<Id>)
    requires Grown(t)
  {
    forall n :: MarkedOk(t, visited, nodes, n)
  }

  lemma MarkSegment(t: Tree, visited: set<Id>, nodes: set<Id>, e: Id)
    requires Grown(t) && Marked(t, visited, nodes) && e in t.parent && ChildCount(t, e) != 1
    ensures Marked(t, visited + {e}, nodes + Elems(Segment(t, e)))
  {
    forall n: Id ensures MarkedOk(t, visited + {e}, nodes + Elems(Segment(t, e)), n) {
      assert MarkedOk(t, visited, nodes, n);
      SegmentsPartition(t, e, n);
    }
  }

  ghost predicate VisitedBest(t: Tree, store: map<Id, Copy>, shielded: set<Id>, tier: Tier, visited: set<Id>, best: Option<Time>)
    requires Grown(t)
  {
    BestAmong(t, store, shielded, tier, (iset e | e in visited), best)
  }

  lemma JudgeOnce(t: Tree, store: map<Id, Copy>, shielded: set<Id>, tier: Tier, visited: set<Id>,
                  best: Option<Time>, c: Time, trimmable: bool)
    requires Grown(t) && VisitedBest(t, store, shielded, tier, visited, best)
    requires c.endpoint in t.parent && Latest(store, Stored(t, store, c.endpoint, tier), c.last)
    requires trimmable <==> Stored(t, store, c.endpoint, tier) != {} && Bare(t, store.Keys, c.endpoint)
                            && !Intersects(t, c.endpoint, shielded)
    ensures VisitedBest(t, store, shielded, tier, visited + {c.endpoint},
                      if trimmable && (best.None? || (Earlier(c, best.value) && c != best.value)) then Some(c) else best)
  {
    BestStep(t, store, shielded, tier, (iset e | e in visited), best, c, trimmable);
    assert (iset e | e in visited) + iset{c.endpoint} == (iset e | e in visited + {c.endpoint});
  }

  lemma VisitedAll(t: Tree, store: map<Id, Copy>, shielded: set<Id>, tier: Tier, visited: set<Id>, best: Option<Time>)
    requires Grown(t) && visited <= t.parent.Keys && store.Keys <= t.parent.Keys
    requires VisitedBest(t, store, shielded, tier, visited, best)
    requires forall n <- store :: store[n].tier == tier ==> Leaf(t, n) in visited
    ensures LruLeaf(t, store, shielded, tier, best)
  {
    forall e, last | Trimmable(t, store, shielded, tier, e, last) ensures e in visited {
      var n :| n in Stored(t, store, e, tier);
    }
  }
}
