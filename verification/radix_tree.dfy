/** The prefix tree with its records linked in place. */
module RadixTree {
  import opened Prelude
  import opened Forest
  import opened Pruning
  import opened SlotTree

  class Radix {
    var nodes: seq<Record>
    var free: seq<nat>
    var index: map<Id, nat>
    var detached: map<Id, nat>
    ghost var kids: map<nat, seq<nat>>
    ghost var tree: Tree

    ghost function View(): Slots
      reads this
    {
      Slots(nodes, free, index, detached, kids, tree)
    }

    ghost predicate Valid()
      reads this
    {
      Linked(View())
    }

    constructor ()
      ensures Valid() && View() == FRESH
    {
      nodes, free, index, detached, kids, tree := [BLANK], [], map[], map[], map[0 := []], EMPTY;
      FreshLinked();
    }

    /** Takes a freed slot or a new one. */
    method TakeSlot() returns (k: nat)
      requires Valid()
      modifies this`nodes, this`free
      ensures k == NewSlot(old(View())) && nodes == (if k == |old(nodes)| then old(nodes) + [BLANK] else old(nodes))
      ensures free == if old(free) == [] then [] else old(free)[..|old(free)| - 1]
    {
      if free == [] {
        k := |nodes|;
        nodes := nodes + [BLANK];
      } else {
        k := free[|free| - 1];
        assert FreeOk(View(), |free| - 1);
        free := free[..|free| - 1];
      }
    }

    /** The node of a hash: the existing one wherever it is, or a new first child of the given slot. */
    method GetOrCreateAt(p: nat, n: Id) returns (created: bool)
      requires Valid() && p in kids
      modifies this
      ensures Valid() && created == (n !in old(index))
      ensures if created then old(CanCreate(View(), p, n)) && View() == Created(old(View()), p, n) else View() == old(View())
      ensures tree == if created then Add(old(tree), n, NameOf(old(View()), p)) else old(tree)
    {
      if n in index { return false; }
      ghost var s := View();
      CreateBounds(s, p, n);
      CreateLinked(s, p, n);
      var k := TakeSlot();
      var first := nodes[p].first;
      nodes := nodes[k := Record(n, Some(p), None, None, first, 0)];
      if first.Some? { nodes := nodes[first.value := nodes[first.value].(prev := Some(k))]; }
      nodes := nodes[p := nodes[p].(first := Some(k), count := nodes[p].count + 1)];
      index := index[n := k];
      kids := kids[p := [k] + kids[p]][k := []];
      tree := Add(tree, n, NameOf(s, p));
      created := true;
    }

    /** Bridges the gap that a slot leaves among its siblings. */
    method Bridge(k: nat)
      requires k < |nodes| && nodes[k].parent.Some? && nodes[k].parent.value < |nodes| && nodes[nodes[k].parent.value].count > 0
      requires nodes[k].prev.Some? ==> nodes[k].prev.value < |nodes|
      requires nodes[k].next.Some? ==> nodes[k].next.value < |nodes|
      modifies this`nodes
      ensures nodes == DetachedNodes(old(nodes), k)
    {
      var r, p := nodes[k], nodes[k].parent.value;
      if r.prev.None? {
        nodes := nodes[p := nodes[p].(first := r.next)];
      } else {
        nodes := nodes[r.prev.value := nodes[r.prev.value].(next := r.next)];
      }
      if r.next.Some? { nodes := nodes[r.next.value := nodes[r.next.value].(prev := r.prev)]; }
      nodes := nodes[p := nodes[p].(count := nodes[p].count - 1)];
    }

    /** Unlinks a leaf from its siblings; its slot is kept until it is released. */
    method DetachLeaf(n: Id) returns (parent: Option<Id>)
      requires Valid() && CanDetach(View(), n)
      modifies this
      ensures Valid() && old(CanDetach(View(), n)) && View() == Detached(old(View()), n)
      ensures tree == Remove(old(tree), n) && n in old(tree).parent && parent == old(tree).parent[n]
    {
      ghost var s := View();
      LeafAlone(s, n);
      DetachLinked(s, n);
      NodeHangs(s, n);
      var k := index[n];
      var p := nodes[k].parent.value;
      parent := if p == 0 then None else Some(nodes[p].hash);
      Bridge(k);
      index := index - {n};
      detached := detached[n := k];
      kids := kids[p := Without(kids[p], PlaceOf(s, n))] - {k};
      tree := Remove(tree, n);
    }

    method ReleaseDetached(n: Id)
      requires Valid() && CanRelease(View(), n)
      modifies this
      ensures Valid() && n in old(detached) && tree == old(tree)
      ensures old(detached)[n] < |old(nodes)| && View() == Released(old(View()), n)
    {
      ReleaseLinked(View(), n);
      var k := detached[n];
      detached := detached - {n};
      nodes := nodes[k := BLANK];
      free := free + [k];
    }

    // ---- Walks ----

    method ChildCountOf(n: Id) returns (count: nat)
      requires Valid() && n in tree.parent
      ensures count == ChildCount(tree, n)
    {
      ChildrenListed(View(), n);
      count := nodes[index[n]].count;
    }

    /** Whether the walk up from a slot stops there; if not, the slot above belongs to the same segment. */
    lemma Upward(n: Id)
      requires Valid() && n in tree.parent
      ensures Hangs(View(), n, SlotOf(View(), n), ParentSlot(View(), n), PlaceOf(View(), n))
      ensures var p := ParentSlot(View(), n);
        && p < |nodes|
        && (p == 0 <==> tree.parent[n].None?)
        && (p != 0 ==> tree.parent[n] == Some(nodes[p].hash) && nodes[p].hash in tree.parent && index[nodes[p].hash] == p
                       && nodes[p].count == ChildCount(tree, nodes[p].hash)
                       && Rank(tree, nodes[p].hash) < Rank(tree, n))
        && (Top(tree, n) <==> p == 0 || nodes[p].count >= 2)
    {
      NodeHangs(View(), n);
      var p := ParentSlot(View(), n);
      assert SlotOk(View(), p) && NodeOk(tree, n);
      if p != 0 { ChildrenListed(View(), nodes[p].hash); }
    }

    /** The nodes of the segment that ends at a node. */
    method ResolveSegment(e: Id) returns (segment: seq<Id>)
      requires Valid() && e in tree.parent
      ensures segment == Segment(tree, e)
    {
      segment := [];
      var current := index[e];
      Upward(e);
      ghost var n := e;
      while true
        invariant n in tree.parent && current == index[n] && current < |nodes| && nodes[current].hash == n
        invariant Segment(tree, n) + segment == Segment(tree, e)
        decreases Rank(tree, n)
      {
        Upward(n);
        segment := [nodes[current].hash] + segment;
        var p := nodes[current].parent.value;
        if p == 0 || nodes[p].count >= 2 { return; }
        assert Segment(tree, n) == Segment(tree, nodes[p].hash) + [n];
        current := p;
        n := nodes[p].hash;
      }
    }

    /** The first node of the segment that ends at a node. */
    method SegmentTopOf(e: Id) returns (top: Id)
      requires Valid() && e in tree.parent
      ensures top == Segment(tree, e)[0]
    {
      var current := index[e];
      Upward(e);
      ghost var n := e;
      while true
        invariant n in tree.parent && current == index[n] && current < |nodes| && nodes[current].hash == n
        invariant Segment(tree, n)[0] == Segment(tree, e)[0]
        decreases Rank(tree, n)
      {
        Upward(n);
        var p := nodes[current].parent.value;
        if p == 0 || nodes[p].count >= 2 { return nodes[current].hash; }
        current := p;
        n := nodes[p].hash;
      }
    }

    /** The endpoint of the segment that holds a node. */
    method SegmentLeafFor(n: Id) returns (leaf: Id)
      requires Valid() && n in tree.parent
      ensures leaf == Leaf(tree, n)
    {
      var current := index[n];
      ghost var m := n;
      ChildrenListed(View(), n);
      assert SlotOk(View(), current) && IndexOk(View(), n);
      while nodes[current].count == 1
        invariant m in tree.parent && current == index[m] && current < |nodes| && nodes[current].hash == m
        invariant nodes[current].count == ChildCount(tree, m) && Leaf(tree, m) == Leaf(tree, n)
        decreases tree.next - Rank(tree, m)
      {
        ChildrenListed(View(), m);
        assert SlotOk(View(), current) && LinkOk(View(), current, 0);
        var child := nodes[current].first.value;
        assert SlotOk(View(), child);
        ghost var c := nodes[child].hash;
        assert c in Children(tree, m) && OnlyChild(tree, m) == c;
        assert NodeOk(tree, c);
        ChildrenListed(View(), c);
        current := child;
        m := c;
      }
      leaf := nodes[current].hash;
    }

    /** Appends the children of a slot to the stack by walking its sibling list. */
    method PushChildren(p: nat, stack: seq<nat>) returns (pending: seq<nat>)
      requires Valid() && p in kids && p < |nodes|
      ensures pending == stack + kids[p]
    {
      pending := stack;
      assert SlotOk(View(), p);
      var child := nodes[p].first;
      ghost var i := 0;
      while child.Some?
        invariant i <= |kids[p]| && child == At(kids[p], i) && pending == stack + kids[p][..i]
        decreases |kids[p]| - i
      {
        assert LinkOk(View(), p, i);
        assert kids[p][..i + 1] == kids[p][..i] + [kids[p][i]];
        pending := pending + [child.value];
        child := nodes[child.value].next;
        i := i + 1;
      }
    }

    /** Whether a marked node lies strictly below `n`, by depth-first search. */
    method HasDescendant(n: Id, marked: set<Id>) returns (found: bool)
      requires Valid() && n in tree.parent
      ensures found <==> exists d :: d in tree.parent && d != n && n in Path(tree, d) && d in marked
    {
      var root := index[n];
      assert IndexOk(View(), n);
      SearchStart(View(), n);
      var pending := PushChildren(root, []);
      assert pending == kids[root];
      ghost var seen: set<nat> := {};
      while pending != []
        invariant Searching(View(), root, pending, seen)
        invariant forall k <- seen :: k < |nodes| && nodes[k].hash !in marked
        decreases kids.Keys - seen
      {
        SearchNext(View(), root, pending, seen);
        var k := pending[|pending| - 1];
        if nodes[k].hash in marked {
          BelowRoot(View(), root, pending, seen, k);
          return true;
        }
        seen := seen + {k};
        pending := PushChildren(k, pending[..|pending| - 1]);
      }
      forall d | d in tree.parent && d != n && n in Path(tree, d) ensures d !in marked {
        SearchComplete(View(), root, seen, d);
        assert IndexOk(View(), d);
      }
      return false;
    }
  }
}
