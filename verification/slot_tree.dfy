/**
 The storage of the prefix tree: records in numbered slots, linked into sibling lists, with freed slots reused.
 Its meaning is the forest it represents.
 */
module SlotTree {
  import opened Prelude
  import opened Forest

  datatype Record = Record(hash: Id, parent: Option<nat>, first: Option<nat>, prev: Option<nat>, next: Option<nat>, count: nat)

  const BLANK: Record := Record(0, None, None, None, None, 0)

  /** Slot 0 is the root above all trees. `kids` lists the children of every live slot in sibling order; `tree` is
      the forest that the slots represent. */
  datatype Slots = Slots(nodes: seq<Record>, free: seq<nat>, index: map<Id, nat>, detached: map<Id, nat>,
                         kids: map<nat, seq<nat>>, tree: Tree)

  const FRESH: Slots := Slots([BLANK], [], map[], map[], map[0 := []], EMPTY)

  function At(list: seq<nat>, i: int): Option<nat> { if 0 <= i < |list| then Some(list[i]) else None }

  /** The forest's name for a parent slot. */
  function NameOf(s: Slots, p: nat): Option<Id> {
    if p == 0 || p >= |s.nodes| then None else Some(s.nodes[p].hash)
  }

  ghost predicate IndexOk(s: Slots, n: Id) {
    n in s.index ==>
      var k := s.index[n];
      && 0 < k < |s.nodes| && k in s.kids && s.nodes[k].hash == n && n in s.tree.parent
      && s.nodes[k].parent.Some? && s.nodes[k].parent.value in s.kids && k in s.kids[s.nodes[k].parent.value]
      && s.tree.parent[n] == NameOf(s, s.nodes[k].parent.value)
  }

  ghost predicate SlotOk(s: Slots, k: nat) {
    k in s.kids ==>
      && k < |s.nodes| && (k != 0 ==> s.nodes[k].hash in s.index && s.index[s.nodes[k].hash] == k)
      && s.nodes[k].count == |s.kids[k]| && s.nodes[k].first == At(s.kids[k], 0) && Distinct(s.kids[k])
  }

  ghost predicate LinkOk(s: Slots, p: nat, i: nat) {
    p in s.kids && i < |s.kids[p]| ==>
      var k := s.kids[p][i];
      && k in s.kids && 0 < k < |s.nodes| && s.nodes[k].parent == Some(p)
      && s.nodes[k].prev == At(s.kids[p], i - 1) && s.nodes[k].next == At(s.kids[p], i + 1)
  }

  ghost predicate FreeOk(s: Slots, i: nat) {
    i < |s.free| ==> 0 < s.free[i] < |s.nodes| && s.free[i] !in s.kids
  }

  ghost predicate DetachedOk(s: Slots, n: Id) {
    n in s.detached ==> 0 < s.detached[n] < |s.nodes| && s.detached[n] !in s.kids && s.detached[n] !in s.free
  }

  /** No two detached nodes share a slot. */
  ghost predicate DetachedApart(s: Slots, n: Id, m: Id) {
    n in s.detached && m in s.detached && n != m ==> s.detached[n] != s.detached[m]
  }

  /** Every slot is the root's, a node's, detached or free. */
  ghost predicate Accounted(s: Slots, k: nat) {
    k < |s.nodes| ==> k in s.kids || k in s.free || k in s.detached.Values
  }

  ghost predicate Linked(s: Slots) {
    && 0 in s.kids && |s.nodes| > 0 && Grown(s.tree) && s.index.Keys == s.tree.parent.Keys && Distinct(s.free)
    && (forall n :: IndexOk(s, n)) && (forall k :: SlotOk(s, k)) && (forall p, i :: LinkOk(s, p, i))
    && (forall i :: FreeOk(s, i)) && (forall n :: DetachedOk(s, n)) && (forall n, m :: DetachedApart(s, n, m))
    && (forall k :: Accounted(s, k))
  }

  lemma FreshLinked()
    ensures Linked(FRESH)
  {
    assert SlotOk(FRESH, 0);
    forall n: Id ensures NodeOk(EMPTY, n) {}
  }

  // ---- Creating a node ----

  function NewSlot(s: Slots): nat { if s.free == [] then |s.nodes| else s.free[|s.free| - 1] }

  function CreatedNodes(s: Slots, p: nat, n: Id): seq<Record>
    requires p < |s.nodes| && NewSlot(s) <= |s.nodes| && (s.nodes[p].first.Some? ==> s.nodes[p].first.value < |s.nodes|)
  {
    var k, first := NewSlot(s), s.nodes[p].first;
    var grown := if k == |s.nodes| then s.nodes + [BLANK] else s.nodes;
    var placed := grown[k := Record(n, Some(p), None, None, first, 0)];
    var linked := if first.Some? then placed[first.value := placed[first.value].(prev := Some(k))] else placed;
    linked[p := linked[p].(first := Some(k), count := linked[p].count + 1)]
  }

  ghost predicate CanCreate(s: Slots, p: nat, n: Id) { Linked(s) && p in s.kids && n !in s.index }

  lemma CreateBounds(s: Slots, p: nat, n: Id)
    requires CanCreate(s, p, n)
    ensures p < |s.nodes| && NewSlot(s) <= |s.nodes| && NewSlot(s) !in s.kids && NewSlot(s) != 0
    ensures s.nodes[p].first.Some? ==> s.nodes[p].first.value < |s.nodes| && s.nodes[p].first.value in s.kids
    ensures (NameOf(s, p).Some? ==> NameOf(s, p).value in s.tree.parent)
  {
    assert SlotOk(s, p) && LinkOk(s, p, 0);
    if s.free != [] { assert FreeOk(s, |s.free| - 1); } else { assert SlotOk(s, |s.nodes|); }
    if p != 0 { assert IndexOk(s, s.nodes[p].hash); }
  }

  ghost function Created(s: Slots, p: nat, n: Id): Slots
    requires CanCreate(s, p, n)
  {
    CreateBounds(s, p, n);
    var k := NewSlot(s);
    Slots(CreatedNodes(s, p, n), if s.free == [] then [] else s.free[..|s.free| - 1], s.index[n := k], s.detached,
          s.kids[p := [k] + s.kids[p]][k := []], Add(s.tree, n, NameOf(s, p)))
  }

  /** What creation does to the records, slot by slot. */
  lemma CreatedRecords(s: Slots, p: nat, n: Id, x: nat)
    requires CanCreate(s, p, n) && x < |s.nodes|
    ensures p < |s.nodes| && (s.nodes[p].first.Some? ==> s.nodes[p].first.value < |s.nodes|)
    ensures var u, k := Created(s, p, n), NewSlot(s);
      && |u.nodes| >= |s.nodes| && k < |u.nodes| && x < |u.nodes| && k != p
      && u.nodes[k] == Record(n, Some(p), None, None, s.nodes[p].first, 0)
      && (x != k ==> u.nodes[x].hash == s.nodes[x].hash && u.nodes[x].parent == s.nodes[x].parent && u.nodes[x].next == s.nodes[x].next)
      && (x != k && s.nodes[p].first != Some(x) ==> u.nodes[x].prev == s.nodes[x].prev)
      && (s.nodes[p].first.Some? ==> u.nodes[s.nodes[p].first.value].prev == Some(k))
      && (x != k && x != p ==> u.nodes[x].first == s.nodes[x].first && u.nodes[x].count == s.nodes[x].count)
      && u.nodes[p].first == Some(k) && u.nodes[p].count == s.nodes[p].count + 1
  {
    CreateBounds(s, p, n);
    assert LinkOk(s, p, 0) && SlotOk(s, p);
  }

  lemma CreateLinks(s: Slots, p: nat, n: Id, q: nat, i: nat)
    requires CanCreate(s, p, n)
    ensures LinkOk(Created(s, p, n), q, i)
  {
    var u, k := Created(s, p, n), NewSlot(s);
    CreateBounds(s, p, n);
    CreatedRecords(s, p, n, p);
    assert SlotOk(s, p) && LinkOk(s, p, 0);
    if q in u.kids && i < |u.kids[q]| && q != k && !(q == p && i == 0) {
      var j := if q == p then i - 1 else i;
      assert LinkOk(s, q, j);
      var x := s.kids[q][j];
      CreatedRecords(s, p, n, x);
      assert u.kids[q][i] == x;
      assert SlotOk(s, q);
    }
  }

  lemma CreateSlot(s: Slots, p: nat, n: Id, x: nat)
    requires CanCreate(s, p, n)
    ensures SlotOk(Created(s, p, n), x)
  {
    CreateBounds(s, p, n);
    CreatedRecords(s, p, n, p);
    assert SlotOk(s, x) && SlotOk(s, p);
    if x < |s.nodes| { CreatedRecords(s, p, n, x); }
    if x == p {
      forall i | 0 <= i < |s.kids[p]| ensures s.kids[p][i] != NewSlot(s) { assert LinkOk(s, p, i); }
    }
  }

  lemma CreateIndex(s: Slots, p: nat, n: Id, m: Id)
    requires CanCreate(s, p, n)
    ensures IndexOk(Created(s, p, n), m)
  {
    var u, k := Created(s, p, n), NewSlot(s);
    CreateBounds(s, p, n);
    CreatedRecords(s, p, n, p);
    assert SlotOk(s, p) && IndexOk(s, m);
    if m in s.index {
      CreatedRecords(s, p, n, s.index[m]);
      var q := s.nodes[s.index[m]].parent.value;
      assert SlotOk(s, q);
      CreatedRecords(s, p, n, q);
      if q == p { assert u.kids[q] == [k] + s.kids[q]; }
    }
    if m == n { assert u.kids[p][0] == k; }
  }

  /** Creation keeps the links and adds a leaf to the forest. */
  lemma CreateLinked(s: Slots, p: nat, n: Id)
    requires CanCreate(s, p, n)
    ensures Linked(Created(s, p, n))
  {
    var u, k := Created(s, p, n), NewSlot(s);
    CreateBounds(s, p, n);
    AddGrows(s.tree, n, NameOf(s, p));
    forall x: Id ensures IndexOk(u, x) { CreateIndex(s, p, n, x); }
    forall x: nat ensures SlotOk(u, x) { CreateSlot(s, p, n, x); }
    forall q: nat, i: nat ensures LinkOk(u, q, i) { CreateLinks(s, p, n, q, i); }
    forall i: nat ensures FreeOk(u, i) {
      assert FreeOk(s, i);
      if i < |u.free| { assert u.free[i] == s.free[i] && s.free[i] != k; }
    }
    forall m: Id ensures DetachedOk(u, m) { assert DetachedOk(s, m); }
    forall a: Id, b: Id ensures DetachedApart(u, a, b) { assert DetachedApart(s, a, b); }
    forall x: nat ensures Accounted(u, x) {
      assert Accounted(s, x);
      if x in s.free && x != k {
        var i :| 0 <= i < |s.free| && s.free[i] == x;
        assert u.free[i] == x;
      }
    }
  }

  // ---- Detaching a leaf ----

  function Without(list: seq<nat>, j: nat): seq<nat>
    requires j < |list|
  {
    list[..j] + list[j + 1..]
  }

  ghost predicate CanDetach(s: Slots, n: Id) { Linked(s) && n in s.index && s.index[n] in s.kids && s.kids[s.index[n]] == [] && n !in s.detached }

  ghost function Place(list: seq<nat>, k: nat): (j: nat)
    requires k in list
    ensures j < |list| && list[j] == k
  {
    var j :| 0 <= j < |list| && list[j] == k;
    j
  }

  function DetachedNodes(nodes: seq<Record>, k: nat): seq<Record>
    requires k < |nodes| && nodes[k].parent.Some? && nodes[k].parent.value < |nodes|
    requires (nodes[k].prev.Some? ==> nodes[k].prev.value < |nodes|) && (nodes[k].next.Some? ==> nodes[k].next.value < |nodes|)
    requires nodes[nodes[k].parent.value].count > 0
  {
    var r, p := nodes[k], nodes[k].parent.value;
    var bridged := if r.prev.None? then nodes[p := nodes[p].(first := r.next)]
                   else nodes[r.prev.value := nodes[r.prev.value].(next := r.next)];
    var closed := if r.next.Some? then bridged[r.next.value := bridged[r.next.value].(prev := r.prev)] else bridged;
    closed[p := closed[p].(count := closed[p].count - 1)]
  }

  function SlotOf(s: Slots, n: Id): nat { if n in s.index then s.index[n] else 0 }

  function ParentSlot(s: Slots, n: Id): nat {
    var k := SlotOf(s, n);
    if k < |s.nodes| && s.nodes[k].parent.Some? then s.nodes[k].parent.value else 0
  }

  ghost function PlaceOf(s: Slots, n: Id): nat {
    var k, p := SlotOf(s, n), ParentSlot(s, n);
    if p in s.kids && k in s.kids[p] then Place(s.kids[p], k) else 0
  }

  /** Where a node hangs: slot `k` is the `j`-th child of slot `p`, linked to its neighbours. */
  ghost predicate Hangs(s: Slots, n: Id, k: nat, p: nat, j: nat) {
    && 0 < k < |s.nodes| && k in s.kids && s.nodes[k].hash == n
    && p in s.kids && p < |s.nodes| && s.nodes[k].parent == Some(p)
    && j < |s.kids[p]| && s.kids[p][j] == k && Distinct(s.kids[p])
    && s.nodes[k].prev == At(s.kids[p], j - 1) && s.nodes[k].next == At(s.kids[p], j + 1)
    && (s.nodes[k].prev.Some? ==> s.nodes[k].prev.value < |s.nodes| && s.nodes[s.nodes[k].prev.value].parent == Some(p))
    && (s.nodes[k].next.Some? ==> s.nodes[k].next.value < |s.nodes| && s.nodes[s.nodes[k].next.value].parent == Some(p))
    && s.nodes[p].count == |s.kids[p]| > 0 && s.nodes[p].first == At(s.kids[p], 0)
  }

  lemma NodeHangs(s: Slots, n: Id)
    requires Linked(s) && n in s.index
    ensures Hangs(s, n, SlotOf(s, n), ParentSlot(s, n), PlaceOf(s, n))
    ensures s.tree.parent[n] == NameOf(s, ParentSlot(s, n))
  {
    var k, p := SlotOf(s, n), ParentSlot(s, n);
    assert IndexOk(s, n);
    var j := PlaceOf(s, n);
    assert SlotOk(s, p) && LinkOk(s, p, j);
    if j > 0 { assert LinkOk(s, p, j - 1); }
    assert LinkOk(s, p, j + 1);
  }

  ghost function Detached(s: Slots, n: Id): Slots
    requires CanDetach(s, n)
  {
    NodeHangs(s, n);
    var k, p, j := SlotOf(s, n), ParentSlot(s, n), PlaceOf(s, n);
    Slots(DetachedNodes(s.nodes, k), s.free, s.index - {n}, s.detached[n := k],
          s.kids[p := Without(s.kids[p], j)] - {k}, Remove(s.tree, n))
  }

  /** A leaf is not its own parent, and is nobody's parent. */
  lemma LeafAlone(s: Slots, n: Id)
    requires CanDetach(s, n)
    ensures Hangs(s, n, SlotOf(s, n), ParentSlot(s, n), PlaceOf(s, n)) && ParentSlot(s, n) != SlotOf(s, n)
    ensures Children(s.tree, n) == {}
  {
    NodeHangs(s, n);
    forall m: Id ensures m !in Children(s.tree, n) {
      assert IndexOk(s, m) && SlotOk(s, ParentSlot(s, m));
    }
  }

  /** What detaching does to the records of the other slots. */
  lemma DetachedRecords(s: Slots, n: Id, x: nat)
    requires CanDetach(s, n) && x < |s.nodes| && x != SlotOf(s, n)
    ensures Hangs(s, n, SlotOf(s, n), ParentSlot(s, n), PlaceOf(s, n))
    ensures var u, r, p := Detached(s, n), s.nodes[SlotOf(s, n)], ParentSlot(s, n);
      && |u.nodes| == |s.nodes|
      && u.nodes[x].hash == s.nodes[x].hash && u.nodes[x].parent == s.nodes[x].parent
      && u.nodes[x].next == (if r.prev == Some(x) then r.next else s.nodes[x].next)
      && u.nodes[x].prev == (if r.next == Some(x) then r.prev else s.nodes[x].prev)
      && u.nodes[x].count == (if x == p then s.nodes[x].count - 1 else s.nodes[x].count)
      && u.nodes[x].first == (if x == p && r.prev.None? then r.next else s.nodes[x].first)
  {
    LeafAlone(s, n);
    var j, p := PlaceOf(s, n), ParentSlot(s, n);
    assert SlotOk(s, p);
  }

  /** Where the `i`-th child after a removal was before. */
  function Shifted(j: nat, i: nat): nat { if i < j then i else i + 1 }

  /** The leaf's former siblings close ranks. */
  lemma DetachSiblings(s: Slots, n: Id, i: nat)
    requires CanDetach(s, n)
    ensures LinkOk(Detached(s, n), ParentSlot(s, n), i)
  {
    LeafAlone(s, n);
    var u, k, p, j := Detached(s, n), SlotOf(s, n), ParentSlot(s, n), PlaceOf(s, n);
    if i < |u.kids[p]| {
      var h := Shifted(j, i);
      assert LinkOk(s, p, h);
      var x := s.kids[p][h];
      assert u.kids[p][i] == x && x != k;
      DetachedRecords(s, n, x);
      if h == j + 1 { assert s.nodes[k].next == Some(x); }
      if h + 1 == j { assert s.nodes[k].prev == Some(x); }
      if i > 0 { assert u.kids[p][i - 1] == s.kids[p][Shifted(j, i - 1)]; }
    }
  }

  lemma DetachLinks(s: Slots, n: Id, q: nat, i: nat)
    requires CanDetach(s, n)
    ensures LinkOk(Detached(s, n), q, i)
  {
    LeafAlone(s, n);
    var u, k, p, j := Detached(s, n), SlotOf(s, n), ParentSlot(s, n), PlaceOf(s, n);
    if q == p {
      DetachSiblings(s, n, i);
    } else if q in u.kids && i < |u.kids[q]| {
      assert LinkOk(s, q, i) && LinkOk(s, p, j);
      DetachedRecords(s, n, s.kids[q][i]);
    }
  }

  lemma DetachSlot(s: Slots, n: Id, x: nat)
    requires CanDetach(s, n)
    ensures SlotOk(Detached(s, n), x)
  {
    LeafAlone(s, n);
    var u, k, p, j := Detached(s, n), SlotOf(s, n), ParentSlot(s, n), PlaceOf(s, n);
    assert SlotOk(s, x) && SlotOk(s, p);
    if x in u.kids {
      DetachedRecords(s, n, x);
      if x == p {
        forall a, b | 0 <= a < b < |u.kids[p]| ensures u.kids[p][a] != u.kids[p][b] {
          assert u.kids[p][a] == s.kids[p][Shifted(j, a)] && u.kids[p][b] == s.kids[p][Shifted(j, b)];
        }
      }
    }
  }

  lemma DetachIndex(s: Slots, n: Id, m: Id)
    requires CanDetach(s, n)
    ensures IndexOk(Detached(s, n), m)
  {
    LeafAlone(s, n);
    var u, k, p, j := Detached(s, n), SlotOf(s, n), ParentSlot(s, n), PlaceOf(s, n);
    assert IndexOk(s, m);
    if m in u.index {
      var x, q := s.index[m], ParentSlot(s, m);
      assert x != k;
      assert SlotOk(s, q);
      assert q != k;
      DetachedRecords(s, n, x);
      DetachedRecords(s, n, q);
      if q == p {
        var h := Place(s.kids[p], x);
        assert u.kids[p][if h < j then h else h - 1] == x;
      }
    }
  }

  /** Detaching keeps the links and removes a leaf from the forest. */
  lemma DetachLinked(s: Slots, n: Id)
    requires CanDetach(s, n)
    ensures Linked(Detached(s, n))
  {
    LeafAlone(s, n);
    var u, k := Detached(s, n), SlotOf(s, n);
    forall i | 0 <= i < |s.free| ensures s.free[i] != k { assert FreeOk(s, i); }
    RemoveGrows(s.tree, n);
    forall m: Id ensures IndexOk(u, m) { DetachIndex(s, n, m); }
    forall x: nat ensures SlotOk(u, x) { DetachSlot(s, n, x); }
    forall q: nat, i: nat ensures LinkOk(u, q, i) { DetachLinks(s, n, q, i); }
    forall i: nat ensures FreeOk(u, i) { assert FreeOk(s, i); }
    forall m: Id ensures DetachedOk(u, m) {
      assert DetachedOk(s, m);
    }
    forall a: Id, b: Id ensures DetachedApart(u, a, b) {
      assert DetachedApart(s, a, b) && DetachedOk(s, a) && DetachedOk(s, b);
    }
    forall x: nat ensures Accounted(u, x) {
      assert Accounted(s, x);
      if x in s.detached.Values {
        var m :| m in s.detached && s.detached[m] == x;
        assert m in u.detached && u.detached[m] == x;
      }
      assert n in u.detached && u.detached[n] == k;
    }
  }

  // ---- Releasing a detached slot ----

  ghost predicate CanRelease(s: Slots, n: Id) { Linked(s) && n in s.detached }

  function Released(s: Slots, n: Id): Slots
    requires n in s.detached && s.detached[n] < |s.nodes|
  {
    var k := s.detached[n];
    s.(nodes := s.nodes[k := BLANK], free := s.free + [k], detached := s.detached - {n})
  }

  /** A released slot can be used again; the forest is as it was. */
  lemma ReleaseLinked(s: Slots, n: Id)
    requires CanRelease(s, n)
    ensures s.detached[n] < |s.nodes| && Linked(Released(s, n))
  {
    assert DetachedOk(s, n);
    var u, k := Released(s, n), s.detached[n];
    forall m: Id ensures IndexOk(u, m) { assert IndexOk(s, m) && SlotOk(s, ParentSlot(s, m)); }
    forall x: nat ensures SlotOk(u, x) { assert SlotOk(s, x); }
    forall q: nat, i: nat ensures LinkOk(u, q, i) { assert LinkOk(s, q, i); }
    forall i: nat ensures FreeOk(u, i) { assert FreeOk(s, i); }
    forall m: Id ensures DetachedOk(u, m) { assert DetachedOk(s, m) && DetachedApart(s, m, n); }
    forall a: Id, b: Id ensures DetachedApart(u, a, b) { assert DetachedApart(s, a, b); }
    forall x: nat ensures Accounted(u, x) {
      assert Accounted(s, x);
      if x in s.free { assert x in u.free; }
      if x == k { assert u.free[|s.free|] == k; }
      if x in s.detached.Values && x != k {
        var m :| m in s.detached && s.detached[m] == x;
        assert m in u.detached && u.detached[m] == x;
      }
    }
  }

  // ---- The records against the forest ----

  function Names(s: Slots, list: seq<nat>): set<Id> { set k | k in list && k < |s.nodes| :: s.nodes[k].hash }

  lemma {:induction false} NamesSize(s: Slots, list: seq<nat>)
    requires forall i | 0 <= i < |list| :: list[i] < |s.nodes|
    requires forall i, j | 0 <= i < j < |list| :: s.nodes[list[i]].hash != s.nodes[list[j]].hash
    ensures |Names(s, list)| == |list|
  {
    if list != [] {
      var last, rest := list[|list| - 1], list[..|list| - 1];
      assert list == rest + [last];
      NamesSize(s, rest);
      assert forall i | 0 <= i < |rest| :: rest[i] == list[i];
      forall k | k in rest ensures k < |s.nodes| && s.nodes[k].hash != s.nodes[last].hash {
        var i :| 0 <= i < |rest| && rest[i] == k;
        assert list[i] == k;
      }
      assert Names(s, list) == Names(s, rest) + {s.nodes[last].hash};
    }
  }

  /** The children of a node are the names of its sibling list, and the record counts them. */
  lemma ChildrenListed(s: Slots, n: Id)
    requires Linked(s) && n in s.index
    ensures s.index[n] in s.kids && s.index[n] < |s.nodes| && s.nodes[s.index[n]].count == ChildCount(s.tree, n)
    ensures forall i | 0 <= i < |s.kids[s.index[n]]| ::
              var k := s.kids[s.index[n]][i]; k < |s.nodes| && s.nodes[k].hash in Children(s.tree, n)
    ensures forall c <- Children(s.tree, n) :: c in s.index && s.index[c] in s.kids[s.index[n]]
  {
    var p := s.index[n];
    assert IndexOk(s, n) && SlotOk(s, p);
    var list := s.kids[p];
    forall i | 0 <= i < |list|
      ensures list[i] < |s.nodes| && s.nodes[list[i]].hash in Children(s.tree, n) && s.index[s.nodes[list[i]].hash] == list[i]
    {
      assert LinkOk(s, p, i) && SlotOk(s, list[i]);
      assert IndexOk(s, s.nodes[list[i]].hash);
    }
    forall c | c in Children(s.tree, n) ensures c in s.index && s.index[c] in list {
      assert IndexOk(s, c) && SlotOk(s, ParentSlot(s, c));
    }
    NamesSize(s, list);
    forall c ensures c in Children(s.tree, n) <==> c in Names(s, list) {
      if c in Children(s.tree, n) { assert IndexOk(s, c); }
    }
    assert Children(s.tree, n) == Names(s, list);
  }

  // ---- Depth-first search ----

  /** A slot has been met exactly if its parent has been expanded. */
  ghost predicate MetOk(s: Slots, root: nat, pending: seq<nat>, seen: set<nat>, k: nat) {
    k in s.kids && k != 0 && k < |s.nodes| ==>
      (k in pending || k in seen <==> s.nodes[k].parent == Some(root) || (s.nodes[k].parent.Some? && s.nodes[k].parent.value in seen))
  }

  /** The search from `root`: `seen` slots have been expanded, `pending` ones are still to be. */
  ghost predicate Searching(s: Slots, root: nat, pending: seq<nat>, seen: set<nat>) {
    && Distinct(pending) && root !in seen && root !in pending
    && (forall k <- pending :: k in s.kids && k != 0 && k !in seen)
    && (forall k <- seen :: k in s.kids && k != 0)
    && (forall k :: MetOk(s, root, pending, seen, k))
  }

  lemma SearchStart(s: Slots, n: Id)
    requires Linked(s) && n in s.index
    ensures s.index[n] in s.kids && Searching(s, s.index[n], s.kids[s.index[n]], {})
  {
    var root := s.index[n];
    assert IndexOk(s, n) && SlotOk(s, root);
    NodeHangs(s, n);
    forall i | 0 <= i < |s.kids[root]| ensures s.kids[root][i] in s.kids && s.kids[root][i] != 0 && s.kids[root][i] != root {
      assert LinkOk(s, root, i);
      NotOwnParent(s, n);
    }
    forall k: nat ensures MetOk(s, root, s.kids[root], {}, k) { KidsByParent(s, root, k); }
  }

  lemma NotOwnParent(s: Slots, n: Id)
    requires Linked(s) && n in s.index
    ensures SlotOf(s, n) < |s.nodes| && s.nodes[SlotOf(s, n)].parent != Some(SlotOf(s, n))
  {
    NodeHangs(s, n);
    assert NodeOk(s.tree, n);
  }

  /** A slot is on the sibling list of exactly its parent. */
  lemma KidsByParent(s: Slots, p: nat, k: nat)
    requires Linked(s) && p in s.kids
    ensures k in s.kids && k != 0 && k < |s.nodes| ==> (k in s.kids[p] <==> s.nodes[k].parent == Some(p))
    ensures k in s.kids[p] ==> k in s.kids && k != 0 && k < |s.nodes|
  {
    if k in s.kids[p] {
      var i :| 0 <= i < |s.kids[p]| && s.kids[p][i] == k;
      assert LinkOk(s, p, i);
    }
    if k in s.kids && k != 0 {
      assert SlotOk(s, k);
      assert IndexOk(s, s.nodes[k].hash);
    }
  }

  lemma SearchNext(s: Slots, root: nat, pending: seq<nat>, seen: set<nat>)
    requires Linked(s) && pending != [] && Searching(s, root, pending, seen) && root in s.kids && root != 0
    ensures var k := pending[|pending| - 1];
      && k in s.kids && k < |s.nodes| && k !in seen
      && Searching(s, root, pending[..|pending| - 1] + s.kids[k], seen + {k})
  {
    var k, rest := pending[|pending| - 1], pending[..|pending| - 1];
    assert pending == rest + [k];
    assert SlotOk(s, k) && k in pending;
    var after := rest + s.kids[k];
    forall x: nat
      ensures MetOk(s, root, after, seen + {k}, x)
      ensures x in s.kids[k] ==> x in s.kids && x != 0 && x !in seen + {k} && x !in rest && x != root
    {
      KidsByParent(s, k, x);
      assert MetOk(s, root, pending, seen, x) && MetOk(s, root, pending, seen, k);
      if x in s.kids[k] {
        assert SlotOk(s, x);
        NotOwnParent(s, s.nodes[x].hash);
        if x == root { RootUnmet(s, root, pending, seen, k); }
      }
    }
    forall i, j | 0 <= i < j < |after| ensures after[i] != after[j] {
      if i < |rest| <= j { assert after[j] in s.kids[k] && after[i] in rest; }
    }
  }

  /** The search stays below its root: no met slot has the root as its child. */
  lemma {:induction false} RootUnmet(s: Slots, root: nat, pending: seq<nat>, seen: set<nat>, k: nat)
    requires Linked(s) && Searching(s, root, pending, seen) && root in s.kids && root != 0 && root < |s.nodes|
    requires k in pending || k in seen
    ensures s.nodes[root].parent != Some(k)
  {
    BelowRoot(s, root, pending, seen, k);
    assert SlotOk(s, root) && SlotOk(s, k);
    var n := s.nodes[root].hash;
    NodeHangs(s, n);
    assert NodeOk(s.tree, n);
  }

  lemma {:induction false} BelowRoot(s: Slots, root: nat, pending: seq<nat>, seen: set<nat>, k: nat)
    requires Linked(s) && Searching(s, root, pending, seen) && root in s.kids && root != 0 && root < |s.nodes|
    requires k in pending || k in seen
    ensures k in s.kids && k != 0 && k < |s.nodes| && s.nodes[root].hash in s.tree.parent && s.nodes[k].hash in s.tree.parent
    ensures s.nodes[root].hash in Path(s.tree, s.nodes[k].hash) && Rank(s.tree, s.nodes[root].hash) < Rank(s.tree, s.nodes[k].hash)
    decreases if k < |s.nodes| then Rank(s.tree, s.nodes[k].hash) else 0
  {
    assert SlotOk(s, k) && SlotOk(s, root);
    var n := s.nodes[k].hash;
    NodeHangs(s, n);
    assert MetOk(s, root, pending, seen, k) && NodeOk(s.tree, n);
    var p := ParentSlot(s, n);
    if p != root {
      assert SlotOk(s, p);
      BelowRoot(s, root, pending, seen, p);
    }
  }

  /** A finished search has seen every node below its root. */
  lemma {:induction false} SearchComplete(s: Slots, root: nat, seen: set<nat>, n: Id)
    requires Linked(s) && Searching(s, root, [], seen) && root in s.kids && root != 0 && root < |s.nodes|
    requires n in s.tree.parent && s.nodes[root].hash in Path(s.tree, n) && n != s.nodes[root].hash
    ensures n in s.index && s.index[n] in seen
    decreases Rank(s.tree, n)
  {
    NodeHangs(s, n);
    assert NodeOk(s.tree, n) && SlotOk(s, root);
    var k, p := SlotOf(s, n), ParentSlot(s, n);
    assert MetOk(s, root, [], seen, k);
    if p != root {
      assert SlotOk(s, p);
      SearchComplete(s, root, seen, s.nodes[p].hash);
    }
  }
}
