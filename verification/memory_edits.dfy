/** Each elementary edit of the segment index keeps its core: links, filing, publication and recencies. */
module MemoryEdits {
  import opened Prelude
  import opened Forest
  import opened MemoryIndex
  import opened SubtreeCounts

  /** Everything about the index that does not mention the tree, while the segments in `held` are edited. */
  ghost predicate Core(x: Index, held: set<Handle>) {
    Linked(x) && Filed(x) && Published(x, held) && forall a :: RecencyOk(x, a)
  }

  function NewSegment(x: Index, e: Id, group: nat): Index {
    x.(nextHandle := x.nextHandle + 1,
       segments := x.segments[x.nextHandle + 1 := Entry(e, group, {})],
       endpoints := x.endpoints[e := x.nextHandle + 1])
  }

  /** Makes `id` the newest resident, in segment `h`. */
  function AddMember(x: Index, h: Handle, id: Id): Index
    requires h in x.segments
  {
    var e, r := x.segments[h], x.nextRecency + 1;
    x.(nextRecency := r,
       residents := x.residents[id := Resident(r, h)],
       segments := x.segments[h := e.(members := e.members + {Key(r, id)})])
  }

  function DropMember(x: Index, id: Id): Index
    requires id in x.residents && x.residents[id].segment in x.segments
  {
    var r := x.residents[id];
    var e := x.segments[r.segment];
    x.(residents := x.residents - {id},
       segments := x.segments[r.segment := e.(members := e.members - {Key(r.recency, id)})])
  }

  /** Moves a resident to another segment; its recency stays. */
  function Shift(x: Index, id: Id, to: Handle): Index
    requires id in x.residents && x.residents[id].segment in x.segments && to in x.segments
  {
    var r := x.residents[id];
    var k := Key(r.recency, id);
    var from := x.segments[r.segment];
    var cut := x.segments[r.segment := from.(members := from.members - {k})];
    x.(residents := x.residents[id := r.(segment := to)],
       segments := cut[to := cut[to].(members := cut[to].members + {k})])
  }

  function Retarget(x: Index, h: Handle, e: Id): Index
    requires h in x.segments
  {
    x.(endpoints := (x.endpoints - {x.segments[h].endpoint})[e := h],
       segments := x.segments[h := x.segments[h].(endpoint := e)])
  }

  /** Moves every member of segment `a` to segment `b` and forgets `a`. */
  function Absorb(x: Index, a: Handle, b: Handle): Index
    requires a in x.segments && b in x.segments && a != b
  {
    x.(residents := map r | r in x.residents ::
                      if x.residents[r].segment == a then x.residents[r].(segment := b) else x.residents[r],
       segments := x.segments[b := x.segments[b].(members := x.segments[b].members + x.segments[a].members)] - {a},
       endpoints := x.endpoints - {x.segments[a].endpoint})
  }

  // ---- Core lemmas ----

  lemma NewSegmentCore(x: Index, held: set<Handle>, e: Id, group: nat)
    requires Core(x, held) && e !in x.endpoints && group < |x.groups|
    ensures Core(NewSegment(x, e, group), held + {x.nextHandle + 1})
  {
    var y, h := NewSegment(x, e, group), x.nextHandle + 1;
    assert HandleOk(x, h);
    forall f: Id ensures EndpointOk(y, f) { assert EndpointOk(x, f); }
    forall j: nat ensures HandleOk(y, j) { assert HandleOk(x, j); }
    forall j: nat, k ensures FileOk(y, j, k) { assert FileOk(x, j, k); }
    forall g: nat, k ensures PublishedOk(y, held + {h}, g, k) {
      assert PublishedOk(x, held, g, k) && EndpointOk(x, k.node);
    }
    forall j: nat ensures NonEmpty(y, held + {h}, j) { assert NonEmpty(x, held, j); }
    forall a: Id ensures RecencyOk(y, a) { assert RecencyOk(x, a); }
  }

  lemma UnpublishCore(x: Index, held: set<Handle>, h: Handle)
    requires Core(x, held) && h in x.segments && h !in held
    ensures HandleOk(x, h) && Core(Unpublish(x, h), held + {h})
  {
    UnpublishHolds(x, held, h);
    var y := Unpublish(x, h);
    forall j: nat, k ensures FileOk(y, j, k) { assert FileOk(x, j, k); }
    forall a: Id ensures RecencyOk(y, a) { assert RecencyOk(x, a); }
  }

  lemma PublishCore(x: Index, held: set<Handle>, h: Handle)
    requires Core(x, held) && h in x.segments && h in held
    ensures HandleOk(x, h) && Core(Publish(x, h), held - {h})
  {
    PublishHolds(x, held, h);
    PublishFiled(x, h);
    var y := Publish(x, h);
    forall a: Id ensures RecencyOk(y, a) { assert RecencyOk(x, a); }
  }

  /** Members of a held segment can change without touching what is published. */
  lemma HeldMembers(x: Index, y: Index, held: set<Handle>)
    requires Linked(x) && Published(x, held)
    requires y.groups == x.groups && y.endpoints == x.endpoints && y.nextHandle == x.nextHandle
    requires y.segments.Keys == x.segments.Keys
    requires forall h <- x.segments :: y.segments[h].endpoint == x.segments[h].endpoint && y.segments[h].group == x.segments[h].group
    requires forall h <- x.segments :: h in held || y.segments[h] == x.segments[h]
    ensures Linked(y) && Published(y, held)
  {
    LinkSame(x, y);
    forall g: nat, k ensures PublishedOk(y, held, g, k) { assert PublishedOk(x, held, g, k); }
    forall j: nat ensures NonEmpty(y, held, j) { assert NonEmpty(x, held, j); }
  }

  lemma AddMemberCore(x: Index, held: set<Handle>, h: Handle, id: Id)
    requires Core(x, held) && h in x.segments && h in held && id !in x.residents
    ensures Core(AddMember(x, h, id), held)
  {
    var y, r := AddMember(x, h, id), x.nextRecency + 1;
    HeldMembers(x, y, held);
    forall j: nat, k ensures FileOk(y, j, k) { assert FileOk(x, j, k) && RecencyOk(x, k.node); }
    forall a: Id ensures RecencyOk(y, a) {
      assert RecencyOk(x, a);
      forall b | b in y.residents && a in y.residents && y.residents[b].recency == y.residents[a].recency ensures b == a {
        assert RecencyOk(x, b);
      }
    }
  }

  lemma DropMemberCore(x: Index, held: set<Handle>, id: Id)
    requires Core(x, held) && id in x.residents && x.residents[id].segment in x.segments && x.residents[id].segment in held
    ensures Core(DropMember(x, id), held)
  {
    var y := DropMember(x, id);
    HeldMembers(x, y, held);
    forall j: nat, k ensures FileOk(y, j, k) { assert FileOk(x, j, k) && RecencyOk(x, k.node) && RecencyOk(x, id); }
    forall a: Id ensures RecencyOk(y, a) { assert RecencyOk(x, a); }
  }

  lemma ShiftCore(x: Index, held: set<Handle>, id: Id, to: Handle)
    requires Core(x, held) && id in x.residents
    requires x.residents[id].segment in x.segments && x.residents[id].segment in held
    requires to in x.segments && to in held
    ensures Core(Shift(x, id, to), held)
  {
    var y := Shift(x, id, to);
    HeldMembers(x, y, held);
    forall j: nat, k ensures FileOk(y, j, k) { assert FileOk(x, j, k) && RecencyOk(x, k.node) && RecencyOk(x, id); }
    forall a: Id ensures RecencyOk(y, a) { assert RecencyOk(x, a); }
  }

  lemma RetargetCore(x: Index, held: set<Handle>, h: Handle, e: Id)
    requires Core(x, held) && h in x.segments && h in held && e !in x.endpoints
    ensures Core(Retarget(x, h, e), held)
  {
    var y := Retarget(x, h, e);
    assert HandleOk(x, h);
    forall f: Id ensures EndpointOk(y, f) { assert EndpointOk(x, f); }
    forall j: nat ensures HandleOk(y, j) { assert HandleOk(x, j); }
    forall j: nat, k ensures FileOk(y, j, k) { assert FileOk(x, j, k); }
    forall g: nat, k ensures PublishedOk(y, held, g, k) { assert PublishedOk(x, held, g, k) && EndpointOk(x, k.node); }
    forall j: nat ensures NonEmpty(y, held, j) { assert NonEmpty(x, held, j); }
    forall a: Id ensures RecencyOk(y, a) { assert RecencyOk(x, a); }
  }

  lemma AbsorbCore(x: Index, held: set<Handle>, a: Handle, b: Handle)
    requires Core(x, held) && a in x.segments && b in x.segments && a != b && a in held && b in held
    ensures Core(Absorb(x, a, b), held - {a})
  {
    var y, held' := Absorb(x, a, b), held - {a};
    assert HandleOk(x, a) && HandleOk(x, b);
    forall f: Id ensures EndpointOk(y, f) { assert EndpointOk(x, f); }
    forall j: nat ensures HandleOk(y, j) { assert HandleOk(x, j); }
    forall j: nat, k ensures FileOk(y, j, k) { assert FileOk(x, j, k) && FileOk(x, a, k) && FileOk(x, b, k); }
    forall g: nat, k ensures PublishedOk(y, held', g, k) { assert PublishedOk(x, held, g, k) && EndpointOk(x, k.node); }
    forall j: nat ensures NonEmpty(y, held', j) { assert NonEmpty(x, held, j); }
    forall c: Id ensures RecencyOk(y, c) {
      assert RecencyOk(x, c);
    }
  }

  // ---- Residents and their segments ----

  lemma ResidentFiled(x: Index, id: Id)
    requires Filed(x) && id in x.residents
    ensures x.residents[id].segment in x.segments
    ensures Key(x.residents[id].recency, id) in x.segments[x.residents[id].segment].members
  {
    assert FileOk(x, x.residents[id].segment, Key(x.residents[id].recency, id));
  }

  /** A published endpoint ends the segment of some resident. */
  lemma EndpointReal(t: Tree, x: Index, e: Id) returns (r: Id)
    requires Grown(t) && Core(x, {}) && (forall r :: PlaceOk(t, x, r)) && e in x.endpoints
    ensures r in x.residents && r in t.parent && Leaf(t, r) == e
  {
    assert EndpointOk(x, e);
    var h := x.endpoints[e];
    assert NonEmpty(x, {}, h);
    var k :| k in x.segments[h].members;
    assert FileOk(x, h, k);
    r := k.node;
    assert PlaceOk(t, x, r);
  }

  /** Publishing an edited segment keeps residents where they are. */
  lemma PublishPlaces(t: Tree, x: Index, h: Handle)
    requires Grown(t) && Filed(x) && h in x.segments && x.segments[h].group < |x.groups|
    requires forall r :: PlaceOk(t, x, r)
    ensures forall r :: PlaceOk(t, Publish(x, h), r)
  {
    forall r: Id ensures PlaceOk(t, Publish(x, h), r) {
      assert PlaceOk(t, x, r);
      if r in x.residents { ResidentFiled(x, r); }
    }
  }

  /** The core does not mention the subtree counts. */
  lemma SubtreeCore(x: Index, y: Index, held: set<Handle>)
    requires Core(x, held) && y == x.(subtree := y.subtree)
    ensures Core(y, held)
  {
    HeldMembers(x, y, held);
    forall j: nat, k ensures FileOk(y, j, k) { assert FileOk(x, j, k); }
    forall a: Id ensures RecencyOk(y, a) { assert RecencyOk(x, a); }
  }

  lemma PlacesOfResidents(t: Tree, x: Index, y: Index)
    requires Grown(t) && y.residents == x.residents && y.segments == x.segments
    requires forall r :: PlaceOk(t, x, r)
    ensures forall r :: PlaceOk(t, y, r)
  {
    forall r: Id ensures PlaceOk(t, y, r) { assert PlaceOk(t, x, r); }
  }

  /** The places of residents after one of them joins segment `h`, when no endpoint moved. */
  lemma JoinPlaces(t: Tree, x: Index, y: Index, h: Handle, id: Id)
    requires Grown(t) && id in t.parent && (forall r :: PlaceOk(t, x, r))
    requires h in y.segments && y.segments[h].endpoint == Leaf(t, id)
    requires y.residents == x.residents[id := Resident(y.nextRecency, h)]
    requires forall j <- x.segments :: j in y.segments && y.segments[j].endpoint == x.segments[j].endpoint
    ensures forall r :: PlaceOk(t, y, r)
  {
    forall r: Id ensures PlaceOk(t, y, r) { assert PlaceOk(t, x, r); }
  }

  /** An index that was repaired for a tree one leaf larger or smaller, with the same residents. */
  lemma SameResidents(t: Tree, u: Tree, n: Id, x: Index, y: Index)
    requires Grows(t, u, n) && x.residents.Keys <= t.parent.Keys
    requires Counted(t, x.residents.Keys, x.subtree) || Counted(u, x.residents.Keys, x.subtree)
    requires Core(y, {}) && y.residents.Keys == x.residents.Keys && y.subtree == x.subtree
    ensures (forall r :: PlaceOk(u, y, r)) ==> Indexes(u, y)
    ensures (forall r :: PlaceOk(t, y, r)) ==> Indexes(t, y)
  {
    GrowCounted(t, u, n, x.residents.Keys, x.subtree);
  }

  lemma ResidentsInTree(t: Tree, x: Index)
    requires Grown(t) && forall r :: PlaceOk(t, x, r)
    ensures x.residents.Keys <= t.parent.Keys
  {
    forall r | r in x.residents ensures r in t.parent { assert PlaceOk(t, x, r); }
  }

  /** While segment `s` is being cut at `p`: the residents in `moved` have gone to the new segment `f`. */
  ghost predicate Cutting(x: Index, y: Index, s: Handle, f: Handle, p: Id, moved: set<Id>) {
    && Core(y, {s, f})
    && s in x.segments && f !in x.segments && y.segments.Keys == x.segments.Keys + {f} && s != f
    && y.segments[f].endpoint == p
    && (forall j <- x.segments :: y.segments[j].endpoint == x.segments[j].endpoint)
    && y.residents.Keys == x.residents.Keys
    && (forall r <- x.residents :: y.residents[r] == if r in moved then Resident(x.residents[r].recency, f) else x.residents[r])
    && y.subtree == x.subtree && |y.groups| == |x.groups| && y.nextRecency == x.nextRecency
  }

  function ResidentsAmong(x: Index, nodes: seq<Id>): set<Id> { set r | r in nodes && r in x.residents }

  lemma OneMoreNode(x: Index, nodes: seq<Id>, i: nat)
    requires i < |nodes|
    ensures ResidentsAmong(x, nodes[..i + 1])
         == ResidentsAmong(x, nodes[..i]) + (if nodes[i] in x.residents then {nodes[i]} else {})
  {
    assert nodes[..i + 1] == nodes[..i] + [nodes[i]];
  }

  /** Cutting starts with the first resident of the prefix. */
  ghost predicate CutState(x: Index, y: Index, ends: Option<(Handle, Handle)>, leaf: Id, p: Id, moved: set<Id>) {
    if ends.None? then y == x && moved == {}
    else
      && leaf in x.endpoints && ends.value.0 == x.endpoints[leaf]
      && Cutting(x, y, ends.value.0, ends.value.1, p, moved)
  }

  lemma CutStep(x: Index, y: Index, s: Handle, f: Handle, p: Id, moved: set<Id>, id: Id)
    requires Cutting(x, y, s, f, p, moved) && id in x.residents && id !in moved && x.residents[id].segment == s
    ensures Cutting(x, Shift(y, id, f), s, f, p, moved + {id})
  {
    ShiftCore(y, {s, f}, id, f);
  }

  /** Once all residents of the prefix have moved, everyone is in the segment the tree says. */
  lemma CutPlaces(t: Tree, u: Tree, n: Id, x: Index, y: Index, s: Handle, f: Handle, p: Id, moved: set<Id>)
    requires Grows(t, u, n) && u.parent[n] == Some(p) && p in t.parent && ChildCount(t, p) == 1
    requires (forall r :: PlaceOk(t, x, r)) && Cutting(x, y, s, f, p, moved)
    requires moved == ResidentsAmong(x, Segment(u, p))
    ensures forall r :: PlaceOk(u, y, r)
  {
    forall r: Id ensures PlaceOk(u, y, r) {
      assert PlaceOk(t, x, r);
      if r in x.residents { LeafGrows(t, u, n, r); }
    }
  }

  /** All residents of the prefix share the one segment that is about to be cut. */
  lemma PrefixSegment(t: Tree, u: Tree, n: Id, x: Index, p: Id, id: Id)
    requires Grows(t, u, n) && u.parent[n] == Some(p) && p in t.parent && ChildCount(t, p) == 1
    requires (forall r :: PlaceOk(t, x, r)) && Linked(x) && id in x.residents && id in Segment(u, p)
    ensures Leaf(t, p) in x.endpoints && x.residents[id].segment == x.endpoints[Leaf(t, p)]
  {
    assert PlaceOk(t, x, id);
    LeafGrows(t, u, n, id);
    assert HandleOk(x, x.residents[id].segment);
  }

  /** Without residents in the prefix a new branch changes nobody's segment. */
  lemma NothingToCut(t: Tree, u: Tree, n: Id, x: Index, p: Id)
    requires Grows(t, u, n) && u.parent[n] == Some(p) && p in t.parent && ChildCount(t, p) == 1
    requires (forall r :: PlaceOk(t, x, r)) && forall r <- Segment(u, p) :: r !in x.residents
    ensures forall r :: PlaceOk(u, x, r)
  {
    forall r: Id ensures PlaceOk(u, x, r) {
      assert PlaceOk(t, x, r);
      if r in x.residents { LeafGrows(t, u, n, r); }
    }
  }

  /** The places of residents after segment `a` was absorbed by the segment that ends at `suffix`. */
  lemma AbsorbPlaces(t: Tree, u: Tree, n: Id, x: Index, y: Index, a: Handle, b: Handle, p: Id)
    requires Grows(t, u, n) && u.parent[n] == Some(p) && p in t.parent && ChildCount(t, p) == 1
    requires Core(x, {}) && (forall r :: PlaceOk(u, x, r)) && n !in x.residents
    requires a in x.segments && b in x.segments && a != b
    requires x.segments[a].endpoint == p && x.segments[b].endpoint == Leaf(t, p)
    requires y.residents == Absorb(x, a, b).residents
    requires forall j <- x.segments :: j != a ==> j in y.segments && y.segments[j].endpoint == x.segments[j].endpoint
    ensures forall r :: PlaceOk(t, y, r)
  {
    forall r: Id ensures PlaceOk(t, y, r) {
      assert PlaceOk(u, x, r);
      if r in x.residents {
        LeafGrows(t, u, n, r);
        assert HandleOk(x, a) && HandleOk(x, x.residents[r].segment);
      }
    }
  }
}
