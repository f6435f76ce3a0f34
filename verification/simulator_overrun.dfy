/**
 A run that ends with more blocks in TLC than fit: memory for one block, two blocks of SLC and one of TLC, and the requests
 0; 0, 1; 0, 2; 3; 1. The first four leave 0 with the children 1 and 2, the first two of them in SLC and 2 in TLC. The
 hit on 1 starts a migration of one block; making room for it prunes 2, 0 joins the segment, and two blocks are moved.
 */
module SimulatorOverrun {
  import opened Prelude
  import opened Tiers
  import opened Forest
  import opened Pruning
  import opened Joining
  import opened Trace
  import opened SimulatorSteps
  import opened SimulatorState
  import opened SimulatorReclaim
  import opened SimulatorEviction
  import opened SimulatorRoom
  import opened SimulatorTurns
  import opened SimulatorMigration
  import opened SimulatorRounds
  import opened SimulatorAccess
  import Simulator

  const BLOCKS: nat := 1
  const SPACE: Pair<nat> := Pair(2, 1)

  /** What the policies of the run answer. */
  const ANSWERS: Policies := Policies(
    (k: nat) => 10,
    (k: nat, t: Tree, s: map<Id, Location>) => if 2 in s && s[2].tier.Tlc? then Some(TrimSegment(2, Tlc)) else None,
    (k: nat) => None,
    (k: nat, n: Id) => if n == 1 then Some(0) else None,
    (k: nat, writes: seq<Id>) => if 2 in writes then (Tlc, 0) else (Slc, 0),
    (k: nat, memory: set<Id>) => Eviction(if 0 in memory || 1 in memory then 1 else 2, false, false, 1),
    (j: nat) => false)

  /** The nodes, memory blocks and storage copies of a state. */
  ghost predicate Looks(v: State, parents: map<Id, Option<Id>>, memory: set<Id>, slc: set<Id>, tlc: set<Id>) {
    && Grown(v.tree) && v.tree.parent == parents && v.memory == memory
    && Copies(v.store, Slc) == slc && Copies(v.store, Tlc) == tlc
    && Used(v, Slc) == |slc| && Used(v, Tlc) == |tlc|
  }

  lemma StoreOf(v: State, parents: map<Id, Option<Id>>, memory: set<Id>, slc: set<Id>, tlc: set<Id>)
    requires Looks(v, parents, memory, slc, tlc)
    ensures v.store.Keys == slc + tlc && (forall n <- slc :: v.store[n].tier.Slc?) && (forall n <- tlc :: v.store[n].tier.Tlc?)
  {
    forall n ensures n in v.store <==> n in slc + tlc {
      if n in v.store { assert n in Copies(v.store, v.store[n].tier); }
    }
    forall n | n in slc ensures n in v.store && v.store[n].tier.Slc? { assert n in Copies(v.store, Slc); }
    forall n | n in tlc ensures n in v.store && v.store[n].tier.Tlc? { assert n in Copies(v.store, Tlc); }
  }

  lemma OnlyBlock(nodes: seq<Id>, memory: set<Id>, gone: Id)
    requires memory == {gone} && gone in nodes
    ensures Deepest(nodes, memory, 1) == [gone]
  {
    var kept := Deepest(nodes, memory, 1);
    assert kept != [] && kept[0] in kept;
  }

  lemma OneUnwritten(n: Id, stored: set<Id>)
    requires n !in stored
    ensures Unwritten([n], stored) == [n]
  {
    assert [n][1..] == [];
  }

  lemma CopiesAdded(s: map<Id, Location>, r: map<Id, Location>, n: Id, place: (Tier, nat))
    requires Added(s, r, [n], place) && n !in s
    ensures Copies(r, place.0) == Copies(s, place.0) + {n} && Copies(r, Other(place.0)) == Copies(s, Other(place.0))
  {
    assert Elems([n]) == {n};
    assert n in [n];
  }

  /** The place of the one block that a policy evicts. */
  function PlaceOf(gone: Id): (Tier, nat) { ANSWERS.place(0, [gone]) }

  function EndOf(gone: Id): Id { if gone == 0 || gone == 1 then 1 else 2 }

  /** An eviction of one block that has to be written, where there is room. */
  lemma EvictsOne(p: Policies, capacity: Pair<nat>, v: State, w: State, d: Eviction, prefix: set<Id>, gone: Id,
      place: (Tier, nat), k0: nat, k1: nat)
    requires Evicted(p, capacity, v, w, d, prefix, k0,
            k1) == true && !d.drop && !d.reclaimParent && place == p.place(k0, [gone])
    requires Deepest(Segment(v.tree, d.endpoint), v.memory, d.most) == [gone] && Unwritten([gone], v.store.Keys) == [gone]
    requires forall k :: Fits(p, capacity, v, k, place.0, 1)
    ensures w.memory == v.memory - {gone} && Shrunk(v.tree, w.tree) && Added(v.store, w.store, [gone], place) == true
  {
    assert Elems([gone]) == {gone};
    EvictedMeans(p, capacity, v, w, d, prefix, k0, k1);
    var walk := Walk(v.tree, v.memory, v.store.Keys, d, d.endpoint);
    assert walk == [gone];
    assert RoundWritten(p, capacity, v, w, [gone], false, k0);
    DumpFits(p, capacity, v, w, gone, place, k0);
  }

  lemma DumpFits(p: Policies, capacity: Pair<nat>, v: State, w: State, gone: Id, place: (Tier, nat), k: nat)
    requires DumpWritten(p, capacity, v, w, [gone], k) == true && place == p.place(k, [gone])
    requires forall k :: Fits(p, capacity, v, k, place.0, 1)
    ensures Added(v.store, w.store, [gone], place) == true
  {
    assert Fits(p, capacity, v, k + 1, place.0, 1);
  }

  lemma Placed(v: State, gone: Id, k: nat)
    requires Used(v, PlaceOf(gone).0) < SPACE.At(PlaceOf(gone).0)
    ensures ANSWERS.place(k, [gone]) == PlaceOf(gone)
    ensures forall k :: Fits(ANSWERS, SPACE, v, k, PlaceOf(gone).0, 1)
  {}

  /** The same for the only memory block. */
  lemma Evicts(v: State, w: State, d: Eviction, prefix: set<Id>, gone: Id, k0: nat, k1: nat)
    requires Evicted(ANSWERS, SPACE, v, w, d, prefix, k0, k1) == true && d == Eviction(EndOf(gone), false, false, 1)
    requires v.memory == {gone} && gone !in v.store && gone in Segment(v.tree, d.endpoint)
    requires Used(v, PlaceOf(gone).0) < SPACE.At(PlaceOf(gone).0)
    ensures w.memory == {} && Shrunk(v.tree, w.tree) && Added(v.store, w.store, [gone], PlaceOf(gone)) == true
  {
    OnlyBlock(Segment(v.tree, d.endpoint), v.memory, gone);
    OneUnwritten(gone, v.store.Keys);
    Placed(v, gone, k0);
    EvictsOne(ANSWERS, SPACE, v, w, d, prefix, gone, PlaceOf(gone), k0, k1);
  }

  /** A block that has no copy, while memory is full: the block that the policy names is written and leaves memory. */
  lemma MissEvicts(v: State, w: State, n: Id, prefix: set<Id>, k0: nat, k1: nat, gone: Id)
    requires Entered(ANSWERS, SPACE, BLOCKS, v, w, n, prefix, k0, k1) == true
    requires v.memory == {gone} && gone !in v.store && Grown(v.tree)
    requires EndOf(gone) in v.tree.parent && gone in Segment(v.tree, EndOf(gone))
    requires Used(v, PlaceOf(gone).0) < SPACE.At(PlaceOf(gone).0)
    ensures w.memory == {n} && Shrunk(v.tree, w.tree) && Added(v.store, w.store, [gone], PlaceOf(gone)) == true
  {
    var freed := Freeing(v, w, n, prefix, k0, k1);
    var d := Decided(v, freed, prefix, gone, k0, k1);
    Evicts(v, freed, d, prefix, gone, k0 + 1, k1);
  }

  lemma Freeing(v: State, w: State, n: Id, prefix: set<Id>, k0: nat, k1: nat) returns (freed: State)
    requires Entered(ANSWERS, SPACE, BLOCKS, v, w, n, prefix, k0, k1) == true
    ensures MadeRoom(ANSWERS, SPACE, BLOCKS, v, freed, prefix, k0, k1) == true && w == freed.(memory := freed.memory + {n})
  {
    freed :| MadeRoom(ANSWERS, SPACE, BLOCKS, v, freed, prefix, k0, k1) && w == freed.(memory := freed.memory + {n});
  }

  lemma Decided(v: State, w: State, prefix: set<Id>, gone: Id, k0: nat, k1: nat) returns (d: Eviction)
    requires MadeRoom(ANSWERS, SPACE, BLOCKS, v, w, prefix, k0, k1) == true && v.memory == {gone} && Grown(v.tree)
    requires EndOf(gone) in v.tree.parent && gone in Segment(v.tree, EndOf(gone))
    ensures d == Eviction(EndOf(gone), false, false, 1) && Evicted(ANSWERS, SPACE, v, w, d, prefix, k0 + 1, k1) == true
  {
    d :| Admissible(v.tree, v.memory, ANSWERS.evict(k0, v.memory), d) && Evicted(ANSWERS, SPACE, v, w, d, prefix,
            k0 + 1, k1);
    assert EvictionOk(v.tree, v.memory, ANSWERS.evict(k0, v.memory));
  }

  // ---- The trees of the run ----

  const ROOT: map<Id, Option<Id>> := map[0 := None]
  const CHAIN: map<Id, Option<Id>> := map[0 := None, 1 := Some(0)]
  const FORK: map<Id, Option<Id>> := map[0 := None, 1 := Some(0), 2 := Some(0)]
  const APART: map<Id, Option<Id>> := map[0 := None, 1 := Some(0), 2 := Some(0), 3 := None]

  lemma ChainShape(t: Tree)
    requires Grown(t) && t.parent == CHAIN
    ensures Segment(t, 1) == [0, 1]
  {
    assert Children(t, 0) == {1};
    assert Segment(t, 0) == [0];
    assert [0] + [1] == [0, 1];
  }

  /** Two children hang below 0; whatever else there is, is a root. */
  lemma ForkShape(t: Tree)
    requires Grown(t) && (t.parent == FORK || t.parent == APART)
    ensures Segment(t, 1) == [1] && Segment(t, 2) == [2] && Leaf(t, 1) == 1
    ensures Path(t, 1) == {0, 1} && Path(t, 2) == {0, 2} && Aside(t, 1, 0) == {2}
  {
    assert Children(t, 0) == {1, 2};
    assert Children(t, 1) == {};
    assert NodeOk(t, 1) && NodeOk(t, 2);
    assert Path(t, 0) == {0};
    forall x ensures AsideAt(t, 1, 0, x) <==> x == 2 {
      if x == 3 && 3 in t.parent { assert Path(t, 3) == {3}; }
    }
  }

  lemma Settled(v: State, parents: map<Id, Option<Id>>, memory: set<Id>, slc: set<Id>, tlc: set<Id>)
    requires Sound(v) && v.tree.parent == parents && v.memory == memory
    requires Copies(v.store, Slc) == slc && Copies(v.store, Tlc) == tlc
    ensures Looks(v, parents, memory, slc, tlc)
  {
    UsedCount(v, Slc);
    UsedCount(v, Tlc);
  }

  /** Pruning has removed nothing if every node is there. */
  lemma NothingPruned(t: Tree, u: Tree)
    requires Shrunk(t, u) && t.parent.Keys <= u.parent.Keys
    ensures u.parent == t.parent
  {}

  lemma AddGrown(t: Tree, n: Id, parent: Option<Id>)
    requires Grown(t) && n !in t.parent && (parent.Some? ==> parent.value in t.parent)
    ensures Grown(Add(t, n, parent))
  {
    AddGrows(t, n, parent);
  }

  // ---- The requests of the run ----

  /** 0: the first block enters memory. */
  lemma RequestRoot(a: Point, b: Point, prefix: set<Id>, result: AccessResult)
    requires Requested(ANSWERS, SPACE, BLOCKS, a, b, 0, None, prefix, result) == true && Sound(b.state)
    requires a.state.tree == EMPTY && a.state.memory == {} && a.state.store == map[]
    ensures Looks(b.state, ROOT, {0}, {}, {})
  {
    var v, w := a.state.(tree := Add(EMPTY, 0, None), active := Some(0)), b.state.(active := Some(0));
    EntersFree(v, w, 0, prefix, a.asked, b.asked);
    Settled(b.state, ROOT, {0}, {}, {});
  }

  lemma EntersFree(v: State, w: State, n: Id, prefix: set<Id>, k0: nat, k1: nat)
    requires Entered(ANSWERS, SPACE, BLOCKS, v, w, n, prefix, k0, k1) && v.memory == {}
    ensures w == v.(memory := {n})
  {
    assert {} + {n} == {n};
  }

  /** A hit without a migration: nothing moves and nothing enters memory. */
  lemma JustServed(a: Point, b: Point, n: Id, parent: Option<Id>, prefix: set<Id>, result: AccessResult)
    requires Requested(ANSWERS, SPACE, BLOCKS, a, b, n, parent, prefix, result) == true && n in a.state.tree.parent && n != 1
    requires n in a.state.memory || n in a.state.store
    ensures b.state.tree == a.state.tree && b.state.memory == a.state.memory && b.state.store == a.state.store
    ensures b.state.tiers == a.state.tiers
  {
    var v, w := a.state.(active := Some(n)), b.state.(active := Some(n));
    assert a.state.(tree := a.state.tree, active := Some(n)) == v;
    if n !in v.memory {
      var u, k :| ServedThen(ANSWERS, SPACE, BLOCKS, v, u, w, n, prefix, a.asked, k, b.asked, ANSWERS.admit(a.admissions));
    }
  }

  /** A new block while memory is full. */
  lemma NewBlock(a: Point, b: Point, n: Id, parent: Option<Id>, prefix: set<Id>, result: AccessResult, gone: Id)
    requires Requested(ANSWERS, SPACE, BLOCKS, a, b, n, parent, prefix, result) == true && Grown(a.state.tree)
    requires n !in a.state.tree.parent && (parent.Some? ==> parent.value in a.state.tree.parent)
    requires n !in a.state.memory && n !in a.state.store && a.state.memory == {gone} && gone !in a.state.store
    requires Used(a.state, PlaceOf(gone).0) < SPACE.At(PlaceOf(gone).0)
    requires Grown(Add(a.state.tree, n, parent)) && EndOf(gone) in Add(a.state.tree, n, parent).parent
    requires gone in Segment(Add(a.state.tree, n, parent), EndOf(gone))
    ensures b.state.memory == {n} && Shrunk(Add(a.state.tree, n, parent), b.state.tree)
    ensures Copies(b.state.store, PlaceOf(gone).0) == Copies(a.state.store, PlaceOf(gone).0) + {gone}
    ensures Copies(b.state.store, Other(PlaceOf(gone).0)) == Copies(a.state.store, Other(PlaceOf(gone).0))
  {
    var v, w := a.state.(tree := Add(a.state.tree, n, parent), active := Some(n)), b.state.(active := Some(n));
    assert Entered(ANSWERS, SPACE, BLOCKS, v, w, n, prefix, a.asked, b.asked);
    MissEvicts(v, w, n, prefix, a.asked, b.asked, gone);
    CopiesAdded(v.store, w.store, gone, PlaceOf(gone));
  }

  /** The copies after a block has been written. */
  function WithCopy(copies: set<Id>, tier: Tier, gone: Id): set<Id> {
    if PlaceOf(gone).0 == tier then copies + {gone} else copies
  }

  /** A new block while memory is full, where every node has a copy afterwards: none is pruned. */
  lemma NextLooks(a: Point, b: Point, n: Id, parent: Option<Id>, prefix: set<Id>, result: AccessResult, gone: Id, t: Tree,
                  parents: map<Id, Option<Id>>, slc: set<Id>, tlc: set<Id>, slcThen: set<Id>, tlcThen: set<Id>)
    requires Requested(ANSWERS, SPACE, BLOCKS, a, b, n, parent, prefix, result) == true && Sound(b.state) == true
    requires Looks(a.state, parents, {gone}, slc, tlc) == true && gone !in slc + tlc && n !in slc + tlc && n != gone
             && n !in parents
    requires t == Add(a.state.tree, n, parent) && Grown(t) && (parent.Some? ==> parent.value in parents)
    requires (if PlaceOf(gone).0.Slc? then |slc| else |tlc|) < SPACE.At(PlaceOf(gone).0)
    requires EndOf(gone) in t.parent && gone in Segment(t, EndOf(gone))
    requires slcThen == WithCopy(slc, Slc, gone) && tlcThen == WithCopy(tlc, Tlc, gone)
             && t.parent.Keys == slcThen + tlcThen + {n}
    ensures Looks(b.state, t.parent, {n}, slcThen, tlcThen) == true
  {
    StoreOf(a.state, parents, {gone}, slc, tlc);
    NewBlock(a, b, n, parent, prefix, result, gone);
    Copied(a.state, b.state, gone, slc, tlc);
    AllThere(b.state, t, n, slcThen, tlcThen);
  }

  lemma Copied(v: State, w: State, gone: Id, slc: set<Id>, tlc: set<Id>)
    requires Copies(v.store, Slc) == slc && Copies(v.store, Tlc) == tlc
    requires Copies(w.store, PlaceOf(gone).0) == Copies(v.store, PlaceOf(gone).0) + {gone}
    requires Copies(w.store, Other(PlaceOf(gone).0)) == Copies(v.store, Other(PlaceOf(gone).0))
    ensures Copies(w.store, Slc) == WithCopy(slc, Slc, gone) && Copies(w.store, Tlc) == WithCopy(tlc, Tlc, gone)
  {}

  lemma AllThere(v: State, t: Tree, n: Id, slc: set<Id>, tlc: set<Id>)
    requires Sound(v) == true && Shrunk(t, v.tree) == true && v.memory == {n}
    requires Copies(v.store, Slc) == slc && Copies(v.store, Tlc) == tlc && t.parent.Keys == slc + tlc + {n}
    ensures Looks(v, t.parent, {n}, slc, tlc) == true
  {
    forall x | x in t.parent ensures x in v.tree.parent {
      assert x in Copies(v.store, Slc) || x in Copies(v.store, Tlc) || x in v.memory;
    }
    NothingPruned(t, v.tree);
    Settled(v, t.parent, {n}, slc, tlc);
  }

  /** Which copies there are after each request. */
  lemma CopiesSoFar()
    ensures WithCopy({}, Slc, 0) == {0} && WithCopy({}, Tlc, 0) == {} && CHAIN.Keys == {0} + {} + {1}
    ensures WithCopy({0}, Slc, 1) == {0, 1} && WithCopy({}, Tlc, 1) == {} && FORK.Keys == {0, 1} + {} + {2}
    ensures WithCopy({0, 1}, Slc, 2) == {0, 1} && WithCopy({}, Tlc, 2) == {2} && APART.Keys == {0, 1} + {2} + {3}
  {}

  lemma SameLooks(v: State, w: State, parents: map<Id, Option<Id>>, memory: set<Id>, slc: set<Id>, tlc: set<Id>)
    requires Looks(v, parents, memory, slc, tlc) == true
    requires w.tree == v.tree && w.memory == v.memory && w.store == v.store && w.tiers == v.tiers
    ensures Looks(w, parents, memory, slc, tlc) == true
  {}

  /** A hit on 0, which holds a copy, changes nothing that matters. */
  lemma HitLooks(a: Point, b: Point, prefix: set<Id>, result: AccessResult, parents: map<Id, Option<Id>>, memory: set<Id>,
                 slc: set<Id>, tlc: set<Id>)
    requires Requested(ANSWERS, SPACE, BLOCKS, a, b, 0, None, prefix, result) == true
    requires Looks(a.state, parents, memory, slc, tlc) == true && 0 in parents && 0 in memory + slc
    ensures Looks(b.state, parents, memory, slc, tlc) == true
  {
    StoreOf(a.state, parents, memory, slc, tlc);
    JustServed(a, b, 0, None, prefix, result);
    SameLooks(a.state, b.state, parents, memory, slc, tlc);
  }

  lemma ChainGrown(t: Tree) returns (u: Tree)
    requires Grown(t) && t.parent == ROOT
    ensures u == Add(t, 1, Some(0)) && Grown(u) && u.parent == CHAIN && Segment(u, 1) == [0, 1]
  {
    u := Add(t, 1, Some(0));
    AddGrown(t, 1, Some(0));
    assert u.parent == CHAIN;
    ChainShape(u);
  }

  /** 0, 1: 0 is written to SLC. */
  lemma RequestChain(a: Point, m: Point, b: Point, prefix: set<Id>, first: AccessResult, second: AccessResult)
    requires Looks(a.state, ROOT, {0}, {}, {}) == true && Sound(b.state) == true
    requires Requested(ANSWERS, SPACE, BLOCKS, a, m, 0, None, prefix, first) == true
    requires Requested(ANSWERS, SPACE, BLOCKS, m, b, 1, Some(0), prefix, second) == true
    ensures Looks(b.state, CHAIN, {1}, {0}, {}) == true
  {
    HitLooks(a, m, prefix, first, ROOT, {0}, {}, {});
    var t := ChainGrown(m.state.tree);
    CopiesSoFar();
    NextLooks(m, b, 1, Some(0), prefix, second, 0, t, ROOT, {}, {}, {0}, {});
  }

  lemma ForkGrown(t: Tree, parents: map<Id, Option<Id>>, n: Id, parent: Option<Id>) returns (u: Tree)
    requires Grown(t) && t.parent == parents
    requires (parents == CHAIN && n == 2 && parent == Some(0)) || (parents == FORK && n == 3 && parent == None)
    ensures u == Add(t, n, parent) && Grown(u) && u.parent == (if n == 2 then FORK else APART)
    ensures Segment(u, 1) == [1] && Segment(u, 2) == [2]
  {
    u := Add(t, n, parent);
    AddGrown(t, n, parent);
    assert u.parent == if n == 2 then FORK else APART;
    ForkShape(u);
  }

  /** 0, 2: 1 is written to SLC. */
  lemma RequestFork(a: Point, m: Point, b: Point, prefix: set<Id>, first: AccessResult, second: AccessResult)
    requires Looks(a.state, CHAIN, {1}, {0}, {}) == true && Sound(b.state) == true
    requires Requested(ANSWERS, SPACE, BLOCKS, a, m, 0, None, prefix, first) == true
    requires Requested(ANSWERS, SPACE, BLOCKS, m, b, 2, Some(0), prefix, second) == true
    ensures Looks(b.state, FORK, {2}, {0, 1}, {}) == true
  {
    HitLooks(a, m, prefix, first, CHAIN, {1}, {0}, {});
    var t := ForkGrown(m.state.tree, CHAIN, 2, Some(0));
    CopiesSoFar();
    NextLooks(m, b, 2, Some(0), prefix, second, 1, t, CHAIN, {0}, {}, {0, 1}, {});
  }

  lemma TwoGoes()
    ensures PlaceOf(2).0 == Tlc && EndOf(2) == 2 && 2 !in {0, 1} + {} && 3 !in {0, 1} + {} && 3 !in FORK && 2 in APART
  {
    assert 2 in [2];
  }

  /** 3: 2 is written to TLC. */
  lemma RequestApart(a: Point, b: Point, prefix: set<Id>, result: AccessResult)
    requires Looks(a.state, FORK, {2}, {0, 1}, {}) == true && Sound(b.state) == true
    requires Requested(ANSWERS, SPACE, BLOCKS, a, b, 3, None, prefix, result) == true
    ensures Looks(b.state, APART, {3}, {0, 1}, {2}) == true
  {
    var t := ForkGrown(a.state.tree, FORK, 3, None);
    CopiesSoFar();
    TwoGoes();
    NextLooks(a, b, 3, None, prefix, result, 2, t, FORK, {0, 1}, {}, {0, 1}, {2});
  }

  /** 1: the migration that overruns. */
  lemma RequestHit(a: Point, b: Point, prefix: set<Id>, result: AccessResult)
    requires Looks(a.state, APART, {3}, {0, 1}, {2}) == true && prefix == {}
    requires Requested(ANSWERS, SPACE, BLOCKS, a, b, 1, None, prefix, result) == true
    ensures Used(b.state, Tlc) > SPACE.tlc
  {
    StoreOf(a.state, APART, {3}, {0, 1}, {2});
    var v, w := a.state.(active := Some(1)), b.state.(active := Some(1));
    assert a.state.(tree := a.state.tree, active := Some(1)) == v;
    SameLooks(a.state, v, APART, {3}, {0, 1}, {2});
    assert AccessDone(ANSWERS, SPACE, BLOCKS, v, w, 1, prefix, result, a.asked, b.asked, a.admissions, b.admissions);
    AccessHit(v, w, prefix, result, a.asked, b.asked, a.admissions, b.admissions);
  }

  lemma AccessHit(v: State, w: State, prefix: set<Id>, result: AccessResult, k0: nat, k1: nat, j: nat, next: nat)
    requires Looks(v, APART, {3}, {0, 1}, {2}) == true && prefix == {} && v.active == Some(1)
    requires AccessDone(ANSWERS, SPACE, BLOCKS, v, w, 1, prefix, result, k0, k1, j, next)
    ensures Used(w, Tlc) > SPACE.tlc
  {
    StoreOf(v, APART, {3}, {0, 1}, {2});
    var u, k :| ServedThen(ANSWERS, SPACE, BLOCKS, v, u, w, 1, prefix, k0, k, k1, ANSWERS.admit(j));
    ServedOverruns(v, w, prefix, k0, k);
  }

  lemma ServedOverruns(v: State, w: State, prefix: set<Id>, k0: nat, k1: nat)
    requires Looks(v, APART, {3}, {0, 1}, {2}) == true && prefix == {} && v.active == Some(1) && 1 in v.store
             && v.store[1].tier.Slc?
    requires ServedFrom(ANSWERS, SPACE, v, w, 1, prefix, k0, k1) == true
    ensures Used(w, Tlc) > SPACE.tlc
  {
    var room, path, relocated :| Migrated(ANSWERS, SPACE, v, room, w, 1, prefix, path, k0, k1, relocated);
    MigrationOf(v, room, w, prefix, path, k0, k1, relocated);
    HitOverruns(v, room, w, 0, prefix, path, k0 + 1, relocated);
  }

  lemma MigrationOf(v: State, room: State, w: State, prefix: set<Id>, path: seq<State>, k0: nat, k1: nat, relocated: bool)
    requires Migrated(ANSWERS, SPACE, v, room, w, 1, prefix, path, k0, k1, relocated) == true
    ensures MigrationDone(ANSWERS, SPACE, v, room, w, 1, 0, prefix, path, k0 + 1, relocated) == true
  {}

  lemma HitOverruns(v: State, room: State, w: State, stream: nat, prefix: set<Id>, path: seq<State>, k: nat,
                    relocated: bool)
    requires Looks(v, APART, {3}, {0, 1}, {2}) == true && prefix == {} && v.active == Some(1)
    requires MigrationDone(ANSWERS, SPACE, v, room, w, 1, stream, prefix, path, k, relocated) == true
    ensures Used(w, Tlc) > SPACE.tlc
  {
    StoreOf(v, APART, {3}, {0, 1}, {2});
    ForkShape(v.tree);
    JoinsRoot(v, prefix);
    RootMayJoin(v);
    AnswersDrive(v);
    MigrationDriven(ANSWERS, SPACE, v, room, w, 1, stream, prefix, path, k, relocated, 0);
  }

  lemma OneResident(store: map<Id, Location>, n: Id)
    requires n in store && store[n].tier.Slc?
    ensures InTier([n], store, Slc) == [n]
  {
    assert [n][1..] == [];
  }

  /** 0 can join the segment of 1. */
  lemma RootMayJoin(v: State)
    requires Looks(v, APART, {3}, {0, 1}, {2}) && v.active == Some(1)
    ensures MayJoin(v, 1, 0, {1}) == true
  {
    StoreOf(v, APART, {3}, {0, 1}, {2});
    ForkShape(v.tree);
    assert GivesWay(v, {1}, 2);
  }

  /** The policies drive out all that hangs aside. */
  lemma JoinsRoot(v: State, prefix: set<Id>)
    requires Looks(v, APART, {3}, {0, 1}, {2}) && prefix == {} && v.active == Some(1)
    ensures Leaf(v.tree, 1) == 1 && 1 in v.store && Sized(v.tree, v.store, 1) == 1
    ensures Aside(v.tree, 1, 0) == {2} && Off(v.store, {2}) == {2} && Shield(v, 1, prefix) == {1}
  {
    StoreOf(v, APART, {3}, {0, 1}, {2});
    ForkShape(v.tree);
    OneResident(v.store, 1);
    assert Elems([1]) == {1};
  }

  lemma AnswersDrive(v: State)
    ensures Drives(ANSWERS, v, {2}) == true
  {
    forall k: nat, t, s ensures DrivesAt(ANSWERS, v, {2}, k, t, s) {}
  }

  // ---- The run ----

  method Construct() returns (sim: Simulator.Sim)
    ensures fresh(sim) && Ours(sim) && sim.tree == EMPTY && sim.memory == {} && sim.store == map[]
  {
    sim := new Simulator.Sim(BLOCKS, SPACE, ANSWERS);
  }

  /** A simulator with these policies and capacities, between requests. */
  ghost predicate Ours(sim: Simulator.Sim)
    reads sim
  {
    && sim.Valid() && sim.active.None? && sim.memoryCapacity == BLOCKS && sim.capacity == SPACE && sim.policies == ANSWERS
  }

  method Ask(sim: Simulator.Sim, hashes: seq<Id>)
    returns (ghost points: seq<Point>, ghost protected: seq<Id>, ghost results: seq<AccessResult>)
    requires Ours(sim)
    modifies sim
    ensures Ours(sim) && |results| == |hashes| && ProtectedBy(old(sim.View()), hashes, protected)
    ensures Answered(ANSWERS, SPACE, BLOCKS, points, hashes, Elems(protected), results)
    ensures points[0] == old(sim.Here()) && points[|hashes|] == sim.Here()
  {
    var answers, hits;
    answers, hits, points, protected := sim.ProcessRequest(hashes);
    results := answers;
  }

  /** From the constructor, five requests bring two blocks into a TLC of one. */
  method Overrun() returns (sim: Simulator.Sim)
    ensures fresh(sim) && Ours(sim) && sim.Exceeded() && Used(sim.View(), Tlc) > SPACE.tlc
  {
    sim := Construct();
    AskRoot(sim);
    AskChain(sim);
    AskFork(sim);
    AskApart(sim);
    AskHit(sim);
  }

  method AskRoot(sim: Simulator.Sim)
    requires Ours(sim) && sim.tree == EMPTY && sim.memory == {} && sim.store == map[]
    modifies sim
    ensures Ours(sim) && Looks(sim.View(), ROOT, {0}, {}, {})
  {
    ghost var points, protected, results := Ask(sim, [0]);
    assert AnsweredAt(ANSWERS, SPACE, BLOCKS, points, [0], Elems(protected), results, 0);
    RequestRoot(points[0], points[1], Elems(protected), results[0]);
  }

  method AskChain(sim: Simulator.Sim)
    requires Ours(sim) && Looks(sim.View(), ROOT, {0}, {}, {})
    modifies sim
    ensures Ours(sim) && Looks(sim.View(), CHAIN, {1}, {0}, {})
  {
    ghost var points, protected, results := Ask(sim, [0, 1]);
    assert AnsweredAt(ANSWERS, SPACE, BLOCKS, points, [0, 1], Elems(protected), results, 0);
    assert AnsweredAt(ANSWERS, SPACE, BLOCKS, points, [0, 1], Elems(protected), results, 1);
    RequestChain(points[0], points[1], points[2], Elems(protected), results[0], results[1]);
  }

  method AskFork(sim: Simulator.Sim)
    requires Ours(sim) && Looks(sim.View(), CHAIN, {1}, {0}, {})
    modifies sim
    ensures Ours(sim) && Looks(sim.View(), FORK, {2}, {0, 1}, {})
  {
    ghost var points, protected, results := Ask(sim, [0, 2]);
    assert AnsweredAt(ANSWERS, SPACE, BLOCKS, points, [0, 2], Elems(protected), results, 0);
    assert AnsweredAt(ANSWERS, SPACE, BLOCKS, points, [0, 2], Elems(protected), results, 1);
    RequestFork(points[0], points[1], points[2], Elems(protected), results[0], results[1]);
  }

  method AskApart(sim: Simulator.Sim)
    requires Ours(sim) && Looks(sim.View(), FORK, {2}, {0, 1}, {})
    modifies sim
    ensures Ours(sim) && Looks(sim.View(), APART, {3}, {0, 1}, {2})
  {
    ghost var points, protected, results := Ask(sim, [3]);
    assert AnsweredAt(ANSWERS, SPACE, BLOCKS, points, [3], Elems(protected), results, 0);
    RequestApart(points[0], points[1], Elems(protected), results[0]);
  }

  /** The request names 1 as a root, so nothing is protected but its segment. */
  method AskHit(sim: Simulator.Sim)
    requires Ours(sim) && Looks(sim.View(), APART, {3}, {0, 1}, {2})
    modifies sim
    ensures Ours(sim) && Used(sim.View(), Tlc) > SPACE.tlc && sim.Exceeded()
  {
    ghost var v := sim.View();
    ghost var points, protected, results := Ask(sim, [1]);
    assert AnsweredAt(ANSWERS, SPACE, BLOCKS, points, [1], Elems(protected), results, 0);
    assert !OnPath(v.tree, v.memory, v.store, [1], 0);
    assert protected == [];
    RequestHit(points[0], points[1], Elems(protected), results[0]);
    UsedBounds(sim.View(), Tlc);
  }
}
