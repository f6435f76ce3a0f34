/** What an eviction comes to: its rounds, the walk they make up the segments, and the room it leaves in memory. */
module SimulatorRounds {
  import opened Prelude
  import opened Tiers
  import opened Forest
  import opened Pruning
  import opened Trace
  import opened SimulatorSteps
  import opened SimulatorState
  import opened SimulatorReclaim
  import opened SimulatorEviction
  import opened SimulatorRoom
  import opened SimulatorTurns

  // ---- One round ----

  /** A dump that fits: these blocks are stored where the policy says, and nothing else has changed. */
  ghost predicate Added(s: map<Id, Location>, r: map<Id, Location>, writes: seq<Id>, place: (Tier, nat)) {
    && r.Keys == s.Keys + Elems(writes) && (forall n <- s :: r[n] == s[n])
    && (forall n <- writes :: n in r && r[n].tier == place.0 && r[n].stream == place.1)
  }

  lemma DumpAdds(v: State, w: State, writes: seq<Id>, place: (Tier, nat))
    requires Dumping(v, w, writes, place.0, place.1, |writes|)
    ensures Added(v.store, w.store, writes, place) == true
  {
    assert writes[..|writes|] == writes;
  }

  /** What a round does to `nodes`: they leave memory, and nodes are pruned. */
  ghost predicate RoundOk(v: State, w: State, nodes: seq<Id>) {
    && w.active == v.active && v.trace <= w.trace && Shrunk(v.tree, w.tree)
    && w.memory == v.memory - Elems(nodes) && |w.memory| == |v.memory| - |nodes|
  }

  ghost predicate RoundDone(p: Policies, capacity: Pair<nat>, v: State, w: State, nodes: seq<Id>, k0: nat, k1: nat) {
    RoundOk(v, w, nodes) && Limited(p, capacity, v, w, k0, k1)
  }

  /** What a round writes: nothing if its blocks are dropped or have all been written; otherwise at most the unwritten
      ones, and if the policy leaves room exactly those, to the place it names. */
  ghost predicate RoundWritten(p: Policies, capacity: Pair<nat>, v: State, w: State, nodes: seq<Id>, drop: bool, k: nat) {
    var writes := Unwritten(nodes, v.store.Keys);
    if drop || writes == [] then w.trace == v.trace && w.store == v.store && w.tiers == v.tiers
    else DumpWritten(p, capacity, v, w, writes, k)
  }

  ghost predicate DumpWritten(p: Policies, capacity: Pair<nat>, v: State, w: State, writes: seq<Id>, k: nat) {
    && w.store.Keys <= v.store.Keys + Elems(writes)
    && (Fits(p, capacity, v, k + 1, p.place(k, writes).0, |writes|) ==> Added(v.store, w.store, writes, p.place(k, writes)))
  }

  lemma DumpPlaced(p: Policies, capacity: Pair<nat>, v: State, w: State, writes: seq<Id>, k: nat, next: nat)
    requires next == k + 1 && w.store.Keys <= v.store.Keys + Elems(writes)
    requires Fits(p, capacity, v, next, p.place(k, writes).0, |writes|) ==>
               Added(v.store, w.store, writes, p.place(k, writes)) == true
    ensures DumpWritten(p, capacity, v, w, writes, k) == true
  {}

  lemma RoundLater(p: Policies, capacity: Pair<nat>, v: State, w: State, nodes: seq<Id>, k0: nat, k1: nat, k2: nat)
    requires RoundDone(p, capacity, v, w, nodes, k1, k2) == true && k0 <= k1
    ensures RoundDone(p, capacity, v, w, nodes, k0, k2) == true
  {
    LimitedLater(p, capacity, v, w, k0, k1, k2);
  }

  /** Blocks that are dropped from memory after a dump, or without one. */
  lemma RoundForgets(p: Policies, capacity: Pair<nat>, v: State, w: State, u: State, nodes: seq<Id>, zone: iset<Id>,
      k0: nat, k1: nat)
    requires w.memory == v.memory && w.active == v.active && v.trace <= w.trace && Shrunk(v.tree, w.tree)
             && SharesKept(v.tree, w.tree)
    requires PrunedWithin(w.(memory := w.memory - Elems(nodes)), u, zone) == true && |u.memory| == |v.memory| - |nodes|
    requires Limited(p, capacity, v, w, k0, k1) == true
    ensures RoundDone(p, capacity, v, u, nodes, k0, k1) == true && SameStorage(w, u)
  {
    SharesThrough(v.tree, w.tree, u.tree);
    LimitedSame(p, capacity, w, u, k1, k1);
    LimitedThrough(p, capacity, v, w, u, k0, k1, k1);
  }

  /** Two rounds, the first of which has asked nothing and written nothing. */
  lemma RoundsAdd(p: Policies, capacity: Pair<nat>, v: State, w: State, u: State, gone: seq<Id>, nodes: seq<Id>, k: nat, k1: nat)
    requires RoundDone(p, capacity, v, w, gone, k, k) == true && RoundDone(p, capacity, w, u, nodes, k, k1) == true
    ensures RoundDone(p, capacity, v, u, gone + nodes, k, k1) == true
  {
    assert Elems(gone + nodes) == Elems(gone) + Elems(nodes);
    SharesTransitive(v.tree, w.tree, u.tree);
    LimitedThrough(p, capacity, v, w, u, k, k, k1);
  }

  lemma SharesTransitive(t: Tree, u: Tree, v: Tree)
    requires Shrunk(t, u) && Shrunk(u, v)
    ensures Shrunk(t, v)
  {}

  lemma RoundsWritten(p: Policies, capacity: Pair<nat>, v: State, w: State, u: State, gone: seq<Id>, nodes: seq<Id>,
      drop: bool, k: nat)
    requires RoundWritten(p, capacity, v, w, gone, drop, k) == true && Unwritten(gone, v.store.Keys) == []
    requires RoundWritten(p, capacity, w, u, nodes, drop, k) == true
    ensures RoundWritten(p, capacity, v, u, gone + nodes, drop, k) == true
  {
    UnwrittenAppend(gone, nodes, v.store.Keys);
    var writes := Unwritten(nodes, v.store.Keys);
    assert [] + writes == writes;
    if !drop && writes != [] {
      assert DumpWritten(p, capacity, w, u, writes, k);
      DumpSame(p, capacity, v, w, u, writes, k);
    }
  }

  lemma DumpSame(p: Policies, capacity: Pair<nat>, v: State, w: State, u: State, writes: seq<Id>, k: nat)
    requires w.store == v.store && w.tiers == v.tiers && DumpWritten(p, capacity, w, u, writes, k)
    ensures DumpWritten(p, capacity, v, u, writes, k) == true
  {}

  // ---- The walk ----

  /** What an eviction comes to: exactly the blocks of the walk leave memory; the unwritten ones among them, which are in
      its last round, are written if they are to be and there is room or the policy's answers make it. */
  ghost predicate Evicted(p: Policies, capacity: Pair<nat>, v: State, w: State, d: Eviction, prefix: set<Id>, k0: nat,
                      k1: nat) {
    && EvictionOk(v.tree, v.memory, d)
    && var gone := Walk(v.tree, v.memory, v.store.Keys, d, d.endpoint);
    && RoundDone(p, capacity, v, w, gone, k0, k1) && RoundWritten(p, capacity, v, w, gone, d.drop, k0)
    && (!d.drop && Unwritten(gone, v.store.Keys) != [] ==>
          DumpsLast(p, capacity, v, w, Unwritten(gone, v.store.Keys), prefix, k0))
  }

  lemma EvictedMeans(p: Policies, capacity: Pair<nat>, v: State, w: State, d: Eviction, prefix: set<Id>, k0: nat, k1: nat)
    requires Evicted(p, capacity, v, w, d, prefix, k0, k1) == true
    ensures EvictionOk(v.tree, v.memory, d)
    ensures var gone := Walk(v.tree, v.memory, v.store.Keys, d, d.endpoint);
      RoundDone(p, capacity, v, w, gone, k0, k1) == RoundWritten(p, capacity, v, w, gone, d.drop, k0) == true
  {}

  /** The last round of a walk dumps these blocks, all of the segment that ends at `e`. It begins with storage as it was
      when the walk began, and with the tree as it was from there upward. */
  ghost predicate LastDump(p: Policies, capacity: Pair<nat>, v: State, start: State, w: State, e: Id, writes: seq<Id>,
                           prefix: set<Id>, k: nat) {
    && start.store == v.store && start.tiers == v.tiers && start.trace == v.trace && start.active == v.active
    && start.memory <= v.memory && Unaffected(v.tree, start.tree, e) && (forall n <- writes :: n in Segment(v.tree, e))
    && DumpFollows(p, capacity, start, w, e, writes, prefix, k)
  }

  ghost predicate DumpsLast(p: Policies, capacity: Pair<nat>, v: State, w: State, writes: seq<Id>, prefix: set<Id>,
                      k: nat) {
    exists start, e :: LastDump(p, capacity, v, start, w, e, writes, prefix, k)
  }

  lemma DumpedLast(p: Policies, capacity: Pair<nat>, v: State, w: State, u: State, d: Eviction, gone: seq<Id>,
                   nodes: seq<Id>, e: Id,
                   prefix: set<Id>, k: nat)
    requires Walking(p, capacity, v, w, d, gone, Some(e), k) && nodes == Deepest(Segment(v.tree, e), v.memory, d.most)
    requires DumpFollows(p, capacity, w, u, e, Unwritten(nodes, w.store.Keys), prefix, k) == true
    ensures DumpsLast(p, capacity, v, u, Unwritten(gone + nodes, v.store.Keys), prefix, k) == true
  {
    UnwrittenAppend(gone, nodes, v.store.Keys);
    var writes := Unwritten(nodes, v.store.Keys);
    assert [] + writes == writes && w.store == v.store;
    assert LastDump(p, capacity, v, w, u, e, writes, prefix, k);
  }

  /** The walk has come to `endpoint`; `gone` are the blocks evicted so far, all of them written before. */
  ghost predicate Walking(p: Policies, capacity: Pair<nat>, v: State, w: State, d: Eviction, gone: seq<Id>,
      endpoint: Option<Id>, k: nat) {
    && EvictionOk(v.tree, v.memory, d) && RoundDone(p, capacity, v, w, gone, k, k)
    && RoundWritten(p, capacity, v, w, gone, d.drop, k) && Unwritten(gone, v.store.Keys) == []
    && match endpoint
       case None => Walk(v.tree, v.memory, v.store.Keys, d, d.endpoint) == gone
       case Some(e) => StandsAt(v, w, d, gone, e)
  }

  /** What is above `e` has not been touched, and the rest of the walk starts there. */
  ghost predicate StandsAt(v: State, w: State, d: Eviction, gone: seq<Id>, e: Id)
    requires EvictionOk(v.tree, v.memory, d)
  {
    && Unaffected(v.tree, w.tree, e) && (forall n <- gone :: Rank(v.tree, n) > Rank(v.tree, e))
    && (d.endpoint == e || !d.drop)
    && Walk(v.tree, v.memory, v.store.Keys, d, d.endpoint) == gone + Walk(v.tree, v.memory, v.store.Keys, d, e)
  }

  lemma WalkStart(p: Policies, capacity: Pair<nat>, v: State, d: Eviction, k: nat)
    requires Grown(v.tree) && EvictionOk(v.tree, v.memory, d)
    ensures Walking(p, capacity, v, v, d, [], Some(d.endpoint), k) == true
  {
    LimitedSame(p, capacity, v, v, k, k);
    var walk := Walk(v.tree, v.memory, v.store.Keys, d, d.endpoint);
    assert [] + walk == walk && v.memory - Elems([]) == v.memory;
  }

  /** The blocks of the next round are those that the walk names. */
  lemma RoundOfWalk(v: State, w: State, d: Eviction, gone: seq<Id>, e: Id)
    requires EvictionOk(v.tree, v.memory, d) && StandsAt(v, w, d, gone, e) && w.memory == v.memory - Elems(gone)
    ensures Grown(w.tree) && e in w.tree.parent && Segment(w.tree, e) == Segment(v.tree, e)
    ensures Deepest(Segment(v.tree, e), w.memory, d.most) == Deepest(Segment(v.tree, e), v.memory, d.most)
    ensures w.tree.parent[Segment(v.tree, e)[0]] == v.tree.parent[Segment(v.tree, e)[0]]
    ensures Distinct(Deepest(Segment(v.tree, e), w.memory, d.most))
  {
    SegmentUnaffected(v.tree, w.tree, e);
    forall n | n in Segment(v.tree, e) ensures n in w.memory <==> n in v.memory { SegmentRanks(v.tree, e, n); }
    DeepestSame(Segment(v.tree, e), w.memory, v.memory, d.most);
    SegmentDistinct(v.tree, e);
    DeepestDistinct(Segment(v.tree, e), w.memory, d.most);
    assert Segment(v.tree, e)[0] in Segment(w.tree, e);
  }

  lemma TopAbove(t: Tree, e: Id)
    requires Grown(t) && e in t.parent
    ensures var top := Segment(t, e)[0];
      top in t.parent && (t.parent[top].Some? ==> t.parent[top].value in t.parent && Rank(t, t.parent[top].value) < Rank(t, top))
  {
    assert Segment(t, e)[0] in Segment(t, e);
    assert NodeOk(t, Segment(t, e)[0]);
  }

  /** The segment that a walk goes on with. */
  function Onward(t: Tree, d: Eviction, e: Id): Option<Id>
    requires Grown(t) && e in t.parent
  {
    if !d.drop && d.reclaimParent then t.parent[Segment(t, e)[0]] else None
  }

  /** The walk from a segment whose chosen blocks have all been written. */
  lemma WalkFrom(t: Tree, memory: set<Id>, stored: set<Id>, d: Eviction, e: Id, nodes: seq<Id>)
    requires Grown(t) && e in t.parent && nodes == Deepest(Segment(t, e), memory, d.most) && Unwritten(nodes, stored) == []
    ensures match Onward(t, d, e)
            case None => Walk(t, memory, stored, d, e) == nodes
            case Some(p) => p in t.parent && Rank(t, p) < Rank(t, e) && Walk(t, memory, stored, d, e) == nodes + Walk(t, memory, stored, d, p)
  {
    SegmentTop(t, e);
  }

  lemma Regroup(a: seq<Id>, b: seq<Id>, c: seq<Id>)
    ensures a + (b + c) == (a + b) + c && a + [] == a
  {}

  /** After the round of the segment that ends at `e` the walk stands at the segment above. */
  lemma WalkUp(v: State, w: State, u: State, d: Eviction, gone: seq<Id>, nodes: seq<Id>, e: Id, p: Id)
    requires EvictionOk(v.tree, v.memory, d) && StandsAt(v, w, d, gone, e) && Onward(v.tree, d, e) == Some(p)
    requires nodes == Deepest(Segment(v.tree, e), v.memory, d.most) && Unwritten(nodes, v.store.Keys) == []
    requires Shrunk(w.tree, u.tree) && forall n <- w.tree.parent :: n !in u.tree.parent ==> n in Segment(v.tree, e)
    ensures StandsAt(v, u, d, gone + nodes, p) == true
  {
    RoundUnaffected(v.tree, w.tree, u.tree, e);
    AboveRound(v, w, d, gone, nodes, e, p);
    WalkFrom(v.tree, v.memory, v.store.Keys, d, e, nodes);
    var rest := Walk(v.tree, v.memory, v.store.Keys, d, p);
    Regroup(gone, nodes, rest);
  }

  lemma AboveRound(v: State, w: State, d: Eviction, gone: seq<Id>, nodes: seq<Id>, e: Id, p: Id)
    requires EvictionOk(v.tree, v.memory, d) && StandsAt(v, w, d, gone, e)
    requires nodes == Deepest(Segment(v.tree, e), v.memory, d.most) && v.tree.parent[Segment(v.tree, e)[0]] == Some(p)
    ensures forall n <- gone + nodes :: Rank(v.tree, n) > Rank(v.tree, p)
  {
    TopAbove(v.tree, e);
    SegmentTop(v.tree, e);
    forall n | n in gone + nodes ensures Rank(v.tree, n) > Rank(v.tree, p) {
      if n in nodes { SegmentRanks(v.tree, e, n); }
    }
  }

  /** A round after which the walk goes on. */
  lemma WalkOn(p: Policies, capacity: Pair<nat>, v: State, w: State, u: State, d: Eviction, gone: seq<Id>,
      nodes: seq<Id>, e: Id, k: nat)
    requires Walking(p, capacity, v, w, d, gone, Some(e), k) && !d.drop
    requires nodes == Deepest(Segment(v.tree, e), v.memory, d.most) && Unwritten(nodes, v.store.Keys) == []
    requires RoundDone(p, capacity, w, u, nodes, k, k) && RoundWritten(p, capacity, w, u, nodes, d.drop, k)
    requires forall n <- w.tree.parent :: n !in u.tree.parent ==> n in Segment(v.tree, e)
    ensures Walking(p, capacity, v, u, d, gone + nodes, Onward(v.tree, d, e), k) == true
    ensures Onward(v.tree, d, e).Some? ==> Rank(v.tree, Onward(v.tree, d, e).value) < Rank(v.tree, e)
  {
    RoundsAdd(p, capacity, v, w, u, gone, nodes, k, k);
    RoundsWritten(p, capacity, v, w, u, gone, nodes, d.drop, k);
    UnwrittenAppend(gone, nodes, v.store.Keys);
    WalkFrom(v.tree, v.memory, v.store.Keys, d, e, nodes);
    var next := Onward(v.tree, d, e);
    if next.Some? { WalkUp(v, w, u, d, gone, nodes, e, next.value); }
  }

  lemma RoundOfNothing(p: Policies, capacity: Pair<nat>, v: State, drop: bool, k: nat)
    requires Grown(v.tree)
    ensures RoundDone(p, capacity, v, v, [], k, k) == true && RoundWritten(p, capacity, v, v, [], drop, k) == true
  {
    LimitedSame(p, capacity, v, v, k, k);
    assert v.memory - Elems([]) == v.memory;
  }

  /** Before its last round a walk has left storage alone. */
  lemma WalkSpares(p: Policies, capacity: Pair<nat>, v: State, w: State, u: State, d: Eviction, gone: seq<Id>,
      endpoint: Option<Id>, k: nat,
                   prefix: set<Id>)
    requires Walking(p, capacity, v, w, d, gone, endpoint, k) == true && Spared(w, u, prefix) == true
    ensures Spared(v, u, prefix) == true
  {}

  lemma StoreSpares(v: State, w: State, u: State, prefix: set<Id>)
    requires Spared(v, w, prefix) == true && u.store == w.store
    ensures Spared(v, u, prefix) == true
  {}

  lemma SameSpares(v: State, w: State, prefix: set<Id>)
    requires w.store == v.store
    ensures Spared(v, w, prefix) == true
  {}

  /** A segment with nothing in memory. */
  lemma WalkPast(p: Policies, capacity: Pair<nat>, v: State, w: State, d: Eviction, gone: seq<Id>, e: Id, k: nat)
    requires Walking(p, capacity, v, w, d, gone, Some(e), k) && Deepest(Segment(v.tree, e), v.memory, d.most) == [] && !d.drop
    ensures Walking(p, capacity, v, w, d, gone, Onward(v.tree, d, e), k) == true
    ensures Onward(v.tree, d, e).Some? ==> Rank(v.tree, Onward(v.tree, d, e).value) < Rank(v.tree, e)
  {
    RoundOfNothing(p, capacity, w, d.drop, k);
    Regroup(gone, [], []);
    WalkOn(p, capacity, v, w, w, d, gone, [], e, k);
  }

  lemma WalkStops(t: Tree, memory: set<Id>, stored: set<Id>, d: Eviction, e: Id, nodes: seq<Id>)
    requires Grown(t) && e in t.parent && nodes == Deepest(Segment(t, e), memory, d.most)
             && (d.drop || Unwritten(nodes, stored) != [])
    ensures Walk(t, memory, stored, d, e) == nodes
  {}

  lemma EvictedAll(p: Policies, capacity: Pair<nat>, v: State, u: State, d: Eviction, gone: seq<Id>, prefix: set<Id>,
                   k: nat, k1: nat)
    requires EvictionOk(v.tree, v.memory, d) && Walk(v.tree, v.memory, v.store.Keys, d, d.endpoint) == gone
    requires RoundDone(p, capacity, v, u, gone, k, k1) == true && RoundWritten(p, capacity, v, u, gone, d.drop, k) == true
    requires !d.drop && Unwritten(gone, v.store.Keys) != [] ==>
               DumpsLast(p, capacity, v, u, Unwritten(gone, v.store.Keys), prefix, k) == true
    ensures Evicted(p, capacity, v, u, d, prefix, k, k1) == true
  {}

  /** The last round: one that drops its blocks or has had something to write. */
  lemma WalkEnd(p: Policies, capacity: Pair<nat>, v: State, w: State, u: State, d: Eviction, gone: seq<Id>, nodes: seq<Id>, e: Id,
                prefix: set<Id>, k: nat, k1: nat)
    requires Walking(p, capacity, v, w, d, gone, Some(e), k) && nodes == Deepest(Segment(v.tree, e), v.memory, d.most)
    requires d.drop || Unwritten(nodes, v.store.Keys) != []
    requires RoundDone(p, capacity, w, u, nodes, k, k1) && RoundWritten(p, capacity, w, u, nodes, d.drop, k)
    requires !d.drop ==> DumpFollows(p, capacity, w, u, e, Unwritten(nodes, w.store.Keys), prefix, k) == true
    ensures Evicted(p, capacity, v, u, d, prefix, k, k1) == true
  {
    if !d.drop { DumpedLast(p, capacity, v, w, u, d, gone, nodes, e, prefix, k); }
    RoundsAdd(p, capacity, v, w, u, gone, nodes, k, k1);
    RoundsWritten(p, capacity, v, w, u, gone, nodes, d.drop, k);
    WalkStops(v.tree, v.memory, v.store.Keys, d, e, nodes);
    EvictedAll(p, capacity, v, u, d, gone + nodes, prefix, k, k1);
  }

  lemma WalkDone(p: Policies, capacity: Pair<nat>, v: State, w: State, d: Eviction, gone: seq<Id>, prefix: set<Id>, k: nat)
    requires Walking(p, capacity, v, w, d, gone, None, k)
    ensures Evicted(p, capacity, v, w, d, prefix, k, k) == true
  {}

  /** A walk that drops has something to drop in its only round. */
  lemma DropsSomething(p: Policies, capacity: Pair<nat>, v: State, w: State, d: Eviction, gone: seq<Id>, e: Id, k: nat)
    requires Walking(p, capacity, v, w, d, gone, Some(e), k) && d.drop
    ensures Deepest(Segment(v.tree, e), v.memory, d.most) != []
  {}

  // ---- Room in memory ----

  /** A decision the simulator can carry out, and the policy's own if that is one. */
  ghost predicate Admissible(t: Tree, m: set<Id>, answer: Eviction, d: Eviction) {
    EvictionOk(t, m, d) && (EvictionOk(t, m, answer) ==> d == answer)
  }

  /** What makes room in a memory of so many blocks: nothing unless it is full; then the eviction that the policy
      decides on. */
  ghost predicate MadeRoom(p: Policies, capacity: Pair<nat>, blocks: nat, v: State, w: State, prefix: set<Id>,
                      k0: nat, k1: nat) {
    && Limited(p, capacity, v, w, k0, k1) && w.active == v.active && w.memory <= v.memory && v.trace <= w.trace
    && if |v.memory| < blocks then w == v
       else exists d :: Admissible(v.tree, v.memory, p.evict(k0, v.memory), d) && Evicted(p, capacity, v, w, d,
               prefix, k0 + 1, k1)
  }

  lemma RoomFree(p: Policies, capacity: Pair<nat>, blocks: nat, v: State, prefix: set<Id>, k: nat)
    requires |v.memory| < blocks
    ensures MadeRoom(p, capacity, blocks, v, v, prefix, k, k) == true
  {
    LimitedSame(p, capacity, v, v, k, k);
  }

  lemma EvictedRoom(p: Policies, capacity: Pair<nat>, blocks: nat, v: State, w: State, d: Eviction, prefix: set<Id>, k: nat,
                    next: nat, k1: nat)
    requires Admissible(v.tree, v.memory, p.evict(k, v.memory), d) == true && next == k + 1
    requires Evicted(p, capacity, v, w, d, prefix, next, k1) == true && |v.memory| == blocks
    ensures MadeRoom(p, capacity, blocks, v, w, prefix, k, k1) == true
    ensures w.active == v.active && |w.memory| < |v.memory| && w.memory <= v.memory
  {
    LimitedLater(p, capacity, v, w, k, next, k1);
    assert Evicted(p, capacity, v, w, d, prefix, k + 1, k1);
  }

  /** Room has been made in memory, and then `n` has entered it; protected storage copies are where they were. */
  ghost predicate Entered(p: Policies, capacity: Pair<nat>, blocks: nat, v: State, w: State, n: Id, prefix: set<Id>,
      k0: nat, k1: nat) {
    && Spared(v, w, prefix)
    && exists freed :: MadeRoom(p, capacity, blocks, v, freed, prefix, k0, k1) && w == freed.(memory := freed.memory + {n})
  }

  lemma EnteredLimited(p: Policies, capacity: Pair<nat>, blocks: nat, v: State, w: State, n: Id, prefix: set<Id>,
      k0: nat, k1: nat)
    requires Entered(p, capacity, blocks, v, w, n, prefix, k0, k1)
    ensures Limited(p, capacity, v, w, k0, k1) == true
  {
    var freed :| MadeRoom(p, capacity, blocks, v, freed, prefix, k0, k1) && w == freed.(memory := freed.memory + {n});
    LimitedSame(p, capacity, freed, w, k1, k1);
    LimitedThrough(p, capacity, v, freed, w, k0, k1, k1);
  }
}
