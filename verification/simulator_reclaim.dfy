/** What reclaiming may change, and how its steps add up. */
module SimulatorReclaim {
  import opened Prelude
  import opened Tiers
  import opened Forest
  import opened Pruning
  import opened Trace
  import opened SimulatorSteps
  import opened SimulatorState
  import opened SimulatorMoves
  import opened SimulatorEviction

  /** Only unprotected storage copies, and nodes left without copies, have been given up or moved; the trace has
      only grown. */
  ghost predicate Freed(v: State, w: State, shielded: set<Id>) {
    w.memory == v.memory && w.active == v.active && v.trace <= w.trace && Reclaimed(v.tree, v.store, w.tree, w.store, shielded)
  }

  ghost predicate InSlc(store: map<Id, Location>, n: Id) { n in store && store[n].tier.Slc? }

  ghost predicate SlcKept(v: State, w: State) { forall n :: InSlc(v.store, n) <==> InSlc(w.store, n) }

  /** Reclaiming for a tier never fills SLC, and reclaiming for TLC leaves SLC alone. */
  ghost predicate Relieved(v: State, w: State, tier: Tier) {
    && Used(w, Slc) <= Used(v, Slc)
    && (tier.Tlc? ==> w.tiers.slc == v.tiers.slc && Used(w, Tlc) <= Used(v, Tlc) && SlcKept(v, w))
  }

  lemma NothingFreed(v: State, shielded: set<Id>)
    requires Grown(v.tree)
    ensures Freed(v, v, shielded)
  {}

  lemma FreedThrough(v: State, w: State, u: State, outer: set<Id>, inner: set<Id>)
    requires Freed(v, w, outer) && Freed(w, u, inner) && outer <= inner
    ensures Freed(v, u, outer)
  {
    ReclaimedThrough(v.tree, v.store, w.tree, w.store, u.tree, u.store, outer, inner);
  }

  lemma TrimFrees(v: State, w: State, e: Id, tier: Tier, reason: Reason, target: Tier, shielded: set<Id>)
    requires Grown(v.tree) && e in v.tree.parent && SegmentTrimmed(v, w, e, tier,
            reason) && Elems(Segment(v.tree, e)) !! shielded
    requires target.Tlc? ==> tier.Tlc?
    ensures Freed(v, w, shielded) && Relieved(v, w, target)
  {}

  lemma MoveFrees(v: State, w: State, m: nat, nodes: seq<Id>, stream: nat, reason: Reason, shielded: set<Id>)
    requires Grown(v.tree) && MovedBlocks(v, w, m, nodes, stream, reason) && Elems(nodes) !! shielded
    ensures Freed(v, w, shielded)
  {
    forall n | n in shielded ensures ShieldHolds(v.tree, v.store, w.tree, w.store, n) {
      assert n !in Elems(nodes);
    }
  }

  /** Protected blocks are still where they were. */
  lemma StillMovable(v: State, w: State, nodes: seq<Id>, shielded: set<Id>)
    requires Placed(v) && Freed(v, w, shielded) && Movable(v, nodes) && Elems(nodes) <= shielded
    ensures Movable(w, nodes)
  {
    forall n | n in nodes ensures n in w.store && w.store[n].tier == Slc {
      assert n in Elems(nodes);
      assert ShieldHolds(v.tree, v.store, w.tree, w.store, n);
    }
  }

  lemma ResidentsMovable(v: State, e: Id)
    requires Grown(v.tree) && e in v.tree.parent
    ensures Movable(v, Residents(v.tree, v.store, e, Slc))
    ensures Elems(Residents(v.tree, v.store, e, Slc)) <= Elems(Segment(v.tree, e))
  {
    ResidentsDistinct(v.tree, v.store, e, Slc);
  }

  /** Twice the SLC blocks and once the TLC blocks: what every background action lowers. */
  function Load(v: State): int { 2 * Used(v, Slc) + Used(v, Tlc) }

  /** Making room in TLC and then moving blocks there from SLC. */
  lemma RelocationOutcome(v: State, w: State, u: State, m: nat, nodes: seq<Id>, stream: nat, reason: Reason,
                          shielded: set<Id>, combined: set<Id>)
    requires Freed(v, w, combined) && Relieved(v, w, Tlc) && MovedBlocks(w, u, m, nodes, stream, reason)
    requires shielded <= combined && Elems(nodes) !! shielded
    ensures Freed(v, u, shielded) == true
    ensures Used(u, Slc) <= Used(v, Slc) - |nodes| && Load(u) <= Load(v) - |nodes|
  {
    MoveFrees(w, u, m, nodes, stream, reason, shielded);
    NothingFreed(w, shielded);
    FreedThrough(v, w, w, shielded, combined);
    FreedThrough(v, w, u, shielded, shielded);
  }

  lemma TrimUnloads(v: State, w: State, e: Id, tier: Tier, reason: Reason)
    requires Grown(v.tree) && e in v.tree.parent && SegmentTrimmed(v, w, e, tier, reason) && Residents(v.tree,
            v.store, e, tier) != []
    ensures Load(w) < Load(v)
  {}

  // ---- Dumps ----

  /** The first blocks of a dump have been written and their writes logged; nothing else has changed. */
  ghost predicate Dumping(v: State, w: State, writes: seq<Id>, tier: Tier, stream: nat, i: nat) {
    && i <= |writes| && WritesLogged(v, w, writes, i) == true
    && w.tree == v.tree && w.memory == v.memory && w.active == v.active && w.moves == v.moves
    && StoredSoFar(v.store, w.store, writes, tier, stream, i)
    && Used(w, tier) == Used(v, tier) + i && Peak(w, tier) == Max(Peak(v, tier), Used(w, tier))
    && w.tiers.At(Other(tier)) == v.tiers.At(Other(tier))
  }

  ghost predicate StoredSoFar(s: map<Id, Location>, r: map<Id, Location>, writes: seq<Id>, tier: Tier, stream: nat,
                      i: nat) {
    && i <= |writes| && r.Keys == s.Keys + Elems(writes[..i]) && (forall n <- s :: r[n] == s[n])
    && (forall n <- writes[..i] :: n in r && r[n].tier == tier && r[n].stream == stream)
  }

  lemma StoredNext(s: map<Id, Location>, r: map<Id, Location>, writes: seq<Id>, tier: Tier, stream: nat, i: nat,
                   l: Location)
    requires StoredSoFar(s, r, writes, tier, stream,
            i) && i < |writes| && writes[i] !in r && l.tier == tier && l.stream == stream
    ensures StoredSoFar(s, r[writes[i] := l], writes, tier, stream, i + 1) == true
  {
    ElemsStep(writes, i);
    assert writes[..i + 1] == writes[..i] + [writes[i]];
  }

  ghost predicate WritesLogged(v: State, w: State, writes: seq<Id>, i: nat) {
    v.trace <= w.trace && Lines(v.trace, w.trace, Write, writes, w.store, MemoryDump, i)
  }

  lemma DumpWithin(v: State, w: State, writes: seq<Id>, tier: Tier, stream: nat, capacity: nat)
    requires Dumping(v, w, writes, tier, stream, |writes|) && (tier.Slc? ==> Used(v, tier) + |writes| <= capacity)
    ensures Peak(v, Slc) <= capacity ==> Peak(w, Slc) <= capacity
    ensures w.memory == v.memory && w.moves == v.moves
  {}

  lemma WritesNext(v: State, w: State, writes: seq<Id>, tier: Tier, stream: nat, i: nat)
    requires i < |writes| && writes[i] !in w.store && WritesLogged(v, w, writes, i) == true
    ensures WritesLogged(v, DumpedBlock(w, writes[i], tier, stream), writes, i + 1) == true
  {
    LinesNext(v.trace, w.trace, Write, writes, w.store, DumpedBlock(w, writes[i], tier, stream).store, MemoryDump, i);
  }

  lemma DumpNext(v: State, w: State, writes: seq<Id>, tier: Tier, stream: nat, i: nat)
    requires i < |writes| && Distinct(writes) && (forall n <- writes :: n !in v.store && n in v.tree.parent)
    requires Dumping(v, w, writes, tier, stream, i)
    ensures writes[i] !in w.store && writes[i] in w.tree.parent
    ensures Dumping(v, DumpedBlock(w, writes[i], tier, stream), writes, tier, stream, i + 1) == true
  {
    assert writes[i] in writes && writes[i] !in writes[..i];
    StoredNext(v.store, w.store, writes, tier, stream, i, Allocated(w, tier, stream));
    WritesNext(v, w, writes, tier, stream, i);
  }

  ghost predicate DumpSpared(v: State, w: State, writes: set<Id>, n: Id) {
    && n in w.tree.parent
    && (n in w.store <==> n in v.store || n in writes)
    && (n in v.store ==> w.store[n] == v.store[n])
  }

  /** A dump has written `writes` (nothing, if there was no room): the dumped segment is all there, its other
      copies are where they were, and its nodes still share a segment; no other copy has been made. */
  ghost predicate Dumped(v: State, w: State, segment: seq<Id>, writes: set<Id>) {
    && w.memory == v.memory && w.active == v.active && v.trace <= w.trace
    && Shrunk(v.tree, w.tree) && SharesKept(v.tree, w.tree) && w.store.Keys <= v.store.Keys + writes
    && forall n <- segment :: DumpSpared(v, w, writes, n)
  }

  lemma DumpOutcome(v: State, w: State, u: State, segment: seq<Id>, shielded: set<Id>, writes: seq<Id>, tier: Tier,
                    stream: nat)
    requires Placed(v) && (forall n <- segment :: n in v.tree.parent) && Freed(v, w, shielded) && Elems(segment) <= shielded
    requires Dumping(w, u, writes, tier, stream, |writes|)
    ensures Dumped(v, u, segment, Elems(writes)) == true
  {
    assert writes[..|writes|] == writes;
    forall n | n in segment ensures DumpSpared(v, u, Elems(writes), n) {
      assert n in Elems(segment);
      assert ShieldHolds(v.tree, v.store, w.tree, w.store, n);
    }
  }

  lemma DumpRejected(v: State, w: State, segment: seq<Id>, shielded: set<Id>)
    requires Placed(v) && (forall n <- segment :: n in v.tree.parent) && Freed(v, w, shielded) && Elems(segment) <= shielded
    ensures Dumped(v, w, segment, {}) == true
  {
    forall n | n in segment ensures DumpSpared(v, w, {}, n) {
      assert n in Elems(segment);
      assert ShieldHolds(v.tree, v.store, w.tree, w.store, n);
    }
  }

  /** Reclaiming for a dump leaves the blocks to be dumped in the tree and unwritten. */
  lemma StillUnwritten(v: State, w: State, segment: seq<Id>, shielded: set<Id>, writes: seq<Id>)
    requires Placed(v) && (forall n <- segment :: n in v.tree.parent) && Freed(v, w, shielded) && Elems(segment) <= shielded
    requires forall n <- writes :: n in segment && n !in v.store
    ensures forall n <- writes :: n !in w.store && n in w.tree.parent
  {
    forall n | n in writes ensures n !in w.store && n in w.tree.parent {
      assert n in Elems(segment);
      assert ShieldHolds(v.tree, v.store, w.tree, w.store, n);
    }
  }

  /** After a dump its endpoint is in the tree and the dumped segment lies within the endpoint's segment. */
  lemma DumpSegmentDefined(v: State, w: State, e: Id, writes: set<Id>)
    requires Grown(v.tree) && e in v.tree.parent && Dumped(v, w, Segment(v.tree, e), writes)
    ensures e in w.tree.parent
    ensures forall n <- Segment(v.tree, e) ::
              n in w.tree.parent && Leaf(w.tree, n) == Leaf(w.tree, e) && n in Segment(w.tree, Leaf(w.tree, e))
  {
    assert e in Segment(v.tree, e);
    assert DumpSpared(v, w, writes, e);
    forall n | n in Segment(v.tree, e)
      ensures n in w.tree.parent && Leaf(w.tree, n) == Leaf(w.tree, e) && n in Segment(w.tree, Leaf(w.tree, e))
    {
      assert DumpSpared(v, w, writes, n);
      SegmentShares(v.tree, e, n);
      LeafInSegment(w.tree, n);
    }
  }

  /** The zone within which pruning a dumped segment stays. */
  lemma DumpZone(v: State, w: State, e: Id, writes: set<Id>)
    requires Grown(v.tree) && e in v.tree.parent && Dumped(v, w, Segment(v.tree, e), writes)
    ensures e in w.tree.parent && Fenced(w.tree, iset n | n in Segment(w.tree, Leaf(w.tree, e))) == true
    ensures forall n <- Segment(v.tree, e) :: n in Segment(w.tree, Leaf(w.tree, e))
  {
    DumpSegmentDefined(v, w, e, writes);
    SegmentFenced(w.tree, Leaf(w.tree, e));
  }

  // ---- Access migrations ----

  /** The storage hit on `n` has been logged, at the location the block had. */
  ghost predicate HitLogged(v: State, w: State, n: Id) {
    && n in v.store && v.trace <= w.trace
    && exists i :: |v.trace| <= i < |w.trace| && HitAt(w.trace, n, v.store[n], i)
  }

  ghost predicate HitAt(trace: seq<IoEvent>, n: Id, l: Location, i: nat) {
    i < |trace| && trace[i].op.Read? && trace[i].node == n && trace[i].location == l && trace[i].reason.StorageHit?
  }

  lemma HitLater(v: State, w: State, u: State, n: Id)
    requires v.trace <= w.trace && n in v.store && n in w.store && w.store[n] == v.store[n] && HitLogged(w, u, n)
    ensures HitLogged(v, u, n)
  {
    var i :| |w.trace| <= i < |u.trace| && HitAt(u.trace, n, w.store[n], i);
    assert HitAt(u.trace, n, v.store[n], i);
  }

  lemma HitFirst(v: State, w: State, u: State, n: Id, i: nat)
    requires n in v.store && i == |v.trace| && v.trace <= w.trace <= u.trace && HitAt(w.trace, n, v.store[n], i)
    ensures HitLogged(v, u, n)
  {
    assert HitAt(u.trace, n, v.store[n], i);
  }

  /** The SLC blocks of a segment, counted against the copies there were before reclaiming. */
  function Sized(t: Tree, store: map<Id, Location>, e: Id): nat
    requires Grown(t) && e in t.parent
  {
    |Residents(t, store, e, Slc)|
  }

  lemma {:induction false} InTierSame(nodes: seq<Id>, s: map<Id, Location>, r: map<Id, Location>)
    requires forall n :: InSlc(s, n) <==> InSlc(r, n)
    ensures InTier(nodes, s, Slc) == InTier(nodes, r, Slc)
  {
    if nodes != [] {
      assert InSlc(s, nodes[0]) <==> InSlc(r, nodes[0]);
      InTierSame(nodes[1..], s, r);
    }
  }

  /** After room was made in TLC the accessed block is where it was, its endpoint is in the tree, and the segment
      that ends there holds it; the segment may have grown at the top, and holds at least the blocks it was sized
      for. The blocks that will be moved are exactly its SLC blocks of before, which are more than it was sized
      for exactly if a node that joined it holds an SLC copy. */
  lemma MigrationReady(v: State, w: State, n: Id, shielded: set<Id>)
    requires Placed(v) && n in v.store && v.store[n].tier == Slc && Freed(v, w, shielded) && Relieved(v, w, Tlc)
    requires Elems(Segment(v.tree, Leaf(v.tree, n))) <= shielded
    ensures n in w.store && w.store[n] == v.store[n]
    ensures var e := Leaf(v.tree, n);
      && Grown(w.tree) && e in w.tree.parent
      && n in Residents(w.tree, w.store, e, Slc)
      && Residents(w.tree, w.store, e, Slc) == Residents(w.tree, v.store, e, Slc)
      && (forall x <- Segment(v.tree, e) :: x in Segment(w.tree, e))
  {
    var e := Leaf(v.tree, n);
    LeafInSegment(v.tree, n);
    forall x | x in Segment(v.tree, e) ensures x in w.tree.parent {
      assert x in Elems(Segment(v.tree, e));
      assert ShieldHolds(v.tree, v.store, w.tree, w.store, x);
    }
    assert n in Elems(Segment(v.tree, e));
    assert ShieldHolds(v.tree, v.store, w.tree, w.store, n);
    SegmentKept(v.tree, w.tree, e);
    InTierSame(Segment(w.tree, e), w.store, v.store);
  }

  /** The migration moves at least what it was sized for, and more exactly if some SLC copy of the segment it
      finds was not in the segment it was sized for. */
  lemma OverrunExactly(t: Tree, u: Tree, store: map<Id, Location>, e: Id)
    requires Shrunk(t, u) && e in t.parent && forall n <- Segment(t, e) :: n in u.parent
    ensures e in u.parent && Sized(u, store, e) >= Sized(t, store, e)
    ensures Sized(u, store, e) > Sized(t, store, e) <==> exists n <- Segment(u, e) :: n !in Segment(t, e) && InSlc(store, n)
  {
    SegmentKept(t, u, e);
    var few, many := Residents(t, store, e, Slc), Residents(u, store, e, Slc);
    ResidentsDistinct(t, store, e, Slc);
    ResidentsDistinct(u, store, e, Slc);
    DistinctSize(few);
    DistinctSize(many);
    assert Elems(few) <= Elems(many);
    SubsetSize(Elems(few), Elems(many));
    if exists n <- Segment(u, e) :: n !in Segment(t, e) && InSlc(store, n) {
      var n :| n in Segment(u, e) && n !in Segment(t, e) && InSlc(store, n);
      assert n in many && n !in few;
      SubsetSize(Elems(few) + {n}, Elems(many));
    } else {
      assert Elems(few) == Elems(many) by {
        forall x | x in many ensures x in few { assert InSlc(store, x); }
      }
    }
  }
}
