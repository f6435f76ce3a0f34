/** The simulator's shared state as a value, the elementary steps on it, and the invariant they keep. */
module SimulatorState {
  import opened Prelude
  import opened Tiers
  import opened Forest
  import opened Pruning
  import opened Allocator
  import opened Trace
  import opened SimulatorSteps

  datatype State = State(
    tree: Tree, memory: set<Id>, store: map<Id, Location>, tiers: Pair<Blocks>, trace: seq<IoEvent>,
    active: Option<Id>,
    device: Device,                  // what a device holds after replaying the trace
    moves: map<nat, Relocation>)     // the complete relocations of the trace

  /** Copies belong to nodes of the tree. */
  ghost predicate Placed(v: State) {
    && Grown(v.tree) && v.memory <= v.tree.parent.Keys && v.store.Keys <= v.tree.parent.Keys
    && (v.active.Some? ==> v.active.value in v.tree.parent)
  }

  /** Replaying the trace from nothing gives exactly the storage copies of the tree, and the allocators have
      handed out exactly their addresses. */
  ghost predicate Logged(v: State) {
    && Replay(v.trace) == Some(v.device) && Matches(v.device, v.store, {})
    && Occupies(v.tiers.slc, Addresses(v.device, Slc)) && Occupies(v.tiers.tlc, Addresses(v.device, Tlc))
  }

  /** Every leaf without a copy, other than the active node, is a suspect. */
  ghost predicate Tidy(v: State, suspects: set<Id>) {
    BareWithin(v.tree, v.memory + v.store.Keys, v.active, suspects)
  }

  ghost predicate HandedOut(trace: seq<IoEvent>, tiers: Pair<Blocks>, reserved: set<nat>, tier: Tier, a: nat) {
    a < tiers.At(tier).next <==> a in WrittenTo(trace, tier) || (tier.Tlc? && a in reserved)
  }

  /** Every address that an allocator has ever handed out has been written, apart from the `reserved` ones of TLC,
      and no other has. */
  ghost predicate Addressed(trace: seq<IoEvent>, tiers: Pair<Blocks>, reserved: set<nat>) {
    forall tier, a :: HandedOut(trace, tiers, reserved, tier, a)
  }

  /** An event that writes no address, and allocators that hand out none. */
  lemma NothingHandedOut(trace: seq<IoEvent>, tiers: Pair<Blocks>, reserved: set<nat>, ev: IoEvent, after: Pair<Blocks>)
    requires Addressed(trace, tiers, reserved) && !ev.op.Write?
    requires after.slc.next == tiers.slc.next && after.tlc.next == tiers.tlc.next
    ensures Addressed(trace + [ev], after, reserved)
  {
    WrittenAppend(trace, ev);
    forall tier, a: nat ensures HandedOut(trace + [ev], after, reserved, tier, a) {
      assert HandedOut(trace, tiers, reserved, tier, a);
    }
  }

  lemma TakeBelow(b: Blocks, occupied: set<nat>, a: nat)
    requires Occupies(b, occupied)
    ensures a < Taken(b).next <==> a < b.next || a == NextAddress(b)
  {
    assert AddressOk(b, occupied, NextAddress(b));
  }

  /** The write of an address that is handed out for it. */
  lemma AddressWritten(v: State, tier: Tier, ev: IoEvent)
    requires Addressed(v.trace, v.tiers, {}) && Occupies(v.tiers.At(tier), Addresses(v.device, tier))
    requires ev.op.Write? && ev.location.tier == tier && ev.location.address == NextAddress(v.tiers.At(tier))
    ensures Addressed(v.trace + [ev], v.tiers.With(tier, Taken(v.tiers.At(tier))), {})
  {
    WrittenAppend(v.trace, ev);
    var after := v.tiers.With(tier, Taken(v.tiers.At(tier)));
    forall t, a: nat ensures HandedOut(v.trace + [ev], after, {}, t, a) {
      assert HandedOut(v.trace, v.tiers, {}, t, a);
      TakeBelow(v.tiers.At(tier), Addresses(v.device, tier), a);
    }
  }

  ghost predicate Base(v: State, suspects: set<Id>) {
    && Placed(v) && Logged(v) && Recorded(v.trace, v.moves, None) && Tidy(v, suspects)
    && Addressed(v.trace, v.tiers, {})
  }

  /** The invariant between steps: every leaf but the active node holds a copy. */
  ghost predicate Sound(v: State) { Base(v, {}) }

  function Used(v: State, tier: Tier): int { v.tiers.At(tier).used }
  function Peak(v: State, tier: Tier): int { v.tiers.At(tier).peak }

  lemma UsedBounds(v: State, tier: Tier)
    requires Logged(v)
    ensures 0 <= Used(v, tier) <= Peak(v, tier)
  {}

  function Emitted(v: State, ev: IoEvent): State {
    v.(trace := v.trace + [ev], device := match Apply(v.device, ev) case Some(d) => d case None => v.device)
  }

  // ---- Trims ----

  function Plain(op: Operation, n: Id, l: Location, reason: Reason): IoEvent { IoEvent(op, n, l, reason, None, None) }

  function TrimmedBlock(v: State, n: Id, reason: Reason): State
    requires n in v.store
  {
    var l := v.store[n];
    Emitted(v, Plain(Trim, n, l, reason)).(
      tiers := v.tiers.With(l.tier, Returned(v.tiers.At(l.tier), l.address)),
      store := v.store - {n})
  }

  lemma TrimLogged(v: State, n: Id, reason: Reason)
    requires Logged(v) && n in v.store
    ensures Logged(TrimmedBlock(v, n, reason))
  {
    var l := v.store[n];
    TrimMatches(v.device, v.store, n);
    AddressesRemove(v.device, SlotOf(l));
    ReplayAppend(v.trace, Plain(Trim, n, l, reason));
    ReturnOccupies(v.tiers.At(l.tier), Addresses(v.device, l.tier), l.address);
  }

  lemma TrimBase(v: State, suspects: set<Id>, n: Id, reason: Reason)
    requires Base(v, suspects) && n in v.store
    ensures Base(TrimmedBlock(v, n, reason), suspects + {n})
  {
    TrimLogged(v, n, reason);
    NothingHandedOut(v.trace, v.tiers, {}, Plain(Trim, n, v.store[n], reason), TrimmedBlock(v, n, reason).tiers);
    AppendRecorded(v.trace, v.moves, None, Plain(Trim, n, v.store[n], reason));
    LoseCopy(v.tree, v.memory + v.store.Keys, v.memory + (v.store - {n}).Keys, v.active, suspects, n);
  }

  ghost predicate Line(trace: seq<IoEvent>, start: nat, op: Operation, nodes: seq<Id>, store: map<Id, Location>,
                      reason: Reason, x: nat) {
    && x < |nodes| && nodes[x] in store && start + x < |trace|
    && trace[start + x] == Plain(op, nodes[x], store[nodes[x]], reason)
  }

  /** What has been logged from `before` to `after`: one operation on each of the first `i` blocks of a list, in order,
      at the locations that `store` names. */
  ghost predicate Lines(before: seq<IoEvent>, after: seq<IoEvent>, op: Operation, nodes: seq<Id>, store: map<Id, Location>,
                        reason: Reason, i: nat) {
    && before <= after && |after| == |before| + i
    && forall x | 0 <= x < i :: Line(after, |before|, op, nodes, store, reason, x)
  }

  lemma LinesNext(before: seq<IoEvent>, after: seq<IoEvent>, op: Operation, nodes: seq<Id>, store: map<Id, Location>,
                  more: map<Id, Location>, reason: Reason, i: nat)
    requires Lines(before, after, op, nodes, store, reason, i) && i < |nodes| && nodes[i] in more
    requires forall n <- store :: n in more && more[n] == store[n]
    ensures Lines(before, after + [Plain(op, nodes[i], more[nodes[i]], reason)], op, nodes, more, reason, i + 1) == true
  {
    var longer := after + [Plain(op, nodes[i], more[nodes[i]], reason)];
    forall x | 0 <= x < i + 1 ensures Line(longer, |before|, op, nodes, more, reason, x) {
      if x < i { assert Line(after, |before|, op, nodes, store, reason, x); }
    }
  }

  /** The first blocks of a list, all in one tier, have been trimmed, for this reason. */
  ghost predicate Trimming(v: State, w: State, nodes: seq<Id>, tier: Tier, reason: Reason, i: nat) {
    && i <= |nodes| && Base(w, Elems(nodes[..i])) && Lines(v.trace, w.trace, Trim, nodes, v.store, reason, i) == true
    && w.tree == v.tree && w.memory == v.memory && w.active == v.active && w.moves == v.moves
    && w.store == v.store - Elems(nodes[..i])
    && Used(w, tier) == Used(v, tier) - i && Peak(w, tier) == Peak(v, tier)
    && w.tiers.At(Other(tier)) == v.tiers.At(Other(tier))
  }

  lemma TrimStart(v: State, nodes: seq<Id>, tier: Tier, reason: Reason)
    requires Sound(v)
    ensures Trimming(v, v, nodes, tier, reason, 0) == true
  {
    assert nodes[..0] == [] && v.store - {} == v.store;
  }

  lemma TrimNext(v: State, w: State, nodes: seq<Id>, tier: Tier, i: nat, reason: Reason)
    requires i < |nodes| && Distinct(nodes) && (forall n <- nodes :: n in v.store && v.store[n].tier == tier)
    requires Trimming(v, w, nodes, tier, reason, i)
    ensures nodes[i] in w.store && Trimming(v, TrimmedBlock(w, nodes[i], reason), nodes, tier, reason, i + 1) == true
  {
    LinesNext(v.trace, w.trace, Trim, nodes, v.store, v.store, reason, i);
    ElemsStep(nodes, i);
    assert nodes[i] in nodes && nodes[i] !in nodes[..i];
    TrimBase(w, Elems(nodes[..i]), nodes[i], reason);
    assert v.store - Elems(nodes[..i]) - {nodes[i]} == v.store - Elems(nodes[..i + 1]);
  }

  // ---- Dump writes ----

  function Allocated(v: State, tier: Tier, stream: nat): Location {
    Location(tier, NextAddress(v.tiers.At(tier)), stream)
  }

  function DumpedBlock(v: State, n: Id, tier: Tier, stream: nat): State {
    var l := Allocated(v, tier, stream);
    Emitted(v, Plain(Write, n, l, MemoryDump)).(
      tiers := v.tiers.With(tier, Taken(v.tiers.At(tier))),
      store := v.store[n := l])
  }

  lemma DumpLogged(v: State, n: Id, tier: Tier, stream: nat)
    requires Logged(v) && n !in v.store
    ensures Logged(DumpedBlock(v, n, tier, stream))
  {
    var l := Allocated(v, tier, stream);
    TakeOccupies(v.tiers.At(tier), Addresses(v.device, tier));
    if SlotOf(l) in v.device { AddressesRemove(v.device, SlotOf(l)); }
    WriteMatches(v.device, v.store, {}, n, l);
    ReplayAppend(v.trace, Plain(Write, n, l, MemoryDump));
  }

  lemma DumpBase(v: State, n: Id, tier: Tier, stream: nat)
    requires Sound(v) && n !in v.store && n in v.tree.parent
    ensures Sound(DumpedBlock(v, n, tier, stream))
    ensures NextAddress(v.tiers.At(tier)) < Peak(DumpedBlock(v, n, tier, stream), tier)
  {
    DumpLogged(v, n, tier, stream);
    TakeOccupies(v.tiers.At(tier), Addresses(v.device, tier));
    AddressWritten(v, tier, Plain(Write, n, Allocated(v, tier, stream), MemoryDump));
    AppendRecorded(v.trace, v.moves, None, Plain(Write, n, Allocated(v, tier, stream), MemoryDump));
    var w := DumpedBlock(v, n, tier, stream);
    GainCopy(v.tree, v.memory + v.store.Keys, w.memory + w.store.Keys, v.active, {});
  }

  // ---- Reads of storage hits ----

  lemma ReadLogged(v: State, n: Id, ev: IoEvent)
    requires Logged(v) && n in v.store && ev.op.Read? && ev.node == n && ev.location == v.store[n]
    ensures Logged(Emitted(v, ev)) && Emitted(v, ev).device == v.device
  {
    assert CopyHeld(v.device, v.store, {}, n);
    ReplayAppend(v.trace, ev);
  }

  lemma HitBase(v: State, suspects: set<Id>, n: Id)
    requires Base(v, suspects) && n in v.store
    ensures Base(Emitted(v, Plain(Read, n, v.store[n], StorageHit)), suspects)
  {
    ReadLogged(v, n, Plain(Read, n, v.store[n], StorageHit));
    NothingHandedOut(v.trace, v.tiers, {}, Plain(Read, n, v.store[n], StorageHit), v.tiers);
    AppendRecorded(v.trace, v.moves, None, Plain(Read, n, v.store[n], StorageHit));
  }

  // ---- Pruning ----

  function Pruned(v: State, n: Id): State { v.(tree := Remove(v.tree, n)) }

  lemma PruneBase(v: State, suspects: set<Id>, n: Id)
    requires Base(v, suspects + {n}) && n in v.tree.parent && Children(v.tree, n) == {}
    requires n !in v.memory && n !in v.store && v.active != Some(n)
    ensures Base(Pruned(v, n), suspects + (if v.tree.parent[n].Some? then {v.tree.parent[n].value} else {}))
  {
    RemoveBare(v.tree, v.memory + v.store.Keys, v.active, suspects, n);
    RemoveGrows(v.tree, n);
  }

  /** Pruning has removed only nodes of the zone that had no copies. */
  ghost predicate PrunedWithin(v: State, w: State, zone: iset<Id>) {
    && w == v.(tree := w.tree)
    && Shrunk(v.tree, w.tree) && SharesKept(v.tree, w.tree)
    && forall n <- v.tree.parent :: n !in w.tree.parent ==>
         n in zone && n !in v.memory && n !in v.store && v.active != Some(n)
  }

  lemma PrunedKeeps(v: State, memory: set<Id>, w: State, zone: iset<Id>)
    requires PrunedWithin(v.(memory := memory), w, zone)
    ensures w.tiers == v.tiers && w.moves == v.moves && w.memory == memory && w.store == v.store && w.trace == v.trace
  {}

  lemma PrunedThrough(v: State, w: State, u: State, zone: iset<Id>)
    requires PrunedWithin(v, w, zone) && PrunedWithin(w, u, zone)
    ensures PrunedWithin(v, u, zone)
  {
    SharesThrough(v.tree, w.tree, u.tree);
  }

  lemma PruneOne(v: State, w: State, zone: iset<Id>, n: Id)
    requires PrunedWithin(v, w, zone) && n in w.tree.parent && Children(w.tree, n) == {}
    requires n in zone && n !in w.memory && n !in w.store && w.active != Some(n)
    ensures PrunedWithin(v, Pruned(w, n), zone)
  {
    RemoveShares(w.tree, n);
    assert PrunedWithin(w, Pruned(w, n), zone);
    PrunedThrough(v, w, Pruned(w, n), zone);
  }

  /** A node that is not a leaf without copies is no suspect. */
  lemma NotBare(v: State, suspects: set<Id>, n: Id)
    requires Base(v, suspects + {n}) && !BareLeaf(v.tree, v.memory + v.store.Keys, v.active, n)
    ensures Base(v, suspects)
  {
    forall m: Id ensures BareLeaf(v.tree, v.memory + v.store.Keys, v.active, m) ==> m in suspects {
      assert BareLeaf(v.tree, v.memory + v.store.Keys, v.active, m) ==> m in suspects + {n};
    }
  }

  /** The outcome of trimming one tier of a segment: exactly these trims are logged, for this reason. */
  ghost predicate SegmentTrimmed(v: State, w: State, e: Id, tier: Tier, reason: Reason)
    requires Grown(v.tree) && e in v.tree.parent
  {
    && w.memory == v.memory && w.active == v.active && w.moves == v.moves
    && TrimsLogged(v, w, Residents(v.tree, v.store, e, tier), reason) == true
    && w.store == v.store - Elems(Residents(v.tree, v.store, e, tier))
    && Used(w, tier) == Used(v, tier) - |Residents(v.tree, v.store, e, tier)| && Peak(w, tier) == Peak(v, tier)
    && w.tiers.At(Other(tier)) == v.tiers.At(Other(tier))
    && forall shielded :: Elems(Segment(v.tree, e)) !! shielded ==> Reclaimed(v.tree, v.store, w.tree, w.store, shielded)
  }

  /** Nothing has been logged but a trim of each of these blocks, in order. */
  ghost predicate TrimsLogged(v: State, w: State, nodes: seq<Id>, reason: Reason) {
    v.trace <= w.trace && Lines(v.trace, w.trace, Trim, nodes, v.store, reason, |nodes|)
  }

  lemma TrimOutcome(v: State, w: State, e: Id, tier: Tier, nodes: seq<Id>, reason: Reason)
    requires Grown(v.tree) && e in v.tree.parent && nodes == Residents(v.tree, v.store, e, tier)
    requires w.memory == v.memory && w.active == v.active && w.moves == v.moves && w.store == v.store - Elems(nodes)
    requires Used(w, tier) == Used(v, tier) - |nodes| && Peak(w, tier) == Peak(v, tier)
    requires Lines(v.trace, w.trace, Trim, nodes, v.store, reason, |nodes|) == true
    requires w.tiers.At(Other(tier)) == v.tiers.At(Other(tier))
    requires Shrunk(v.tree, w.tree) && SharesKept(v.tree, w.tree)
    requires forall n <- v.tree.parent :: n !in w.tree.parent ==> n in Segment(v.tree, e)
    ensures SegmentTrimmed(v, w, e, tier, reason)
  {
    TrimReclaims(v.tree, v.store, e, w.tree, w.store, nodes);
  }

  lemma MoreSuspects(v: State, few: set<Id>, many: set<Id>)
    requires Base(v, few) && few <= many
    ensures Base(v, many) == true
  {}

  // ---- Losing a memory copy, starting and ending an access ----

  function Forgotten(v: State, n: Id): State { v.(memory := v.memory - {n}) }

  lemma ForgetBase(v: State, suspects: set<Id>, n: Id)
    requires Base(v, suspects)
    ensures Base(Forgotten(v, n), suspects + {n})
  {
    LoseCopy(v.tree, v.memory + v.store.Keys, v.memory - {n} + v.store.Keys, v.active, suspects, n);
  }

  /** The first memory copies of a list have been dropped. */
  ghost predicate Forgetting(v: State, w: State, nodes: seq<Id>, i: nat) {
    i <= |nodes| && w == v.(memory := v.memory - Elems(nodes[..i])) && Base(w, Elems(nodes[..i]))
  }

  lemma ForgetStart(v: State, nodes: seq<Id>)
    requires Sound(v)
    ensures Forgetting(v, v, nodes, 0) == true
  {
    assert nodes[..0] == [] && v.memory - {} == v.memory;
  }

  lemma ForgetEnd(v: State, w: State, nodes: seq<Id>, segment: seq<Id>)
    requires Forgetting(v, w, nodes, |nodes|) && forall n <- nodes :: n in segment
    ensures w == v.(memory := v.memory - Elems(nodes)) && Base(w, Elems(segment)) == true
  {
    assert nodes[..|nodes|] == nodes;
    MoreSuspects(w, Elems(nodes), Elems(segment));
  }

  lemma ForgetNext(v: State, w: State, nodes: seq<Id>, i: nat)
    requires i < |nodes| && Distinct(nodes) && (forall n <- nodes :: n in v.memory) && Forgetting(v, w, nodes, i)
    ensures nodes[i] in w.memory && Forgetting(v, Forgotten(w, nodes[i]), nodes, i + 1) == true
  {
    ElemsStep(nodes, i);
    assert nodes[i] in nodes && nodes[i] !in nodes[..i];
    ForgetBase(w, Elems(nodes[..i]), nodes[i]);
    assert v.memory - Elems(nodes[..i]) - {nodes[i]} == v.memory - Elems(nodes[..i + 1]);
  }

  /** The node being accessed need not hold a copy. */
  lemma Activate(v: State, n: Id)
    requires Base(v, {n}) && n in v.tree.parent && v.active.None?
    ensures Sound(v.(active := Some(n))) == true
  {
    var w := v.(active := Some(n));
    forall m: Id ensures !BareLeaf(w.tree, w.memory + w.store.Keys, w.active, m) {
      assert BareLeaf(v.tree, v.memory + v.store.Keys, v.active, m) ==> m in {n};
    }
  }

  lemma Deactivate(v: State, n: Id)
    requires Sound(v) && v.active == Some(n) && (n in v.memory || n in v.store)
    ensures Sound(v.(active := None)) == true
  {
    var w := v.(active := None);
    forall m: Id ensures !BareLeaf(w.tree, w.memory + w.store.Keys, w.active, m) {
      assert BareLeaf(v.tree, v.memory + v.store.Keys, v.active, m) ==> m in {};
    }
  }

  lemma ActiveInTree(v: State, n: Id)
    requires Sound(v) && v.active == Some(n)
    ensures n in v.tree.parent
  {}

  lemma StoredInTree(v: State, n: Id)
    requires Sound(v) && n in v.store
    ensures n in v.tree.parent
  {}

  lemma Admitted(v: State, n: Id)
    requires Sound(v) && n in v.tree.parent
    ensures Sound(v.(memory := v.memory + {n})) == true
  {
    GainCopy(v.tree, v.memory + v.store.Keys, v.memory + {n} + v.store.Keys, v.active, {});
  }

  /** A new node is bare until its first access has given it a copy. */
  lemma Created(v: State, n: Id, parent: Option<Id>)
    requires Sound(v) && v.active.None? && n !in v.tree.parent && (parent.Some? ==> parent.value in v.tree.parent)
    ensures Base(v.(tree := Add(v.tree, n, parent)), {n}) == true
  {
    var w := v.(tree := Add(v.tree, n, parent));
    AddGrows(v.tree, n, parent);
    AddBare(v.tree, v.memory + v.store.Keys, n, parent);
    forall m: Id ensures BareLeaf(w.tree, w.memory + w.store.Keys, w.active, m) ==> m in {n} {
      assert BareLeaf(w.tree, w.memory + w.store.Keys, Some(n), m) ==> m in {};
    }
  }
}
