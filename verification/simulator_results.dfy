/** What the simulator's invariant means for a reader of the tree, of the trace and of the allocators. */
module SimulatorResults {
  import opened Prelude
  import opened Tiers
  import opened Forest
  import opened Pruning
  import opened Allocator
  import opened Trace
  import opened SimulatorSteps
  import opened SimulatorState
  import opened SimulatorMoves
  import opened SimulatorReclaim

  /** Between accesses every leaf of the tree holds a copy. */
  lemma LeavesHoldCopies(v: State, n: Id)
    requires Sound(v) && v.active.None? && n in v.tree.parent && Children(v.tree, n) == {}
    ensures n in v.memory || n in v.store
  {
    assert BareLeaf(v.tree, v.memory + v.store.Keys, v.active, n) ==> n in {};
  }

  /** Replaying any prefix of an accepted trace works, and the next event finds the device as it needs it: a
      write goes to a free address, a read or a trim names the node and stream held at the address. */
  lemma {:induction false} EveryEventLegal(trace: seq<IoEvent>, i: nat)
    requires Replay(trace).Some? && i < |trace|
    ensures Replay(trace[..i]).Some?
    ensures var d, ev := Replay(trace[..i]).value, trace[i];
      if ev.op.Write? then SlotOf(ev.location) !in d
      else SlotOf(ev.location) in d && d[SlotOf(ev.location)] == Held(ev.node, ev.location.stream)
    decreases |trace|
  {
    var shorter := trace[..|trace| - 1];
    if i == |trace| - 1 {
      assert trace[..i] == shorter;
    } else {
      EveryEventLegal(shorter, i);
      assert shorter[..i] == trace[..i];
    }
  }

  /** A device that has replayed the trace holds exactly the tree's storage copies, each at its location. */
  lemma TraceFaithful(v: State)
    requires Sound(v)
    ensures Replay(v.trace) == Some(v.device)
    ensures forall n <- v.store :: SlotOf(v.store[n]) in v.device && v.device[SlotOf(v.store[n])] == Held(n, v.store[n].stream)
    ensures forall s <- v.device :: v.device[s].node in v.store && SlotOf(v.store[v.device[s].node]) == s
    ensures forall a, b :: a in v.store && b in v.store && SlotOf(v.store[a]) == SlotOf(v.store[b]) ==> a == b
  {
    forall n | n in v.store
      ensures SlotOf(v.store[n]) in v.device && v.device[SlotOf(v.store[n])] == Held(n, v.store[n].stream)
    {
      assert CopyHeld(v.device, v.store, {}, n);
    }
    forall s | s in v.device ensures v.device[s].node in v.store && SlotOf(v.store[v.device[s].node]) == s {
      assert SlotExplained(v.device, v.store, {}, s);
    }
    forall a, b | a in v.store && b in v.store && SlotOf(v.store[a]) == SlotOf(v.store[b]) ensures a == b {
      LocationsDistinct(v.device, v.store, a, b);
    }
  }

  /** Every live address lies below the highest use of its tier and is not waiting to be recycled. */
  lemma AddressesBelowPeak(v: State, n: Id)
    requires Sound(v) && n in v.store
    ensures var l := v.store[n]; l.address < Peak(v, l.tier) && l.address !in v.tiers.At(l.tier).recycled
  {
    var l := v.store[n];
    assert CopyHeld(v.device, v.store, {}, n);
    AddressesRemove(v.device, SlotOf(l));
    assert AddressOk(v.tiers.At(l.tier), Addresses(v.device, l.tier), l.address);
  }
}
