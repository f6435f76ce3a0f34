/** The memory policies inside the simulator: what they are told leads them to the same decision, and the simulator
    can carry it out. */
module SimulatorPolicy {
  import opened Prelude
  import opened Forest
  import opened MemoryHistory
  import opened MemoryIndex
  import opened MemoryVictim
  import opened MemoryDecision
  import opened SimulatorEviction
  import MemoryReplay
  import Simulator

  lemma LruHolds(t: Tree, rec: map<Id, nat>, e: Id)
    requires Grown(t) && LruVictim(t, rec, e)
    ensures exists r :: r in rec && r in t.parent && Leaf(t, r) == e
  {}

  /** In every state the simulator can reach, an indexed policy and a list policy that have been told what the
      simulator told them choose the same segment, the least recently used one with nothing resident below it;
      they find one exactly if memory holds a block, and the simulator can evict from it. */
  method Victims(sim: Simulator.Sim, events: seq<Event>, groups: nat, spread: Id -> nat, start: nat, workers: nat,
                 drop: bool, reclaimParent: bool, most: nat)
    returns (indexed: Option<Id>, scanned: Option<Id>)
    requires sim.Valid() && events == sim.told && start < groups && workers > 0 && most > 0
    ensures indexed == scanned && (indexed.Some? <==> sim.memory != {}) && Grown(sim.tree)
    ensures indexed.Some? ==> LruVictim(sim.tree, After(sim.told).rec, indexed.value) && After(sim.told).rec.Keys == sim.memory
    ensures indexed.Some? ==> EvictionOk(sim.tree, sim.memory, Eviction(indexed.value, drop, reclaimParent, most))
  {
    TellsHistory(events, sim.tree, sim.memory);
    HistoryOk(events);
    indexed, scanned := MemoryReplay.Victims(events, groups, spread, start, workers);
    if indexed.Some? {
      LruHolds(sim.tree, After(events).rec, indexed.value);
      ghost var r :| r in sim.memory && r in sim.tree.parent && Leaf(sim.tree, r) == indexed.value;
      VictimDecides(sim.tree, sim.memory, indexed.value, r, Eviction(indexed.value, drop, reclaimParent, most));
    }
  }
}
