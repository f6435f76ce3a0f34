/**
 The simulator: the code that lowers accesses, evictions, reclaims and migrations to changes of the shared
 state. Policies are arbitrary: each decision is any value that keeps the policy's contract.
 */
module Simulator {
  import opened Prelude
  import opened Tiers
  import opened Forest
  import opened MemoryHistory
  import opened Pruning
  import opened Allocator
  import opened Trace
  import opened SimulatorSteps
  import opened SimulatorState
  import opened SimulatorMoves
  import opened SimulatorReclaim
  import opened SimulatorEviction
  import opened SimulatorRoom
  import opened SimulatorTurns
  import opened SimulatorMigration
  import opened SimulatorRounds
  import opened SimulatorAccess

  class Sim {
    const policies: Policies
    const memoryCapacity: nat
    const capacity: Pair<nat>
    var tree: Tree
    var memory: set<Id>
    var memoryUsed: nat
    var store: map<Id, Location>
    var tiers: Pair<Blocks>
    var trace: seq<IoEvent>
    var active: Option<Id>
    var nextMove: nat
    var asked: nat                              // questions put to the policies, other than on admission
    var admissions: nat                         // questions on admission
    ghost var device: Device
    ghost var moves: map<nat, Relocation>
    ghost var told: seq<Event>                  // what the memory policy has been told

    ghost function View(): State
      reads this`tree, this`memory, this`store, this`tiers, this`trace, this`active, this`device, this`moves
    {
      State(tree, memory, store, tiers, trace, active, device, moves)
    }

    ghost predicate Numbered()
      reads this`moves, this`nextMove
    {
      forall m <- moves :: m < nextMove
    }

    /** SLC has never used more than its capacity. */
    ghost predicate Bounded()
      reads this`tree, this`memory, this`store, this`tiers, this`trace, this`active, this`device, this`moves
    {
      Peak(View(), Slc) <= capacity.slc
    }

    /** TLC has used more than its capacity at some time. */
    ghost predicate Exceeded()
      reads this`tree, this`memory, this`store, this`tiers, this`trace, this`active, this`device, this`moves
    {
      Peak(View(), Tlc) > capacity.tlc
    }

    /** The memory policy knows the tree and the memory as they are, from a history it was meant for. */
    ghost predicate Informed()
      reads this`told, this`tree, this`memory
    {
      Tells(told, tree, memory)
    }

    ghost predicate Valid()
      reads this`tree, this`memory, this`store, this`tiers, this`trace, this`active, this`device, this`moves
      reads this`memoryUsed, this`nextMove, this`told
    {
      Sound(View()) && Numbered() && Bounded() && memoryUsed == |memory| <= memoryCapacity && Informed()
    }

    constructor (memoryBlocks: nat, storageBlocks: Pair<nat>, policies: Policies)
      ensures Valid() && tree == EMPTY && memory == {} && store == map[] && trace == [] && active.None? && !Exceeded()
      ensures memoryCapacity == memoryBlocks && capacity == storageBlocks && this.policies == policies
    {
      memoryCapacity, capacity, this.policies, asked, admissions := memoryBlocks, storageBlocks, policies, 0, 0;
      tree, memory, memoryUsed, store, tiers := EMPTY, {}, 0, map[], Pair(UNUSED, UNUSED);
      trace, nextMove, active, device, moves, told := [], 1, None, map[], map[], [];
    }

    method Emit(op: Operation, node: Id, location: Location, reason: Reason, move: Option<nat>, depends: Option<nat>)
      returns (sequence: nat)
      modifies this`trace, this`device
      ensures View() == Emitted(old(View()), IoEvent(op, node, location, reason, move, depends))
      ensures sequence == |old(trace)|
    {
      var ev := IoEvent(op, node, location, reason, move, depends);
      sequence := |trace|;
      device := match Apply(device, ev) case Some(d) => d case None => device;
      trace := trace + [ev];
    }

    // ---- Pruning ----

    /** Prunes upward from `x` while nodes have neither copies nor children; the active node stays. */
    method PruneFrom(x: Id, ghost suspects: set<Id>, ghost zone: iset<Id>)
      requires Base(View(), suspects + {x}) && Fenced(tree, zone) && x in zone && Informed()
      modifies this`tree, this`told
      ensures Base(View(), suspects) && Fenced(tree, zone) && PrunedWithin(old(View()), View(), zone) && Informed()
    {
      ghost var v := View();
      var current := Some(x);
      while current.Some? && current.value in tree.parent
        invariant Base(View(), suspects + (if current.Some? then {current.value} else {})) && Fenced(tree, zone)
        invariant current.Some? && current.value in tree.parent && Children(tree, current.value) == {} ==> current.value in zone
        invariant PrunedWithin(v, View(), zone) && Informed()
        decreases |tree.parent|
      {
        var n := current.value;
        if active == current || n in memory || n in store || ChildCount(tree, n) != 0 {
          NotBare(View(), suspects, n);
          return;
        }
        assert Children(tree, n) == {};
        PruneBase(View(), suspects, n);
        PruneOne(v, View(), zone, n);
        var parent := tree.parent[n];
        if parent.Some? { FencedParent(tree, zone, n); }
        RemoveFenced(tree, zone, n);
        RemoveNode(n);
        current := parent;
      }
      if current.Some? { NotBare(View(), suspects, current.value); }
    }

    method RemoveNode(n: Id)
      requires Informed() && Grown(tree) && n in tree.parent && n !in memory && Children(tree, n) == {}
      modifies this`tree, this`told
      ensures Informed() && View() == old(View()).(tree := Remove(old(tree), n)) && told == old(told) + [Event.Pruned(n)]
    {
      TellsPruned(told, tree, memory, n);
      tree := Remove(tree, n);
      told := told + [Event.Pruned(n)];
    }

    /** Prunes from every node of a list, deepest first; afterwards no leaf of the list lacks a copy. */
    method PruneSegment(nodes: seq<Id>, ghost zone: iset<Id>)
      requires Base(View(), Elems(nodes)) && Fenced(tree, zone) && Informed() && forall n <- nodes :: n in zone
      modifies this`tree, this`told
      ensures Sound(View()) && PrunedWithin(old(View()), View(), zone) && Informed()
    {
      assert nodes[..|nodes|] == nodes;
      var i := |nodes|;
      while i > 0
        invariant 0 <= i <= |nodes|
        invariant Base(View(), Elems(nodes[..i])) && Fenced(tree, zone) && PrunedWithin(old(View()), View(), zone)
        invariant Informed()
      {
        i := i - 1;
        ElemsStep(nodes, i);
        ghost var before := View();
        if nodes[i] in tree.parent {
          PruneFrom(nodes[i], Elems(nodes[..i]), zone);
          PrunedThrough(old(View()), before, View(), zone);
        } else {
          NotBare(View(), Elems(nodes[..i]), nodes[i]);
        }
      }
      assert Elems(nodes[..0]) == {};
    }

    // ---- Trims ----

    method TrimBlock(n: Id, reason: Reason)
      requires n in store
      modifies this`trace, this`device, this`store, this`tiers
      ensures View() == TrimmedBlock(old(View()), n, reason)
    {
      var l := store[n];
      var _ := Emit(Trim, n, l, reason, None, None);
      tiers := tiers.With(l.tier, Returned(tiers.At(l.tier), l.address));
      store := store - {n};
    }

    /** Trims blocks of one tier, one after another. */
    method TrimBlocks(nodes: seq<Id>, tier: Tier, reason: Reason)
      requires Sound(View()) && Distinct(nodes) && forall n <- nodes :: n in store && store[n].tier == tier
      modifies this`trace, this`device, this`store, this`tiers
      ensures Trimming(old(View()), View(), nodes, tier, reason, |nodes|) == true
    {
      ghost var v := View();
      TrimStart(v, nodes, tier, reason);
      for i := 0 to |nodes|
        invariant Trimming(v, View(), nodes, tier, reason, i) == true
      {
        TrimNext(v, View(), nodes, tier, i, reason);
        TrimBlock(nodes[i], reason);
      }
    }

    method TrimAndPrune(e: Id, tier: Tier, nodes: seq<Id>, reason: Reason)
      requires Sound(View()) && e in tree.parent && nodes == Residents(tree, store, e, tier) && Informed()
      modifies this`trace, this`device, this`store, this`tiers, this`tree, this`told
      ensures Sound(View()) && SegmentTrimmed(old(View()), View(), e, tier, reason) && Informed()
    {
      ResidentsDistinct(tree, store, e, tier);
      TrimBlocks(nodes, tier, reason);
      assert nodes[..|nodes|] == nodes;
      SegmentFenced(tree, e);
      PruneSegment(nodes, iset n | n in Segment(tree, e));
      TrimOutcome(old(View()), View(), e, tier, nodes, reason);
    }

    /** Trims the blocks of one tier in a segment and prunes what is left without copies. */
    method ExecuteTrim(e: Id, tier: Tier, reason: Reason) returns (done: bool)
      requires Valid() && e in tree.parent
      modifies this`trace, this`device, this`store, this`tiers, this`tree, this`told
      ensures Valid()
      ensures done == (Residents(old(tree), old(store), e, tier) != [])
      ensures if done then SegmentTrimmed(old(View()), View(), e, tier, reason) else View() == old(View())
    {
      var nodes := Residents(tree, store, e, tier);
      if nodes == [] { return false; }
      TrimAndPrune(e, tier, nodes, reason);
      return true;
    }

    // ---- Relocations ----

    method ReserveAll(m: nat, count: nat, stream: nat, ghost positions: set<nat>) returns (to: seq<Location>)
      requires Moving(View(), m, {}, {}, positions)
      modifies this`tiers
      ensures |to| == count && Reserving(old(View()), View(), to, stream)
      ensures Moving(View(), m, {}, AddressesOf(to), positions)
    {
      to := [];
      assert AddressesOf(to) == {};
      for i := 0 to count
        invariant |to| == i && Reserving(old(View()), View(), to, stream)
        invariant Moving(View(), m, {}, AddressesOf(to), positions)
      {
        ReserveStep(View(), m, {}, AddressesOf(to), positions);
        ReserveOne(old(View()), View(), to, stream);
        AddressesOfAppend(to, Location(Tlc, NextAddress(tiers.tlc), stream));
        to := to + [Location(Tlc, NextAddress(tiers.tlc), stream)];
        tiers := tiers.With(Tlc, Taken(tiers.tlc));
      }
    }

    method ReadBlock(m: nat, nodes: seq<Id>, reason: Reason, hit: Option<(Id, nat)>, ghost reserved: set<nat>,
        ghost start: set<nat>,
                     ghost v: State, ghost sources: seq<nat>, i: nat)
      returns (sequence: nat)
      requires |sources| == i < |nodes| && ReadSoFar(v, View(), m, nodes, reason, hit, reserved, start, sources)
      requires HitRead(v, m, nodes, reason, hit, start)
      modifies this`trace, this`device
      ensures ReadSoFar(v, View(), m, nodes, reason, hit, reserved, start, sources + [sequence]) == true
    {
      var n := nodes[i];
      if hit.Some? && hit.value.0 == n {
        ReadReused(v, View(), m, nodes, reason, hit, reserved, start, sources);
        sequence := hit.value.1;
      } else {
        ReadNext(v, View(), m, nodes, reason, hit, reserved, start, sources);
        sequence := Emit(Read, n, store[n], reason, Some(m), None);
      }
    }

    /** Reads every source, except that of a block whose storage hit has just been read. */
    method ReadAll(m: nat, nodes: seq<Id>, reason: Reason, hit: Option<(Id, nat)>, ghost reserved: set<nat>,
        ghost start: set<nat>)
      returns (sources: seq<nat>)
      requires Moving(View(), m, {}, reserved, start) && (forall n <- nodes :: n in store)
      requires HitRead(View(), m, nodes, reason, hit, start)
      modifies this`trace, this`device
      ensures |sources| == |nodes| && Reading(old(View()), View(), m, nodes, reason, hit, sources)
      ensures Moving(View(), m, {}, reserved, Elems(sources))
    {
      ghost var v := View();
      sources := [];
      ReadStart(v, m, nodes, reason, hit, reserved, start);
      for i := 0 to |nodes|
        invariant |sources| == i && ReadSoFar(v, View(), m, nodes, reason, hit, reserved, start, sources) == true
      {
        var sequence := ReadBlock(m, nodes, reason, hit, reserved, start, v, sources, i);
        sources := sources + [sequence];
      }
      ReadDone(v, View(), m, nodes, reason, hit, reserved, start, sources);
    }

    method WriteBlock(m: nat, n: Id, l: Location, reason: Reason, read: nat)
      modifies this`trace, this`device, this`store
      ensures View() == WrittenBlock(old(View()), n, l, reason, m, read)
    {
      var _ := Emit(Write, n, l, reason, Some(m), Some(read));
      store := store[n := l];
    }

    method DropBlock(m: nat, n: Id, source: Location, reason: Reason, write: nat)
      modifies this`trace, this`device, this`tiers
      ensures View() == DroppedBlock(old(View()), n, source, reason, m, write)
    {
      var _ := Emit(Trim, n, source, reason, Some(m), Some(write));
      tiers := tiers.With(Slc, Returned(tiers.slc, source.address));
    }

    /** Writes every destination and moves the copies there. */
    method WriteAll(m: nat, nodes: seq<Id>, ghost from: seq<Location>, to: seq<Location>, reason: Reason, sources: seq<nat>)
      requires CanWrite(View(), nodes, from, to, sources)
      requires Moving(View(), m, {}, AddressesOf(to), Elems(sources))
      modifies this`trace, this`device, this`store
      ensures Written(old(View()), View(), m, nodes, from, to, reason, sources, |nodes|)
    {
      ghost var v := View();
      WritingStart(v, m, nodes, from, to, reason, sources);
      for i := 0 to |nodes|
        invariant Written(v, View(), m, nodes, from, to, reason, sources, i)
      {
        WriteNext(v, View(), m, nodes, from, to, reason, sources, i);
        WriteBlock(m, nodes[i], to[i], reason, sources[i]);
      }
    }

    method DropNextBlock(m: nat, nodes: seq<Id>, from: seq<Location>, reason: Reason, writes: nat, ghost positions: set<nat>,
                         ghost v: State, i: nat)
      requires CanDrop(v, nodes, from, writes) && i < |nodes|
      requires Dropped(v, View(), m, nodes, from, reason, writes, positions, i)
      modifies this`trace, this`device, this`tiers
      ensures Dropped(v, View(), m, nodes, from, reason, writes, positions, i + 1)
    {
      DropNext(v, View(), m, nodes, from, reason, writes, positions, i);
      DropBlock(m, nodes[i], from[i], reason, writes + i);
    }

    /** Trims every source and returns its address. */
    method DropAll(m: nat, nodes: seq<Id>, from: seq<Location>, reason: Reason, writes: nat, ghost positions: set<nat>)
      requires CanDrop(View(), nodes, from, writes)
      requires Moving(View(), m, StaleOf(from), {}, positions)
      modifies this`trace, this`device, this`tiers
      ensures Dropped(old(View()), View(), m, nodes, from, reason, writes, positions, |nodes|)
    {
      ghost var v := View();
      DroppingStart(v, m, nodes, from, reason, writes, positions);
      for i := 0 to |nodes|
        invariant Dropped(v, View(), m, nodes, from, reason, writes, positions, i)
      {
        DropNextBlock(m, nodes, from, reason, writes, positions, v, i);
      }
    }

    /** Allocates all destinations, then reads all sources, then writes all blocks. */
    method CopyBlocks(m: nat, nodes: seq<Id>, from: seq<Location>, stream: nat, reason: Reason, hit: Option<(Id, nat)>,
        ghost start: set<nat>)
      returns (ghost to: seq<Location>, ghost sources: seq<nat>, writes: nat, ghost read: State)
      requires Moving(View(), m, {}, {}, start) && Movable(View(), nodes) && FromOf(View(), nodes, from)
      requires HitRead(View(), m, nodes, reason, hit, start)
      modifies this`trace, this`device, this`store, this`tiers
      ensures Copied(old(View()), read, View(), m, nodes, from, to, stream, reason, hit, sources) && writes == |read.trace|
      ensures CanDrop(View(), nodes, from, writes)
      ensures Moving(View(), m, StaleOf(from), {}, SoFar(sources, writes, |nodes|))
    {
      var destinations := ReserveAll(m, |nodes|, stream, start);
      var readAt := ReadAll(m, nodes, reason, hit, AddressesOf(destinations), start);
      read := View();
      ReadTogether(old(View()).(tiers := tiers), read, m, nodes, from, reason, hit, readAt);
      CanWriteNow(read, nodes, from, destinations, m, reason, NodeOf(hit), readAt);
      writes := |trace|;
      WriteAll(m, nodes, from, destinations, reason, readAt);
      CanDropNow(read, View(), m, nodes, from, destinations, reason, readAt);
      to, sources := destinations, readAt;
    }

    /** Trims all sources, which completes the relocation that began at `v`. */
    method CompleteMove(m: nat, nodes: seq<Id>, from: seq<Location>, ghost to: seq<Location>, ghost stream: nat,
                        reason: Reason,
                        ghost hit: Option<(Id, nat)>, ghost sources: seq<nat>, writes: nat, ghost v: State, ghost read: State)
      requires Copied(v, read, View(), m, nodes, from, to, stream, reason, hit, sources) && writes == |read.trace|
      requires CanDrop(View(), nodes, from, writes) && ReasonOk(nodes, reason, NodeOf(hit))
      requires Moving(View(), m, StaleOf(from), {}, SoFar(sources, writes, |nodes|))
      modifies this`trace, this`device, this`tiers, this`moves
      ensures Sound(View()) == MovedBlocks(v, View(), m, nodes, stream, reason) == true
    {
      ghost var written, trims := View(), |trace|;
      DropAll(m, nodes, from, reason, writes, SoFar(sources, writes, |nodes|));
      ghost var dropped, r := View(), Relocation(reason, nodes, sources, writes, trims, NodeOf(hit));
      MoveFinished(v, read, written, dropped, m, nodes, from, to, stream, reason, hit, sources);
      moves := moves[m := r];
      assert View() == dropped.(moves := dropped.moves[m := r]);
    }

    /** Moves blocks from SLC to TLC: all destinations are allocated, then come all reads, all writes and all
        trims. The relocation is recorded in full. */
    method MoveBlocks(m: nat, nodes: seq<Id>, stream: nat, reason: Reason, hit: Option<(Id, nat)>, ghost start: set<nat>)
      requires Moving(View(), m, {}, {}, start) && Movable(View(), nodes) && HitRead(View(), m, nodes, reason, hit, start)
      requires ReasonOk(nodes, reason, NodeOf(hit))
      modifies this`trace, this`device, this`store, this`tiers, this`moves
      ensures Sound(View()) == MovedBlocks(old(View()), View(), m, nodes, stream, reason) == true
    {
      ghost var v := View();
      var from := LocationsOf(nodes, store);
      ghost var to, sources, read;
      var writes;
      to, sources, writes, read := CopyBlocks(m, nodes, from, stream, reason, hit, start);
      CompleteMove(m, nodes, from, to, stream, reason, hit, sources, writes, v, read);
    }

    // ---- Reclaiming capacity ----

    /** What the policy asks for under pressure on a tier, if it may. */
    function Proposal(k: nat, tier: Tier, shielded: set<Id>): (action: Option<Action>)
      requires Grown(tree)
      reads this`tree, this`store
      ensures action.Some? ==> ReclaimOk(tree, store, action.value, tier, shielded)
    {
      Proposed(policies, k, tree, store, tier, shielded)
    }

    method ReclaimFor(tier: Tier, shielded: set<Id>) returns (action: Option<Action>)
      requires Grown(tree)
      modifies this`asked
      ensures action == Proposal(old(asked), tier, shielded) && asked == old(asked) + 1
      ensures Valid() == old(Valid()) && View() == old(View())
    {
      action := Proposal(asked, tier, shielded);
      asked := asked + 1;
    }

    /** A policy's limit on a tier, at most its capacity. */
    function LimitAt(k: nat, tier: Tier): (limit: nat)
      ensures limit <= capacity.At(tier)
    {
      LimitOf(policies, capacity, k, tier)
    }

    method CapacityLimit(tier: Tier) returns (limit: nat)
      modifies this`asked
      ensures limit == LimitAt(old(asked), tier) && asked == old(asked) + 1
      ensures Valid() == old(Valid()) && View() == old(View())
    {
      limit := LimitAt(asked, tier);
      asked := asked + 1;
    }

    /** One reclaim step. A successful one lowers the use of the tier. */
    method ReclaimOnce(tier: Tier, shielded: set<Id>) returns (done: bool)
      requires Valid() == true
      modifies this`trace, this`device, this`store, this`tiers, this`tree, this`moves, this`nextMove, this`told, this`asked
      ensures Valid() == Eased(policies, capacity, old(View()), View(), tier, shielded, old(asked), asked) == true
      ensures done ==> Used(View(), tier) < Used(old(View()), tier)
      ensures StepTaken(policies, capacity, old(Here()), Here(), tier, shielded, done) == true
      ensures old(asked) < asked && (tier.Tlc? ==> nextMove == old(nextMove))
      decreases if tier.Slc? then 2 else 0, 1
    {
      ghost var a, v, k := Here(), View(), asked;
      var action := ReclaimFor(tier, shielded);
      ghost var j := asked;
      done := Reclaim(action, tier, shielded);
      EasedLater(policies, capacity, v, View(), tier, shielded, k, j, asked);
      StepMade(policies, capacity, a, Here(), action, tier, shielded, j, done);
    }

    method Reclaim(action: Option<Action>, tier: Tier, shielded: set<Id>) returns (done: bool)
      requires Valid() == true && (action.Some? ==> ReclaimOk(tree, store, action.value, tier, shielded))
      modifies this`trace, this`device, this`store, this`tiers, this`tree, this`moves, this`nextMove, this`told, this`asked
      ensures Valid() == Eased(policies, capacity, old(View()), View(), tier, shielded, old(asked), asked) == true
      ensures done ==> Used(View(), tier) < Used(old(View()), tier)
      ensures Obeyed(policies, capacity, old(View()), View(), old(nextMove), action, tier, shielded, old(asked),
              asked, done) == true
      ensures old(asked) <= asked && (tier.Tlc? ==> nextMove == old(nextMove))
      decreases if tier.Slc? then 2 else 0, 0
    {
      match action
      case None =>
        EasedSame(policies, capacity, View(), tier, shielded, asked, asked);
        done := false;
      case Some(TrimSegment(e, _)) =>
        TrimVictim(e, tier, shielded);
        done := true;
      case Some(MoveSegment(e, stream)) =>
        done := ExecuteRelocation(e, stream, CapacityEviction, shielded);
    }

    method TrimVictim(e: Id, tier: Tier, shielded: set<Id>)
      requires Valid() && ReclaimOk(tree, store, TrimSegment(e, tier), tier, shielded)
      modifies this`trace, this`device, this`store, this`tiers, this`tree, this`told
      ensures Valid() == Eased(policies, capacity, old(View()), View(), tier, shielded, asked, asked) == true
      ensures Used(View(), tier) < Used(old(View()), tier) && SegmentTrimmed(old(View()), View(), e, tier, CapacityEviction)
    {
      ghost var v := View();
      var _ := ExecuteTrim(e, tier, CapacityEviction);
      EasedTrim(policies, capacity, v, View(), e, tier, CapacityEviction, shielded, asked);
    }

    /** Makes room for `required` more blocks in a tier, or gives up: the policy's answers are carried out one after another
        until the blocks fit. For TLC, `path` tells the steps. */
    method EnsureCapacity(tier: Tier, required: nat, shielded: set<Id>) returns (ok: bool, ghost path: seq<State>)
      requires Valid()
      modifies this`trace, this`device, this`store, this`tiers, this`tree, this`moves, this`nextMove, this`told, this`asked
      ensures Valid() == Eased(policies, capacity, old(View()), View(), tier, shielded, old(asked), asked) == true
      ensures Secured(old(View()), View(), LimitAt(old(asked), tier), tier, required, ok) == true && old(asked) < asked
      ensures Fits(policies, capacity, old(View()), old(asked), tier, required) || tier.Tlc? ==> nextMove == old(nextMove)
      ensures Ensured(policies, capacity, old(Here()), Here(), tier, required, shielded, path, ok) == true
      decreases if tier.Slc? then 2 else 0, 5
    {
      ghost var a, v, k := Here(), View(), asked;
      var limit := CapacityLimit(tier);
      ghost var next, j := Here(), asked;
      ok, path := MakeRoom(tier, required, limit, shielded);
      EasedLater(policies, capacity, v, View(), tier, shielded, k, j, asked);
      EnsuredAfter(policies, capacity, a, next, Here(), tier, required, limit, shielded, path, ok);
    }

    method MakeRoom(tier: Tier, required: nat, limit: nat, shielded: set<Id>) returns (ok: bool, ghost path: seq<State>)
      requires Valid()
      modifies this`trace, this`device, this`store, this`tiers, this`tree, this`moves, this`nextMove, this`told, this`asked
      ensures Valid() == Eased(policies, capacity, old(View()), View(), tier, shielded, old(asked), asked) == true
      ensures Secured(old(View()), View(), limit, tier, required, ok) == true && old(asked) <= asked
      ensures Used(old(View()), tier) + required <= limit || tier.Tlc? ==> nextMove == old(nextMove)
      ensures Cleared(policies, capacity, old(Here()), Here(), tier, required, limit, shielded, path, ok) == true
      decreases if tier.Slc? then 2 else 0, 4
    {
      ghost var v := View();
      if required > limit || tiers.At(tier).used + required <= limit {
        EasedSame(policies, capacity, v, tier, shielded, asked, asked);
        ClearedAtOnce(policies, capacity, Here(), tier, required, limit, shielded);
        return required <= limit, [v];
      }
      ok, path := ReclaimUntil(tier, required, limit, shielded);
    }

    /** The state of the loop below: what has been reclaimed since `a`, and every step so far. */
    ghost predicate Reclaiming(a: Point, tier: Tier, required: nat, limit: nat, shielded: set<Id>, path: seq<State>)
      reads this
    {
      && Valid() && a.asked <= asked && Eased(policies, capacity, a.state, View(), tier, shielded, a.asked, asked)
      && Progress(policies, capacity, a, Here(), tier, required, limit, shielded, path) == true
    }

    /** Reclaims as long as the blocks do not fit. */
    method ReclaimUntil(tier: Tier, required: nat, limit: nat, shielded: set<Id>) returns (ok: bool, ghost path: seq<State>)
      requires Valid() && required <= limit
      modifies this`trace, this`device, this`store, this`tiers, this`tree, this`moves, this`nextMove, this`told, this`asked
      ensures Valid() == Eased(policies, capacity, old(View()), View(), tier, shielded, old(asked), asked) == true
      ensures (ok ==> Used(View(), tier) + required <= limit) && old(asked) <= asked
      ensures Cleared(policies, capacity, old(Here()), Here(), tier, required, limit, shielded, path, ok) == true
      ensures tier.Tlc? ==> nextMove == old(nextMove)
      decreases if tier.Slc? then 2 else 0, 3
    {
      ghost var a := Here();
      path := [View()];
      EasedSame(policies, capacity, View(), tier, shielded, asked, asked);
      NoProgress(policies, capacity, a, tier, required, limit, shielded);
      while tiers.At(tier).used + required > limit
        invariant Reclaiming(a, tier, required, limit, shielded, path) == true
        invariant tier.Tlc? ==> nextMove == old(nextMove)
        decreases tiers.At(tier).used
      {
        var done;
        done, path := ReclaimStep(tier, required, limit, shielded, a, path);
        if !done { return false, path; }
      }
      ProgressEnds(policies, capacity, a, Here(), tier, required, limit, shielded, path);
      return true, path;
    }

    method ReclaimStep(tier: Tier, required: nat, limit: nat, shielded: set<Id>, ghost a: Point, ghost path: seq<State>)
      returns (done: bool, ghost longer: seq<State>)
      requires Reclaiming(a, tier, required, limit, shielded, path) == true && Used(View(),
              tier) + required > limit >= required
      modifies this`trace, this`device, this`store, this`tiers, this`tree, this`moves, this`nextMove, this`told, this`asked
      ensures done ==> Reclaiming(a, tier, required, limit, shielded, longer) == true
      ensures done ==> 0 <= Used(View(), tier) < Used(old(View()), tier)
      ensures !done ==> Valid() == Eased(policies, capacity, a.state, View(), tier, shielded, a.asked, asked) == true
                        && a.asked <= asked
      ensures !done ==> Cleared(policies, capacity, a, Here(), tier, required, limit, shielded, longer, false) == true
      ensures tier.Tlc? ==> nextMove == old(nextMove)
      decreases if tier.Slc? then 2 else 0, 2
    {
      ghost var before, b, j := View(), Here(), asked;
      UsedBounds(before, tier);
      done := ReclaimOnce(tier, shielded);
      UsedBounds(View(), tier);
      EasedThrough(policies, capacity, a.state, before, View(), tier, shielded, a.asked, j, asked);
      ProgressOn(policies, capacity, a, b, Here(), tier, required, limit, shielded, path, done);
      longer := Longer(path, View(), tier, done);
    }

    /** Moves the SLC blocks of a segment to TLC, after making room there. */
    method ExecuteRelocation(e: Id, stream: nat, reason: Reason, shielded: set<Id>) returns (done: bool)
      requires Valid() && e in tree.parent && reason in {CapacityEviction, BackgroundMigration}
      requires Elems(Segment(tree, e)) !! shielded
      modifies this`trace, this`device, this`store, this`tiers, this`tree, this`moves, this`nextMove, this`told, this`asked
      ensures Valid() && old(asked) <= asked
      ensures RelocationDone(policies, capacity, old(View()), View(), old(nextMove), e, stream, reason, shielded,
              old(asked), asked,
              done) == true
      decreases 1, 1
    {
      var nodes := Residents(tree, store, e, Slc);
      ResidentsMovable(View(), e);
      if nodes == [] {
        NothingToMove(policies, capacity, View(), nextMove, e, stream, reason, shielded, asked);
        return false;
      }
      done := MakeRoomAndMove(nodes, stream, reason, shielded, shielded + Elems(Segment(tree, e)));
    }

    /** Makes room in TLC and then moves blocks there. */
    method MakeRoomAndMove(nodes: seq<Id>, stream: nat, reason: Reason, ghost shielded: set<Id>, combined: set<Id>)
      returns (done: bool)
      requires Valid() && Movable(View(), nodes) && nodes != [] && reason in {CapacityEviction, BackgroundMigration}
      requires shielded <= combined && Elems(nodes) <= combined && Elems(nodes) !! shielded
      modifies this`trace, this`device, this`store, this`tiers, this`tree, this`moves, this`nextMove, this`told, this`asked
      ensures Valid() == true && old(asked) <= asked
      ensures BlocksRelocated(policies, capacity, old(View()), View(), old(nextMove), nodes, stream, reason, shielded,
              combined,
              old(asked), asked, done) == true
      decreases 1, 0
    {
      ghost var a := Here();
      ghost var path;
      done, path := EnsureCapacity(Tlc, |nodes|, combined);
      ghost var room, m := Here(), nextMove;
      if done {
        EasedMovable(policies, capacity, a.state, room.state, Tlc, combined, a.asked, room.asked, nodes);
        MoveNow(nodes, stream, reason);
        MoveMade(policies, capacity, a, room, View(), m, nodes, stream, reason, shielded, combined, path);
      } else {
        MoveRefused(policies, capacity, a, room, m, nodes, stream, reason, shielded, combined, path);
      }
    }

    /** A relocation of its own: no read is reused. */
    method MoveAlone(nodes: seq<Id>, stream: nat, reason: Reason)
      requires Sound(View()) && Numbered() && Movable(View(), nodes) && reason in {CapacityEviction, BackgroundMigration}
      modifies this`trace, this`device, this`store, this`tiers, this`moves, this`nextMove
      ensures Sound(View()) == MovedBlocks(old(View()), View(), old(nextMove), nodes, stream,
              reason) == true && nextMove == old(nextMove) + 1
      ensures Numbered()
    {
      var m := nextMove;
      nextMove := nextMove + 1;
      StartMoving(View(), m);
      MoveBlocks(m, nodes, stream, reason, None, {});
    }

    method MoveNow(nodes: seq<Id>, stream: nat, reason: Reason)
      requires Valid() && Movable(View(), nodes) && reason in {CapacityEviction, BackgroundMigration}
      modifies this`trace, this`device, this`store, this`tiers, this`moves, this`nextMove
      ensures Valid() == true && nextMove == old(nextMove) + 1 && asked == old(asked)
      ensures MovedBlocks(old(View()), View(), old(nextMove), nodes, stream, reason) == true
    {
      ghost var v, m := View(), nextMove;
      MoveAlone(nodes, stream, reason);
      MoveKeeps(v, View(), m, nodes, stream, reason);
    }

    // ---- Background maintenance ----

    method NextBackgroundAction() returns (action: Option<Action>)
      modifies this`asked
      ensures action == BackgroundOf(policies, old(asked), tree) && asked == old(asked) + 1
      ensures Valid() == old(Valid()) && View() == old(View())
    {
      action := BackgroundOf(policies, asked, tree);
      asked := asked + 1;
    }

    method BackgroundAction(action: Action) returns (done: bool)
      requires Valid() && action.endpoint in tree.parent
      modifies this`trace, this`device, this`store, this`tiers, this`tree, this`moves, this`nextMove, this`told, this`asked
      ensures Valid() == BackgroundDone(policies, capacity, old(View()), View(), old(nextMove), action, old(asked),
              asked, done) == true
      ensures old(asked) <= asked
    {
      match action
      case TrimSegment(e, tier) => done := BackgroundTrim(e, tier);
      case MoveSegment(e, stream) => done := ExecuteRelocation(e, stream, BackgroundMigration, {});
    }

    method BackgroundTrim(e: Id, tier: Tier) returns (done: bool)
      requires Valid() && e in tree.parent
      modifies this`trace, this`device, this`store, this`tiers, this`tree, this`told
      ensures Valid() == BackgroundDone(policies, capacity, old(View()), View(), nextMove, TrimSegment(e, tier),
              asked, asked, done)
              == true
    {
      ghost var v := View();
      done := ExecuteTrim(e, tier, IdleEviction);
      if done { WorkedTrim(policies, capacity, v, View(), e, tier, IdleEviction, asked); }
      else { RelocatedSame(policies, capacity, v, {}, asked, asked); }
    }

    /** One turn of background work: `done` says that an action was carried out. */
    method BackgroundTurn() returns (done: bool)
      requires Valid()
      modifies this`trace, this`device, this`store, this`tiers, this`tree, this`moves, this`nextMove, this`told, this`asked
      ensures Valid() == Worked(policies, capacity, old(View()), View(), {}, old(asked), asked, if done then 1 else 0) == true
      ensures Turn(policies, capacity, old(Here()), Here(), done) == true
      ensures old(asked) < asked
    {
      ghost var v, k, m := View(), asked, nextMove;
      var action := NextBackgroundAction();
      if action.None? {
        RelocatedSame(policies, capacity, v, {}, k, asked);
        return false;
      }
      ghost var j := asked;
      done := BackgroundAction(action.value);
      WorkedLater(policies, capacity, v, View(), {}, k, j, asked, if done then 1 else 0);
      TurnTaken(policies, capacity, v, View(), m, action.value, k, j, asked, done);
    }

    /** Runs background actions until the policy has none or one fails; each success lowers the load. */
    method DrainBackgroundTick()
      requires Valid()
      modifies this`trace, this`device, this`store, this`tiers, this`tree, this`moves, this`nextMove, this`told, this`asked
      ensures Valid() == Worked(policies, capacity, old(View()), View(), {}, old(asked), asked, 0) == true
      ensures old(asked) < asked && Ticked(policies, capacity, old(Here()), Here()) == true
    {
      ghost var a, v, k := Here(), View(), asked;
      NoTurns(policies, capacity, a);
      var done := BackgroundTurn();
      TurnsOn(policies, capacity, a, a, Here(), done);
      while done
        invariant Valid() == Worked(policies, capacity, v, View(), {}, k, asked, 0) == true && k < asked
        invariant (if done then Turning(policies, capacity, a, Here()) else Ticked(policies, capacity, a, Here())) == true
        decreases Load(View()) + (if done then 1 else 0)
      {
        ghost var before, b, j := View(), Here(), asked;
        LoadNatural(before);
        done := BackgroundTurn();
        WorkedThrough(policies, capacity, v, before, View(), {}, k, j, asked, 0, if done then 1 else 0);
        TurnsOn(policies, capacity, a, b, Here(), done);
      }
    }

    lemma LoadNatural(v: State)
      requires Sound(v)
      ensures Load(v) >= 0
    {
      UsedBounds(v, Slc);
      UsedBounds(v, Tlc);
    }

    // ---- Dumps ----

    method DumpBlock(n: Id, tier: Tier, stream: nat)
      modifies this`trace, this`device, this`store, this`tiers
      ensures View() == DumpedBlock(old(View()), n, tier, stream)
    {
      var l := Location(tier, NextAddress(tiers.At(tier)), stream);
      tiers := tiers.With(tier, Taken(tiers.At(tier)));
      store := store[n := l];
      var _ := Emit(Write, n, l, MemoryDump, None, None);
    }

    /** All these blocks are stored in this tier and stream. */
    ghost predicate StoredIn(nodes: seq<Id>, place: (Tier, nat))
      reads this`store
    {
      forall n <- nodes :: n in store && store[n].tier == place.0 && store[n].stream == place.1
    }

    method DumpBlocks(writes: seq<Id>, tier: Tier, stream: nat)
      requires Sound(View()) && Distinct(writes) && forall n <- writes :: n !in store && n in tree.parent
      modifies this`trace, this`device, this`store, this`tiers
      ensures Sound(View()) == Dumping(old(View()), View(), writes, tier, stream, |writes|) == true
    {
      ghost var v := View();
      for i := 0 to |writes|
        invariant Sound(View()) && Dumping(v, View(), writes, tier, stream, i)
      {
        DumpNext(v, View(), writes, tier, stream, i);
        DumpBase(View(), writes[i], tier, stream);
        DumpBlock(writes[i], tier, stream);
      }
    }

    method DumpNow(writes: seq<Id>, tier: Tier, stream: nat)
      requires Valid() && Distinct(writes) && forall n <- writes :: n !in store && n in tree.parent
      requires Used(View(), tier) + |writes| <= capacity.At(tier)
      modifies this`trace, this`device, this`store, this`tiers
      ensures Valid() && Dumping(old(View()), View(), writes, tier, stream, |writes|) == true
    {
      DumpBlocks(writes, tier, stream);
      DumpWithin(old(View()), View(), writes, tier, stream, capacity.slc);
    }

    /** Writes the unwritten blocks of a segment to storage if room can be made, by what the policy answers; the segment
        survives. If they fit at once nothing else happens. */
    method DumpSegment(segment: seq<Id>, writes: seq<Id>, tier: Tier, stream: nat, prefix: set<Id>) returns (ok: bool)
      requires Valid() && Distinct(writes) && forall n <- segment :: n in tree.parent
      requires forall n <- writes :: n in segment && n !in store
      modifies this`trace, this`device, this`store, this`tiers, this`tree, this`moves, this`nextMove, this`told, this`asked
      ensures Valid() == Dumped(old(View()), View(), segment, if ok then Elems(writes) else {}) == true
      ensures Limited(policies, capacity, old(View()), View(), old(asked), asked) == true && Spared(old(View()),
              View(), prefix) == true
      ensures ok ==> Used(View(), tier) <= LimitAt(old(asked), tier) && StoredIn(writes, (tier, stream))
      ensures Fits(policies, capacity, old(View()), old(asked), tier, |writes|) ==>
                ok && Dumping(old(View()), View(), writes, tier, stream, |writes|) == true
      ensures DumpDone(policies, capacity, old(Here()), Here(), writes, (tier, stream), prefix + Elems(segment), ok) == true
    {
      ghost var a := Here();
      var shielded := prefix + Elems(segment);
      ghost var path;
      ok, path := EnsureCapacity(tier, |writes|, shielded);
      ghost var b := Here();
      EasedSpares(policies, capacity, a.state, b.state, tier, shielded, a.asked, b.asked, prefix);
      if !ok {
        DumpRefused(policies, capacity, a, b, writes, (tier, stream), shielded, path);
        EasedRefusal(policies, capacity, a.state, b.state, tier, shielded, a.asked, b.asked, segment);
        return;
      }
      EasedUnwritten(policies, capacity, a.state, b.state, tier, shielded, a.asked, b.asked, segment, writes);
      DumpNow(writes, tier, stream);
      DumpSpares(a.state, b.state, View(), writes, tier, stream, prefix);
      DumpMade(policies, capacity, a, b, Here(), writes, (tier, stream), shielded, path);
      EasedDump(policies, capacity, a.state, b.state, View(), tier, shielded, a.asked, b.asked, segment, writes, stream);
    }

    // ---- Memory eviction ----

    method Forget(n: Id)
      requires n in memory && memoryUsed == |memory| && Informed()
      modifies this`memory, this`memoryUsed, this`told
      ensures View() == Forgotten(old(View()), n) && memoryUsed == |memory| == |old(memory)| - 1
      ensures Informed() && told == old(told) + [Event.Removed(n)]
    {
      TellsRemoved(told, tree, memory, n);
      told := told + [Event.Removed(n)];
      memory := memory - {n};
      memoryUsed := memoryUsed - 1;
    }

    /** Drops the memory copies of a list of nodes, one after another. */
    method ForgetAll(nodes: seq<Id>)
      requires Sound(View()) && Distinct(nodes) && (forall n <- nodes :: n in memory) && memoryUsed == |memory| && Informed()
      modifies this`memory, this`memoryUsed, this`told
      ensures Forgetting(old(View()), View(), nodes, |nodes|) == true && Informed()
      ensures memoryUsed == |memory| == |old(memory)| - |nodes|
    {
      ghost var v := View();
      ForgetStart(v, nodes);
      for i := 0 to |nodes|
        invariant Forgetting(v, View(), nodes, i) == true && Informed()
        invariant memoryUsed == |memory| == |v.memory| - i
      {
        ForgetNext(v, View(), nodes, i);
        Forget(nodes[i]);
      }
    }

    /** Removes blocks of a segment from memory and prunes what is left without copies. */
    method ForgetAndPrune(segment: seq<Id>, nodes: seq<Id>, ghost zone: iset<Id>)
      requires Sound(View()) && Distinct(nodes) && (forall n <- nodes :: n in memory && n in segment) && memoryUsed == |memory|
      requires Fenced(tree, zone) && Informed() && forall n <- segment :: n in zone
      modifies this`memory, this`memoryUsed, this`tree, this`told
      ensures Informed() && Sound(View()) && memoryUsed == |memory| == |old(memory)| - |nodes|
      ensures PrunedWithin(old(View()).(memory := old(memory) - Elems(nodes)), View(), zone) == true
    {
      ghost var v := View();
      ForgetAll(nodes);
      ForgetEnd(v, View(), nodes, segment);
      ghost var w := View();
      assert Base(w, Elems(segment)) == true && w.tree == tree;
      PruneSegment(segment, zone);
    }

    method ForgetBlocks(segment: seq<Id>, nodes: seq<Id>, ghost zone: iset<Id>)
      requires Valid() && Distinct(nodes) && forall n <- nodes :: n in memory && n in segment
      requires Fenced(tree, zone) && forall n <- segment :: n in zone
      modifies this`memory, this`memoryUsed, this`tree, this`told
      ensures Valid() == true && memory == old(memory) - Elems(nodes) && |memory| == |old(memory)| - |nodes|
      ensures PrunedWithin(old(View()).(memory := old(memory) - Elems(nodes)), View(), zone) == true
    {
      ForgetAndPrune(segment, nodes, zone);
      PrunedKeeps(old(View()), old(memory) - Elems(nodes), View(), zone);
    }

    /** An eviction round that writes its unwritten blocks first, if room can be made for them. */
    method DumpAndForget(e: Id, nodes: seq<Id>, writes: seq<Id>, prefix: set<Id>)
      requires Valid() && e in tree.parent && Distinct(nodes) && forall n <- nodes :: n in memory && n in Segment(tree, e)
      requires Distinct(writes) && forall n <- writes :: n in nodes && n !in store
      modifies this`memory, this`memoryUsed, this`trace, this`device, this`store, this`tiers, this`tree, this`moves,
               this`nextMove, this`told, this`asked
      ensures Valid() == RoundDone(policies, capacity, old(View()), View(), nodes, old(asked), asked) == true
      ensures DumpWritten(policies, capacity, old(View()), View(), writes, old(asked)) == true
      ensures DumpFollows(policies, capacity, old(View()), View(), e, writes, prefix, old(asked)) == true
      ensures Spared(old(View()), View(), prefix) == true
    {
      ghost var v, k := View(), asked;
      var place := PlaceDump(writes);
      ghost var a, j := Here(), asked;
      ghost var b, ok := DumpTo(e, nodes, writes, place, prefix);
      DumpFollowed(policies, capacity, v, View(), a, b, e, writes, prefix, k, ok);
      RoundLater(policies, capacity, v, View(), nodes, k, j, asked);
      DumpPlaced(policies, capacity, v, View(), writes, k, j);
    }

    method DumpTo(e: Id, nodes: seq<Id>, writes: seq<Id>, place: (Tier, nat),
                  prefix: set<Id>) returns (ghost dumped: Point, ghost ok: bool)
      requires Valid() && e in tree.parent && Distinct(nodes) && forall n <- nodes :: n in memory && n in Segment(tree, e)
      requires Distinct(writes) && forall n <- writes :: n in nodes && n !in store
      modifies this`memory, this`memoryUsed, this`trace, this`device, this`store, this`tiers, this`tree, this`moves,
               this`nextMove, this`told, this`asked
      ensures Valid() == true
      ensures RoundDone(policies, capacity, old(View()), View(), nodes, old(asked), asked) == true
      ensures store.Keys <= old(store).Keys + Elems(writes)
      ensures Fits(policies, capacity, old(View()), old(asked), place.0, |writes|) ==>
                Added(old(store), store, writes, place) == true
      ensures DumpDone(policies, capacity, old(Here()), dumped, writes, place, prefix + Elems(Segment(old(tree), e)),
              ok) == true
      ensures SameStorage(dumped.state, View()) == true
      ensures Spared(old(View()), View(), prefix) == true
    {
      ghost var v, k := View(), asked;
      var segment := Segment(tree, e);
      var done := DumpSegment(segment, writes, place.0, place.1, prefix);
      ok := done;
      dumped := Here();
      ghost var w := View();
      if Fits(policies, capacity, v, k, place.0, |writes|) { DumpAdds(v, w, writes, place); }
      ForgetDumped(e, segment, nodes, v, if ok then Elems(writes) else {}, k);
      assert store == w.store;
      StoreSpares(v, w, View(), prefix);
    }

    /** The blocks of a round leave memory after the dump of their segment. */
    method ForgetDumped(e: Id, segment: seq<Id>, nodes: seq<Id>, ghost v: State, ghost written: set<Id>, ghost k: nat)
      requires Valid() && Grown(v.tree) && e in v.tree.parent && segment == Segment(v.tree, e) && Distinct(nodes)
      requires (forall n <- nodes :: n in memory && n in segment) && |memory| == |v.memory|
      requires Dumped(v, View(), segment, written) == true && Limited(policies, capacity, v, View(), k, asked) == true
      modifies this`memory, this`memoryUsed, this`tree, this`told
      ensures Valid() == RoundDone(policies, capacity, v, View(), nodes, k, asked) == true
      ensures SameStorage(old(View()), View()) == true && store == old(store) && store.Keys <= v.store.Keys + written
    {
      ghost var w := View();
      DumpZone(v, w, e, written);
      ghost var zone := iset n | n in Segment(tree, Leaf(tree, e));
      ForgetBlocks(segment, nodes, zone);
      DumpForgets(v, w, segment, nodes, written, zone, k, asked);
    }

    lemma DumpForgets(v: State, w: State, segment: seq<Id>, nodes: seq<Id>, written: set<Id>, zone: iset<Id>, k: nat, j: nat)
      requires Dumped(v, w, segment, written) == true && Limited(policies, capacity, v, w, k, j) == true
      requires PrunedWithin(w.(memory := w.memory - Elems(nodes)), View(), zone) == true && |memory| == |v.memory| - |nodes|
      ensures RoundDone(policies, capacity, v, View(), nodes, k, j) == true && store.Keys <= v.store.Keys + written
      ensures store == w.store && SameStorage(w, View()) == true
    {
      RoundForgets(policies, capacity, v, w, View(), nodes, zone, k, j);
    }

    /** An eviction round that writes nothing. */
    method JustForget(e: Id, nodes: seq<Id>)
      requires Valid() && e in tree.parent && Distinct(nodes) && forall n <- nodes :: n in memory && n in Segment(tree, e)
      modifies this`memory, this`memoryUsed, this`tree, this`told
      ensures Valid() == RoundDone(policies, capacity, old(View()), View(), nodes, asked, asked) == true
      ensures trace == old(trace) && store == old(store) && tiers == old(tiers)
      ensures forall n <- old(tree).parent :: n !in tree.parent ==> n in Segment(old(tree), e)
    {
      ghost var v := View();
      ghost var zone := iset n | n in Segment(tree, e);
      SegmentFenced(tree, e);
      ForgetBlocks(Segment(tree, e), nodes, zone);
      NothingDumped(v, nodes, zone);
    }

    lemma NothingDumped(v: State, nodes: seq<Id>, zone: iset<Id>)
      requires Sound(v) && PrunedWithin(v.(memory := v.memory - Elems(nodes)), View(), zone) == true
               && |memory| == |v.memory| - |nodes|
      ensures RoundDone(policies, capacity, v, View(), nodes, asked, asked) == true
      ensures trace == v.trace && store == v.store && tiers == v.tiers
      ensures forall n <- v.tree.parent :: n !in tree.parent ==> n in zone
    {
      NothingFreed(v, {});
      LimitedSame(policies, capacity, v, v, asked, asked);
      RoundForgets(policies, capacity, v, v, View(), nodes, zone, asked, asked);
    }

    method PlaceDump(writes: seq<Id>) returns (place: (Tier, nat))
      modifies this`asked
      ensures place == policies.place(old(asked), writes) && asked == old(asked) + 1
      ensures Valid() == old(Valid()) && View() == old(View())
    {
      place := policies.place(asked, writes);
      asked := asked + 1;
    }

    /** A memory policy's decision. */
    method EvictionDecision() returns (d: Eviction)
      requires Grown(tree) && memory != {} && memory <= tree.parent.Keys
      modifies this`asked
      ensures Admissible(tree, memory, policies.evict(old(asked), memory), d) == true && asked == old(asked) + 1
      ensures Valid() == old(Valid()) && View() == old(View())
    {
      d := Corrected(policies.evict(asked, memory));
      asked := asked + 1;
    }

    method Corrected(answer: Eviction) returns (d: Eviction)
      requires Grown(tree) && memory != {} && memory <= tree.parent.Keys
      ensures Admissible(tree, memory, answer, d) == true
    {
      d := answer;
      if d.endpoint !in tree.parent || d.most == 0 || Elems(Segment(tree, d.endpoint)) * memory == {} {
        ghost var n := if EvictionOk(tree, memory, answer) then EvictedBlock(answer) else 0;
        assert !EvictionOk(tree, memory, answer);
        var block := SomeBlock();
        d := d.(endpoint := block, most := d.most + 1);
      } else {
        var n :| n in Elems(Segment(tree, d.endpoint)) * memory;
        assert n in Segment(tree, d.endpoint) && n in memory;
      }
    }

    ghost function EvictedBlock(d: Eviction): (n: Id)
      requires EvictionOk(tree, memory, d)
      reads this`tree, this`memory
      ensures n in Elems(Segment(tree, d.endpoint)) * memory
    {
      var n :| n in Segment(tree, d.endpoint) && n in memory;
      n
    }

    method SomeBlock() returns (n: Id)
      requires Grown(tree) && memory != {} && memory <= tree.parent.Keys
      ensures n in memory && n in tree.parent && n in Segment(tree, n)
    {
      n :| n in memory;
      var segment := Segment(tree, n);
      assert segment[|segment| - 1] == n;
    }

    /** One eviction round; `last` says that the upward walk ends here. */
    method EvictRound(e: Id, nodes: seq<Id>, drop: bool, prefix: set<Id>) returns (last: bool)
      requires Valid() && e in tree.parent && Distinct(nodes) && forall n <- nodes :: n in memory && n in Segment(tree, e)
      modifies this`memory, this`memoryUsed, this`trace, this`device, this`store, this`tiers, this`tree, this`moves,
               this`nextMove, this`told, this`asked
      ensures Valid() == RoundDone(policies, capacity, old(View()), View(), nodes, old(asked), asked) == true
      ensures last <==> drop || Unwritten(nodes, old(store).Keys) != []
      ensures !last ==> asked == old(asked) && forall n <- old(tree).parent :: n !in tree.parent ==> n in Segment(old(tree), e)
      ensures RoundWritten(policies, capacity, old(View()), View(), nodes, drop, old(asked)) == true
      ensures !drop && Unwritten(nodes, old(store).Keys) != [] ==>
                DumpFollows(policies, capacity, old(View()), View(), e, Unwritten(nodes, old(store).Keys), prefix,
                        old(asked)) == true
      ensures Spared(old(View()), View(), prefix) == true
    {
      var writes := Unwritten(nodes, store.Keys);
      last := drop || writes != [];
      if !drop && writes != [] {
        UnwrittenDistinct(nodes, store.Keys);
        DumpAndForget(e, nodes, writes, prefix);
      } else {
        ghost var v := View();
        JustForget(e, nodes);
        SameSpares(v, View(), prefix);
      }
    }

    /** One step of the walk: a round, unless the segment has nothing in memory. */
    method WalkRound(d: Eviction, e: Id, prefix: set<Id>, ghost v: State, ghost gone: seq<Id>, ghost k: nat)
      returns (last: bool, next: Option<Id>, ghost after: seq<Id>)
      requires Valid() && asked == k && Walking(policies, capacity, v, View(), d, gone, Some(e), k) == true
      modifies this`memory, this`memoryUsed, this`trace, this`device, this`store, this`tiers, this`tree, this`moves,
               this`nextMove, this`told, this`asked
      ensures Valid() == true
      ensures last ==>
                Evicted(policies, capacity, v, View(), d, prefix, k, asked) == true && Spared(v, View(), prefix) == true
      ensures !last ==> asked == k && Walking(policies, capacity, v, View(), d, after, next, k) == true
      ensures !last && next.Some? ==> Rank(v.tree, next.value) < Rank(v.tree, e)
    {
      ghost var w := View();
      RoundOfWalk(v, w, d, gone, e);
      var segment := Segment(tree, e);
      next := if !d.drop && d.reclaimParent then tree.parent[segment[0]] else None;
      var nodes := Deepest(segment, memory, d.most);
      after := gone;
      if nodes == [] {
        if d.drop { DropsSomething(policies, capacity, v, w, d, gone, e, k); }
        WalkPast(policies, capacity, v, w, d, gone, e, k);
        return false, next, gone;
      }
      after := gone + nodes;
      last := EvictRound(e, nodes, d.drop, prefix);
      if last {
        WalkSpares(policies, capacity, v, w, View(), d, gone, Some(e), k, prefix);
        WalkEnd(policies, capacity, v, w, View(), d, gone, nodes, e, prefix, k, asked);
      } else {
        WalkOn(policies, capacity, v, w, View(), d, gone, nodes, e, k);
      }
    }

    /** Evicts the deepest blocks of a segment from memory. A dump that had nothing to write goes on with the
        parent segment, which is still in the tree. */
    method EvictFromMemory(d: Eviction, prefix: set<Id>)
      requires Valid() && EvictionOk(tree, memory, d)
      modifies this`memory, this`memoryUsed, this`trace, this`device, this`store, this`tiers, this`tree, this`moves,
               this`nextMove, this`told, this`asked
      ensures Valid() == Evicted(policies, capacity, old(View()), View(), d, prefix, old(asked), asked) == true
      ensures Spared(old(View()), View(), prefix) == true
    {
      ghost var v, gone, k := View(), [], asked;
      var endpoint := Some(d.endpoint);
      WalkStart(policies, capacity, v, d, k);
      while endpoint.Some?
        invariant Valid() && asked == k && Walking(policies, capacity, v, View(), d, gone, endpoint, k) == true
        decreases if endpoint.Some? then Rank(v.tree, endpoint.value) + 1 else 0
      {
        var last, next;
        last, next, gone := WalkRound(d, endpoint.value, prefix, v, gone, k);
        if last { return; }
        endpoint := next;
      }
      WalkDone(policies, capacity, v, View(), d, gone, prefix, k);
      SameSpares(View(), View(), prefix);
      WalkSpares(policies, capacity, v, View(), View(), d, gone, None, k, prefix);
    }

    method InsertIntoMemory(n: Id, prefix: set<Id>) returns (ghost freed: State)
      requires Valid() && active == Some(n) && n !in memory && memoryCapacity > 0
      modifies this`memory, this`memoryUsed, this`trace, this`device, this`store, this`tiers, this`tree, this`moves,
               this`nextMove, this`told, this`asked
      ensures Valid() == true && LastTold(n) == true && MadeRoom(policies, capacity, memoryCapacity, old(View()),
              freed, prefix, old(asked), asked) == true
      ensures View() == freed.(memory := freed.memory + {n})
      ensures Spared(old(View()), View(), prefix) == true
    {
      ghost var v := View();
      FreeMemory(n, prefix);
      freed := View();
      AdmitActive(n);
      StoreSpares(v, freed, View(), prefix);
    }

    /** The last thing the memory policy was told is that this block entered memory. */
    ghost predicate LastTold(n: Id)
      reads this`told
    {
      told != [] && told[|told| - 1] == Inserted(n)
    }

    method AdmitActive(n: Id)
      requires Valid() && active == Some(n) && n !in memory && |memory| < memoryCapacity
      modifies this`memory, this`memoryUsed, this`told
      ensures Valid() && View() == old(View()).(memory := old(memory) + {n}) && LastTold(n) == true
    {
      AdmitSound(n);
    }

    method AdmitSound(n: Id)
      requires Sound(View()) && Informed() && active == Some(n) && n !in memory
      modifies this`memory, this`memoryUsed, this`told
      ensures Sound(View()) == true
      ensures View() == old(View()).(memory := old(memory) + {n})
      ensures Informed() && LastTold(n) == true && memoryUsed == old(memoryUsed) + 1
      ensures Numbered() == old(Numbered()) && Bounded() == old(Bounded())
    {
      ActiveInTree(View(), n);
      Admitted(View(), n);
      Admit(n);
    }

    /** Evicts if memory is full. */
    method FreeMemory(ghost n: Id, prefix: set<Id>)
      requires Valid() && memoryCapacity > 0 && n !in memory
      modifies this`memory, this`memoryUsed, this`trace, this`device, this`store, this`tiers, this`tree, this`moves,
               this`nextMove, this`told, this`asked
      ensures Valid() == true && active == old(active) && |memory| < memoryCapacity && n !in memory
      ensures MadeRoom(policies, capacity, memoryCapacity, old(View()), View(), prefix, old(asked), asked) == true
      ensures Spared(old(View()), View(), prefix) == true
    {
      if memoryUsed == memoryCapacity {
        EvictWhenFull(n, prefix);
      } else {
        RoomFree(policies, capacity, memoryCapacity, View(), prefix, asked);
        SameSpares(View(), View(), prefix);
      }
    }

    method EvictWhenFull(ghost n: Id, prefix: set<Id>)
      requires Valid() && memoryCapacity > 0 && |memory| == memoryCapacity && n !in memory
      modifies this`memory, this`memoryUsed, this`trace, this`device, this`store, this`tiers, this`tree, this`moves,
               this`nextMove, this`told, this`asked
      ensures Valid() == true && active == old(active) && |memory| < memoryCapacity && n !in memory
      ensures MadeRoom(policies, capacity, memoryCapacity, old(View()), View(), prefix, old(asked), asked) == true
      ensures Spared(old(View()), View(), prefix) == true
    {
      ghost var v, k := View(), asked;
      assert memory != {};
      var d := EvictionDecision();
      ghost var j := asked;
      EvictFromMemory(d, prefix);
      EvictedRoom(policies, capacity, memoryCapacity, v, View(), d, prefix, k, j, asked);
    }

    method Admit(n: Id)
      requires Informed() && n in tree.parent && n !in memory
      modifies this`memory, this`memoryUsed, this`told
      ensures View() == old(View()).(memory := old(memory) + {n}) && memoryUsed == old(memoryUsed) + 1
      ensures Informed() && told == old(told) + [Inserted(n)]
    {
      TellsInserted(told, tree, memory, n);
      told := told + [Inserted(n)];
      memory := memory + {n};
      memoryUsed := memoryUsed + 1;
    }

    // ---- Accesses ----

    /** The read of a storage hit that starts relocation `m`. */
    method ReadHit(n: Id, m: nat) returns (read: nat)
      requires Sound(View()) && (forall k <- moves :: k < m) && n in store
      modifies this`trace, this`device
      ensures Moving(View(), m, {}, {}, {read}) == true && View() == old(View()).(trace := trace)
      ensures read == |old(trace)| && old(trace) <= trace && ReadAt(trace, m, AccessMigration, Some(n), n, store[n], read)
    {
      StartMoving(View(), m);
      ReadStep(View(), m, {}, {}, n, StorageHit);
      assert {} + {|trace|} == {|trace|};
      read := Emit(Read, n, store[n], StorageHit, Some(m), None);
    }

    /** The relocation of an access migration: its first read is the storage hit itself. */
    method MoveFromHit(n: Id, nodes: seq<Id>, stream: nat)
      requires Sound(View()) && Numbered() && Movable(View(), nodes) && n in nodes
      modifies this`trace, this`device, this`store, this`tiers, this`moves, this`nextMove
      ensures Sound(View()) == Numbered() == BlocksMoved(old(View()), View(), nodes, stream, AccessMigration) == true
      ensures HitLogged(old(View()), View(), n) == true
    {
      ghost var v := View();
      var m := nextMove;
      nextMove := nextMove + 1;
      var read := ReadHit(n, m);
      ghost var w := View();
      MoveBlocks(m, nodes, stream, AccessMigration, Some((n, read)), {read});
      HitFirst(v, w, View(), n, read);
      MovedFromHit(v, w, View(), m, nodes, stream, AccessMigration);
    }

    method MoveWithHit(n: Id, nodes: seq<Id>, stream: nat)
      requires Valid() && Movable(View(), nodes) && n in nodes
      modifies this`trace, this`device, this`store, this`tiers, this`moves, this`nextMove
      ensures Valid() == BlocksMoved(old(View()), View(), nodes, stream, AccessMigration) == HitLogged(old(View()),
              View(), n) == true
      ensures asked == old(asked)
    {
      ghost var v := View();
      MoveFromHit(n, nodes, stream);
      HitMoved(v, View(), nodes, stream, AccessMigration, n);
    }

    /** Moves the segment of an accessed SLC block to TLC if room can be made for the blocks it has now. The
        segment is looked up again after reclaiming. */
    method MigrateOnAccess(n: Id, stream: nat, prefix: set<Id>) returns (relocated: bool, ghost room: State,
        ghost path: seq<State>)
      requires Valid() && n in store && store[n].tier == Slc
      modifies this`trace, this`device, this`store, this`tiers, this`tree, this`moves, this`nextMove, this`told, this`asked
      ensures Valid() == true && old(asked) < asked && Kept(old(View()), View(), n, relocated) == true
      ensures relocated ==> HitLogged(old(View()), View(), n)
      ensures MigrationDone(policies, capacity, old(View()), room, View(), n, stream, prefix, path, old(asked),
              relocated) == true
      ensures !relocated ==> Limited(policies, capacity, old(View()), View(), old(asked), asked)
    {
      ghost var a := Here();
      StoredInTree(a.state, n);
      var e := Leaf(tree, n);
      var shielded := prefix + Elems(Segment(tree, e));
      relocated, path := EnsureCapacity(Tlc, |Residents(tree, store, e, Slc)|, shielded);
      ghost var b := Here();
      room := b.state;
      RoomReady(policies, capacity, a.state, room, n, prefix, a.asked, b.asked);
      if relocated {
        var nodes := Residents(tree, store, e, Slc);
        MoveWithHit(n, nodes, stream);
        HitLater(a.state, room, View(), n);
      }
      MigrationMade(policies, capacity, a, b, View(), n, stream, prefix, path, relocated, e);
      MigrationKeeps(a.state, room, View(), n, e, stream, relocated);
    }

    /** No access is under way and `n` is the only node that may be without a copy though a leaf. */
    ghost predicate Ready(n: Id)
      reads this`tree, this`memory, this`store, this`tiers, this`trace, this`active, this`device, this`moves
      reads this`memoryUsed, this`nextMove, this`told
    {
      && Base(View(), {n}) && n in tree.parent && active.None?
      && Numbered() && Bounded() && memoryUsed == |memory| <= memoryCapacity && memoryCapacity > 0 && Informed()
    }

    method OnStorageAccess(n: Id, source: Tier) returns (stream: Option<nat>)
      modifies this`asked
      ensures stream == Migration(policies, old(asked), n, source) && asked == old(asked) + 1
      ensures Valid() == old(Valid()) && View() == old(View())
    {
      stream := Migration(policies, asked, n, source);
      asked := asked + 1;
    }

    method StorageRead(n: Id)
      requires Valid() && n in store
      modifies this`trace, this`device
      ensures Valid() && View() == old(View()).(trace := trace) && HitLogged(old(View()), View(), n)
    {
      HitBase(View(), {}, n);
      ReadLogged(View(), n, Plain(Read, n, store[n], StorageHit));
      ghost var v := View();
      var read := Emit(Read, n, store[n], StorageHit, None, None);
      HitFirst(v, View(), View(), n, read);
    }

    /** A storage hit: the block is read where it is, or as the first read of its migration. */
    method ServeFromStorage(n: Id, prefix: set<Id>)
      requires Valid() && n in store
      modifies this`trace, this`device, this`store, this`tiers, this`tree, this`moves, this`nextMove, this`told, this`asked
      ensures Valid() == ServedFrom(policies, capacity, old(View()), View(), n, prefix, old(asked), asked) == true
    {
      ghost var v, k := View(), asked;
      var stream := OnStorageAccess(n, store[n].tier);
      if stream.Some? {
        ghost var j := asked;
        var relocated;
        ghost var room, path;
        relocated, room, path := MigrateAndRead(n, stream.value, prefix);
        Served(v, n, stream.value, prefix, k, j, room, path, relocated);
      } else {
        StorageRead(n);
      }
    }

    lemma Served(v: State, n: Id, stream: nat, prefix: set<Id>, k: nat, j: nat, room: State, path: seq<State>,
                 relocated: bool)
      requires j == k + 1 && j <= asked && n in v.store && Migration(policies, k, n, v.store[n].tier) == Some(stream)
      requires MigrationDone(policies, capacity, v, room, View(), n, stream, prefix, path, j, relocated) == true
      requires Kept(v, View(), n, relocated) && HitLogged(v, View(), n)
      requires !relocated ==> Limited(policies, capacity, v, View(), j, asked) == true
      ensures ServedFrom(policies, capacity, v, View(), n, prefix, k, asked) == true
    {
      if !relocated { LimitedLater(policies, capacity, v, View(), k, j, asked); }
      assert Migrated(policies, capacity, v, room, View(), n, prefix, path, k, asked, relocated);
    }

    /** A migration, and the read of the block where it is if there was no room for one. */
    method MigrateAndRead(n: Id, stream: nat, prefix: set<Id>) returns (relocated: bool, ghost room: State,
        ghost path: seq<State>)
      requires Valid() && n in store && store[n].tier == Slc
      modifies this`trace, this`device, this`store, this`tiers, this`tree, this`moves, this`nextMove, this`told, this`asked
      ensures Valid() == Kept(old(View()), View(), n, relocated) == HitLogged(old(View()), View(), n) == true
              && old(asked) < asked
      ensures MigrationDone(policies, capacity, old(View()), room, View(), n, stream, prefix, path, old(asked),
              relocated) == true
      ensures !relocated ==> Limited(policies, capacity, old(View()), View(), old(asked), asked) == true
    {
      ghost var v, k := View(), asked;
      relocated, room, path := MigrateOnAccess(n, stream, prefix);
      if !relocated {
        ghost var w, j := View(), asked;
        StorageRead(n);
        HitLater(v, w, View(), n);
        LimitedSame(policies, capacity, w, View(), j, j);
        LimitedThrough(policies, capacity, v, w, View(), k, j, j);
      }
    }

    method SetActive(node: Option<Id>)
      modifies this`active
      ensures View() == old(View()).(active := node)
    {
      active := node;
    }

    method BeginAccess(n: Id)
      requires Ready(n)
      modifies this`active
      ensures Valid() && View() == old(View()).(active := Some(n))
    {
      Activate(View(), n);
      SetActive(Some(n));
    }

    method EndAccess(n: Id)
      requires Valid() && active == Some(n) && (n in memory || n in store)
      modifies this`active
      ensures Valid() && View() == old(View()).(active := None)
    {
      Deactivate(View(), n);
      SetActive(None);
    }

    /** The policy is told of an access to a block in memory. */
    method RecordAccess(n: Id)
      requires Valid() && n in memory
      modifies this`told
      ensures Valid() == true && View() == old(View()) && told == old(told) + [Accessed(n)]
    {
      TellsAccessed(told, tree, memory, n);
      told := told + [Accessed(n)];
    }

    /** A storage hit, after which the block enters memory if the policy admits it. */
    method ServeAndAdmit(n: Id, prefix: set<Id>)
      requires Valid() && active == Some(n) && n in store && n !in memory && memoryCapacity > 0
      modifies this`memory, this`memoryUsed, this`trace, this`device, this`store, this`tiers, this`tree, this`moves,
               this`nextMove, this`told, this`asked,
               this`admissions
      ensures Valid() == true && active == old(active)
      ensures AccessDone(policies, capacity, memoryCapacity, old(View()), View(), n, prefix,
              StorageHitIn(old(store[n].tier)), old(asked), asked, old(admissions), admissions) == true
      ensures n in memory ==> LastTold(n)
    {
      ghost var v := View();
      ServeFromStorage(n, prefix);
      ghost var u, k := View(), asked;
      var admit := policies.admit(admissions);
      admissions := admissions + 1;
      if admit { Enter(n, prefix); }
      ServedDone(policies, capacity, memoryCapacity, v, u, View(), n, prefix, old(asked), k, asked, old(admissions), admissions);
    }

    method Enter(n: Id, prefix: set<Id>)
      requires Valid() && active == Some(n) && n !in memory && memoryCapacity > 0
      modifies this`memory, this`memoryUsed, this`trace, this`device, this`store, this`tiers, this`tree, this`moves,
               this`nextMove, this`told, this`asked
      ensures Valid() == true && LastTold(n) == true && Entered(policies, capacity, memoryCapacity, old(View()),
              View(), n, prefix, old(asked), asked) == true
      ensures active == old(active) && n in memory
    {
      ghost var _ := InsertIntoMemory(n, prefix);
    }

    /** The policy is told of an access to a block in memory, and of one that brought its block there. */
    ghost predicate Heard(told0: seq<Event>, memory: set<Id>, n: Id, result: AccessResult)
      reads this`told
    {
      if result.MemoryHit? then told == told0 + [Accessed(n)]
      else n in memory ==> LastTold(n)
    }

    predicate Holds(n: Id)
      reads this`tree, this`memory, this`store
    {
      n in tree.parent && (n in memory || n in store)
    }

    /** One access. Afterwards the node is in the tree and holds a copy, and so does every leaf. */
    method ProcessAccess(n: Id, prefix: set<Id>) returns (result: AccessResult)
      requires Ready(n)
      modifies this
      ensures Valid() && active.None? && Holds(n) && result == FirstResult(old(View()), n)
      ensures AccessBetween(policies, capacity, memoryCapacity, old(Here()), Here(), n, prefix, result) == true
      ensures Heard(old(told), memory, n, result) == true
    {
      ghost var a := Here();
      BeginAccess(n);
      ghost var v := View();
      result := Access(n, prefix);
      ghost var w := View();
      EndAccess(n);
      Between(policies, capacity, memoryCapacity, a, v, w, Here(), n, prefix, result);
    }

    /** The state and the numbers of the next questions and of the next relocation. */
    ghost function Here(): Point
      reads this`tree, this`memory, this`store, this`tiers, this`trace, this`active, this`device, this`moves
      reads this`asked, this`admissions, this`nextMove
    {
      Point(View(), asked, admissions, nextMove)
    }

    method Access(n: Id, prefix: set<Id>) returns (result: AccessResult)
      requires Valid() && active == Some(n) && memoryCapacity > 0
      modifies this`memory, this`memoryUsed, this`trace, this`device, this`store, this`tiers, this`tree, this`moves,
               this`nextMove, this`told, this`asked,
               this`admissions
      ensures Valid() == true && active == old(active)
      ensures AccessDone(policies, capacity, memoryCapacity, old(View()), View(), n, prefix, result, old(asked), asked,
              old(admissions), admissions) == true
      ensures Heard(old(told), memory, n, result) == true
    {
      ghost var v, k, j := View(), asked, admissions;
      if n in memory {
        result := MemoryHit;
        RecordAccess(n);
        HitDone(policies, capacity, memoryCapacity, v, n, prefix, k, j);
      } else if n in store {
        result := StorageHitIn(store[n].tier);
        ServeAndAdmit(n, prefix);
      } else {
        result := GlobalMiss;
        Enter(n, prefix);
        MissDone(policies, capacity, memoryCapacity, v, View(), n, prefix, k, asked, j);
      }
    }

    /** The longest prefix of a request that is a path of nodes with copies. */
    method ProtectedPrefix(hashes: seq<Id>) returns (prefix: seq<Id>)
      ensures ProtectedBy(View(), hashes, prefix) == true
    {
      var k := 0;
      while k < |hashes| && OnPath(tree, memory, store, hashes, k)
        invariant 0 <= k <= |hashes| && forall i | 0 <= i < k :: OnPath(tree, memory, store, hashes, i)
      {
        k := k + 1;
      }
      prefix := hashes[..k];
    }

    lemma ExistingReady(n: Id)
      requires Valid() && active.None? && memoryCapacity > 0 && n in tree.parent
      ensures Ready(n) == true
    {
      MoreSuspects(View(), {}, {n});
    }

    method AddNode(n: Id, parent: Option<Id>)
      requires Informed() && n !in tree.parent && (parent.Some? ==> parent.value in tree.parent)
      modifies this`tree, this`told
      ensures View() == old(View()).(tree := Add(old(tree), n, parent))
      ensures Informed() && told == old(told) + [Event.Created(n, parent)]
    {
      TellsCreated(told, tree, memory, n, parent);
      told := told + [Event.Created(n, parent)];
      tree := Add(tree, n, parent);
    }

    method CreateNode(n: Id, parent: Option<Id>)
      requires Valid() && active.None? && memoryCapacity > 0 && (parent.Some? ==> parent.value in tree.parent)
               && n !in tree.parent
      modifies this`tree, this`told
      ensures Ready(n) == true && tree == Add(old(tree), n, parent)
    {
      SimulatorState.Created(View(), n, parent);
      AddNode(n, parent);
    }

    /** The node of a hash: an existing one as it is, whatever the parent, or a new one below the parent. */
    method GetOrCreate(n: Id, parent: Option<Id>)
      requires Valid() && active.None? && memoryCapacity > 0 && (parent.Some? ==> parent.value in tree.parent)
      modifies this`tree, this`told
      ensures Ready(n) == true && Here() == old(Here()).(state := old(View()).(tree := WithNode(old(tree), n, parent)))
      ensures FirstResult(View(), n) == FirstResult(old(View()), n)
    {
      if n in tree.parent { ExistingReady(n); } else { CreateNode(n, parent); }
    }

    /** The next block of a request, below the one before. */
    method AccessNext(n: Id, parent: Option<Id>, prefix: set<Id>) returns (result: AccessResult)
      requires Valid() && active.None? && memoryCapacity > 0 && (parent.Some? ==> parent.value in tree.parent)
      modifies this
      ensures Valid() && active.None? && Holds(n)
      ensures Requested(policies, capacity, memoryCapacity, old(Here()), Here(), n, parent, prefix, result) == true
    {
      ghost var a := Here();
      GetOrCreate(n, parent);
      ghost var m := Here();
      result := ProcessAccess(n, prefix);
      RequestedVia(policies, capacity, memoryCapacity, a, m, Here(), n, parent, prefix, result);
    }

    /** A request has come this far. */
    ghost predicate Serving(points: seq<Point>, hashes: seq<Id>, prefix: set<Id>, results: seq<AccessResult>,
        hits: nat, prefixHit: bool)
      reads this
    {
      && Valid() && active.None? && Answered(policies, capacity, memoryCapacity, points, hashes, prefix, results) && points[|results|] == Here()
      && hits == HitPrefix(results) && prefixHit == (hits == |results|)
      && (results != [] ==> Holds(hashes[|results| - 1]))
    }

    method ServeNext(hashes: seq<Id>, prefix: set<Id>, so: seq<AccessResult>, hitsSo: nat, hitSo: bool, ghost points: seq<Point>)
      returns (results: seq<AccessResult>, hits: nat, prefixHit: bool, ghost longer: seq<Point>)
      requires Serving(points, hashes, prefix, so, hitsSo, hitSo) && |so| < |hashes| && memoryCapacity > 0
      modifies this
      ensures |results| == |so| + 1 && Serving(longer, hashes, prefix, results, hits, prefixHit) == true
      ensures longer[0] == points[0]
    {
      var i := |so|;
      ghost var before := Here();
      var result := AccessNext(hashes[i], Above(hashes, i), prefix);
      HitPrefixNext(so, result);
      AnsweredNext(policies, capacity, memoryCapacity, points, hashes, prefix, so, before, Here(), i, result);
      longer := points + [Here()];
      results := so + [result];
      prefixHit := hitSo && !result.GlobalMiss?;
      hits := if prefixHit then hitsSo + 1 else hitsSo;
    }

    /** One request: its blocks are accessed in order, each below its predecessor, which is still in the tree, with the
        longest path of nodes with copies protected. The hits are counted up to the first miss. */
    method ProcessRequest(hashes: seq<Id>) returns (results: seq<AccessResult>, hits: nat, ghost points: seq<Point>,
        ghost protected: seq<Id>)
      requires Valid() && active.None? && memoryCapacity > 0
      modifies this
      ensures Valid() && active.None? && |results| == |hashes| && hits == HitPrefix(results)
      ensures Answered(policies, capacity, memoryCapacity, points, hashes, Elems(protected), results) == true
      ensures points[0] == old(Here()) && points[|hashes|] == Here()
      ensures ProtectedBy(old(View()), hashes, protected) == true
      ensures hashes != [] ==> Holds(hashes[|hashes| - 1])
    {
      results, hits, points := [], 0, [Here()];
      var prefixHit := true;
      var nodes := ProtectedPrefix(hashes);
      protected := nodes;
      var prefix := Elems(nodes);
      while |results| < |hashes|
        invariant |results| <= |hashes| && Serving(points, hashes, prefix, results, hits, prefixHit) == true
        invariant points[0] == old(Here())
      {
        results, hits, prefixHit, points := ServeNext(hashes, prefix, results, hits, prefixHit, points);
      }
    }

    /** One step of a run: the request is answered, or the tick drained. Without access migrations it keeps to the limits. */
    method TakeStep(step: Step)
      requires Valid() && active.None? && memoryCapacity > 0
      modifies this
      ensures Valid() && active.None?
      ensures StepDone(policies, capacity, memoryCapacity, old(Here()), Here(), step) == true
      ensures Still(policies) ==> Limited(policies, capacity, old(View()), View(), old(asked), asked) == true
    {
      match step
      case Request(hashes) =>
        ghost var points, protected;
        var results, hits;
        results, hits, points, protected := ProcessRequest(hashes);
        RequestTaken(policies, capacity, memoryCapacity, old(Here()), Here(), hashes, points, protected, results);
        if Still(policies) { AnsweredLimited(policies, capacity, memoryCapacity, points, hashes, Elems(protected), results, |results|); }
      case Tick =>
        ghost var v, k := View(), asked;
        DrainBackgroundTick();
        WorkedLimited(policies, capacity, v, View(), {}, k, asked, 0);
    }

    /** Any run of requests and background ticks, whose steps lead from one point of the trail to the next. It can only
        come to exceed the capacity of TLC by access migrations. */
    method Run(steps: seq<Step>) returns (ghost trail: seq<Point>)
      requires Valid() && active.None? && memoryCapacity > 0
      modifies this
      ensures Valid() && active.None?
      ensures RunSoFar(policies, capacity, memoryCapacity, trail, steps, |steps|) == true
      ensures trail[0] == old(Here()) && trail[|steps|] == Here()
      ensures Still(policies) ==> Exceeded() == old(Exceeded())
    {
      ghost var v, k := View(), asked;
      trail := [Here()];
      RunStarts(policies, capacity, memoryCapacity, Here(), steps);
      LimitedSame(policies, capacity, v, v, k, k);
      for i := 0 to |steps|
        invariant Valid() && active.None? && (Still(policies) ==> Limited(policies, capacity, v, View(), k, asked))
        invariant RunSoFar(policies, capacity, memoryCapacity, trail, steps, i) == true
        invariant |trail| == i + 1 && trail[0] == old(Here()) && trail[i] == Here()
      {
        ghost var w, j := View(), asked;
        TakeStep(steps[i]);
        RunOn(policies, capacity, memoryCapacity, trail, steps, i, Here());
        trail := trail + [Here()];
        if Still(policies) { LimitedThrough(policies, capacity, v, w, View(), k, j, asked); }
      }
      if Still(policies) { LimitedBound(policies, capacity, v, View(), k, asked, Tlc); }
    }
  }
}
