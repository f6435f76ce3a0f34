/**
 Access migrations: the blocks of a segment are moved to TLC when one of them is hit. Room is made for the blocks that
 the segment has at the time of the hit, but the segment is looked up again afterwards.
 */
module SimulatorMigration {
  import opened Prelude
  import opened Tiers
  import opened Forest
  import opened Joining
  import opened Trace
  import opened SimulatorSteps
  import opened SimulatorState
  import opened SimulatorMoves
  import opened SimulatorReclaim
  import opened SimulatorRoom

  /** The nodes that are out of bounds while room is made for the segment of an accessed block. */
  function Shield(v: State, n: Id, prefix: set<Id>): set<Id>
    requires Grown(v.tree) && n in v.tree.parent
  {
    prefix + Elems(Segment(v.tree, Leaf(v.tree, n)))
  }

  /** What an access migration comes to. First room is made in TLC for the SLC blocks of the accessed segment, which
      leads to `room`; then the blocks that its endpoint's segment has there are moved to the stream asked for, if room
      was made. */
  ghost predicate MigrationDone(p: Policies, capacity: Pair<nat>, v: State, room: State, w: State, n: Id, stream: nat,
                                prefix: set<Id>, path: seq<State>, k: nat, relocated: bool) {
    && Grown(v.tree) && n in v.tree.parent && n in v.store && v.store[n].tier.Slc?
    && var e := Leaf(v.tree, n);
    && Grown(room.tree) && e in room.tree.parent
    && RoomMade(p, v, room, path, k + 1, Sized(v.tree, v.store, e), LimitOf(p, capacity, k, Tlc), Shield(v, n, prefix), relocated)
    && if relocated then BlocksMoved(room, w, Residents(room.tree, room.store, e, Slc), stream, AccessMigration)
       else w.tree == room.tree && w.store == room.store && w.tiers == room.tiers
  }

  /** The blocks of a relocation that begins with the read of a storage hit. */
  lemma MovedFromHit(v: State, w: State, u: State, m: nat, nodes: seq<Id>, stream: nat, reason: Reason)
    requires w == v.(trace := w.trace) && v.trace <= w.trace && MovedBlocks(w, u, m, nodes, stream, reason) == true
    ensures BlocksMoved(v, u, nodes, stream, reason) == true
  {
    assert MovedBlocks(v, u, m, nodes, stream, reason);
  }

  /** Once room has been made the accessed block is where it was, and the segment that ends where its segment ended holds
      it. */
  lemma RoomReady(p: Policies, capacity: Pair<nat>, v: State, w: State, n: Id, prefix: set<Id>, k0: nat, k1: nat)
    requires Sound(v) == true && Sound(w) == true && n in v.store && v.store[n].tier.Slc?
    requires Eased(p, capacity, v, w, Tlc, Shield(v, n, prefix), k0, k1) == true
    ensures Leaf(v.tree, n) in w.tree.parent
    ensures var nodes := Residents(w.tree, w.store, Leaf(v.tree, n), Slc); Movable(w, nodes) && n in nodes
    ensures w.active == v.active && w.memory == v.memory && v.trace <= w.trace && n in w.store && w.store[n] == v.store[n]
    ensures Limited(p, capacity, v, w, k0, k1) == true
  {
    EasedMeans(p, capacity, v, w, Tlc, Shield(v, n, prefix), k0, k1);
    MigrationReady(v, w, n, Shield(v, n, prefix));
    ResidentsMovable(w, Leaf(v.tree, n));
  }

  lemma HitMoved(v: State, w: State, nodes: seq<Id>, stream: nat, reason: Reason, n: Id)
    requires BlocksMoved(v, w, nodes, stream, reason) && n in nodes && n in v.store
    ensures w.active == v.active && w.memory == v.memory && v.trace <= w.trace && n in w.store && w.store[n].tier.Tlc?
    ensures w.tree == v.tree && Peak(w, Slc) == Peak(v, Slc)
  {
    var m :| MovedBlocks(v, w, m, nodes, stream, reason);
  }

  /** The blocks that a migration has moved. */
  function MovedOf(room: State, w: State): int { Used(w, Tlc) - Used(room, Tlc) }

  lemma {:induction false} PathPeak(p: Policies, path: seq<State>, k: nat, required: nat, limit: nat, shielded: set<Id>, i: nat)
    requires TrimPath(p, path, k, required, limit, shielded) && i < |path|
    ensures Peak(path[i], Tlc) == Peak(path[0], Tlc) && Used(path[i], Tlc) <= Used(path[0], Tlc)
  {
    if i > 0 {
      PathPeak(p, path, k, required, limit, shielded, i - 1);
      NextTrim(p, path, k, required, limit, shielded, i - 1);
    }
  }

  lemma RoomFrees(p: Policies, v: State, w: State, path: seq<State>, k: nat, required: nat, limit: nat,
      shielded: set<Id>, ok: bool)
    requires RoomMade(p, v, w, path, k, required, limit, shielded, ok)
    ensures Sound(v) && Sound(w) && Freed(v, w, shielded) && Relieved(v, w, Tlc) && Peak(w, Tlc) == Peak(v, Tlc)
    ensures Used(v, Tlc) + required <= limit ==> ok && w == v
  {
    PathFrees(p, path, k, required, limit, shielded, |path| - 1);
    PathPeak(p, path, k, required, limit, shielded, |path| - 1);
    if |path| > 1 { NextTrim(p, path, k, required, limit, shielded, 0); }
  }

  /** What is moved is what the segment has in SLC once room has been made: at least what it was sized for. */
  lemma MigrationMoves(p: Policies, capacity: Pair<nat>, v: State, room: State, w: State, n: Id, stream: nat,
                       prefix: set<Id>, path: seq<State>, k: nat, relocated: bool)
    requires MigrationDone(p, capacity, v, room, w, n, stream, prefix, path, k, relocated)
    ensures var e := Leaf(v.tree, n);
      MovedOf(room, w) == if relocated then Sized(room.tree, v.store, e) else 0
    ensures relocated ==> MovedOf(room, w) >= Sized(v.tree, v.store, Leaf(v.tree, n))
  {
    var e, shielded := Leaf(v.tree, n), Shield(v, n, prefix);
    RoomFrees(p, v, room, path, k + 1, Sized(v.tree, v.store, e), LimitOf(p, capacity, k, Tlc), shielded, relocated);
    MigrationReady(v, room, n, shielded);
    OverrunExactly(v.tree, room.tree, v.store, e);
  }

  /** If the blocks fit the limit answered, nothing is reclaimed and exactly they are moved. */
  lemma MigrationFits(p: Policies, capacity: Pair<nat>, v: State, room: State, w: State, n: Id, stream: nat,
                      prefix: set<Id>, path: seq<State>, k: nat, relocated: bool)
    requires MigrationDone(p, capacity, v, room, w, n, stream, prefix, path, k, relocated)
    requires Used(v, Tlc) + Sized(v.tree, v.store, Leaf(v.tree, n)) <= LimitOf(p, capacity, k, Tlc)
    ensures relocated && room == v && w.tree == v.tree
    ensures MovedOf(room, w) == Sized(v.tree, v.store, Leaf(v.tree, n))
  {
    var e := Leaf(v.tree, n);
    RoomFrees(p, v, room, path, k + 1, Sized(v.tree, v.store, e), LimitOf(p, capacity, k, Tlc), Shield(v, n, prefix), relocated);
    MigrationMoves(p, capacity, v, room, w, n, stream, prefix, path, k, relocated);
  }

  /** Under any policy a migration moves more blocks than it was sized for only if room had to be made, the blocks did
      not exceed the limit as such, and when it began some ancestor could join the segment. */
  lemma MigrationOverrunNeeds(p: Policies, capacity: Pair<nat>, v: State, room: State, w: State, n: Id, stream: nat,
                              prefix: set<Id>, path: seq<State>, k: nat, relocated: bool)
    requires MigrationDone(p, capacity, v, room, w, n, stream, prefix, path, k, relocated)
    requires MovedOf(room, w) > Sized(v.tree, v.store, Leaf(v.tree, n))
    ensures Sized(v.tree, v.store, Leaf(v.tree, n)) <= LimitOf(p, capacity, k, Tlc)
    ensures Used(v, Tlc) + Sized(v.tree, v.store, Leaf(v.tree, n)) > LimitOf(p, capacity, k, Tlc)
    ensures exists a :: MayJoin(v, Leaf(v.tree, n), a, Shield(v, n, prefix))
  {
    var e, shielded, limit := Leaf(v.tree, n), Shield(v, n, prefix), LimitOf(p, capacity, k, Tlc);
    MigrationMoves(p, capacity, v, room, w, n, stream, prefix, path, k, relocated);
    RoomFrees(p, v, room, path, k + 1, Sized(v.tree, v.store, e), limit, shielded, relocated);
    if Used(v, Tlc) + Sized(v.tree, v.store, e) <= limit {
      MigrationFits(p, capacity, v, room, w, n, stream, prefix, path, k, relocated);
    }
    UsedBounds(room, Tlc);
    OverrunNeeds(v, room, e, shielded);
  }

  /** TLC comes to use more than its capacity in a migration exactly if what it uses once room has been made, and the
      blocks moved, are more. */
  lemma MigrationExceeds(p: Policies, capacity: Pair<nat>, v: State, room: State, w: State, n: Id, stream: nat,
                         prefix: set<Id>, path: seq<State>, k: nat, relocated: bool)
    requires MigrationDone(p, capacity, v, room, w, n, stream, prefix, path, k, relocated)
    ensures Peak(w, Tlc) > capacity.tlc <==>
              Peak(v, Tlc) > capacity.tlc || (relocated && Used(room, Tlc) + MovedOf(room, w) > capacity.tlc)
    ensures Peak(w, Tlc) > capacity.tlc && Peak(v, Tlc) <= capacity.tlc ==>
              MovedOf(room, w) > Sized(v.tree, v.store, Leaf(v.tree, n))
  {
    var e, shielded := Leaf(v.tree, n), Shield(v, n, prefix);
    RoomFrees(p, v, room, path, k + 1, Sized(v.tree, v.store, e), LimitOf(p, capacity, k, Tlc), shielded, relocated);
  }

  /** If an ancestor can join and a policy drives everything aside of its way out of TLC, with a limit that is reached
      when it is gone, the migration moves more blocks than it was sized for and passes that limit. */
  lemma MigrationDriven(p: Policies, capacity: Pair<nat>, v: State, room: State, w: State, n: Id, stream: nat,
                        prefix: set<Id>, path: seq<State>, k: nat, relocated: bool, a: Id)
    requires MigrationDone(p, capacity, v, room, w, n, stream, prefix, path, k, relocated)
    requires MayJoin(v, Leaf(v.tree, n), a, Shield(v, n, prefix)) && Drives(p, v, Aside(v.tree, Leaf(v.tree, n), a))
    requires LimitOf(p, capacity, k, Tlc) ==
               Used(v, Tlc) - |Off(v.store, Aside(v.tree, Leaf(v.tree, n), a))| + Sized(v.tree, v.store, Leaf(v.tree, n))
    ensures relocated && MovedOf(room, w) > Sized(v.tree, v.store, Leaf(v.tree, n))
    ensures Used(w, Tlc) > LimitOf(p, capacity, k, Tlc)
  {
    var e, shielded, limit := Leaf(v.tree, n), Shield(v, n, prefix), LimitOf(p, capacity, k, Tlc);
    assert e in Elems(Segment(v.tree, e));
    RoomFrees(p, v, room, path, k + 1, Sized(v.tree, v.store, e), limit, shielded, relocated);
    DrivenJoins(p, v, room, path, k + 1, Sized(v.tree, v.store, e), limit, shielded, relocated, e, a);
    MigrationMoves(p, capacity, v, room, w, n, stream, prefix, path, k, relocated);
    MigrationReady(v, room, n, shielded);
    OverrunExactly(v.tree, room.tree, v.store, e);
  }

  /** A policy under which every migration of `n` that begins in `v` moves more blocks than it was sized for. */
  ghost predicate Overruns(p: Policies, capacity: Pair<nat>, v: State, n: Id, prefix: set<Id>) {
    forall room, w, stream, path, k, relocated ::
      MigrationDone(p, capacity, v, room, w, n, stream, prefix, path, k, relocated) ==>
        relocated && MovedOf(room, w) > Sized(v.tree, v.store, Leaf(v.tree, n))
  }

  /** Where an ancestor can join and what hangs aside is enough to make the room, some policy brings that about. */
  lemma SomePolicyOverruns(p: Policies, capacity: Pair<nat>, v: State, n: Id, prefix: set<Id>, a: Id)
    requires Sound(v) && n in v.store && v.store[n].tier.Slc?
    requires MayJoin(v, Leaf(v.tree, n), a, Shield(v, n, prefix))
    requires Used(v, Tlc) - |Off(v.store, Aside(v.tree, Leaf(v.tree, n), a))| + Sized(v.tree, v.store, Leaf(v.tree,
             n)) <= capacity.tlc
    ensures exists q: Policies :: q.(limit := p.limit, reclaim := p.reclaim) == p && Overruns(q, capacity, v, n, prefix)
  {
    var e := Leaf(v.tree, n);
    var d := Aside(v.tree, e, a);
    OffBounded(v, d);
    var limit := Used(v, Tlc) - |Off(v.store, d)| + Sized(v.tree, v.store, e);
    var q := Driving(p, d, limit);
    DrivingDrives(p, v, d, limit);
    forall room, w, stream, path, k, relocated | MigrationDone(q, capacity, v, room, w, n, stream, prefix, path, k,
            relocated)
      ensures relocated && MovedOf(room, w) > Sized(v.tree, v.store, e)
    {
      MigrationDriven(q, capacity, v, room, w, n, stream, prefix, path, k, relocated, a);
    }
    assert q.(limit := p.limit, reclaim := p.reclaim) == p;
  }
}
