/** What an access and a request come to, and when an access takes TLC beyond its capacity. */
module SimulatorAccess {
  import opened Prelude
  import opened Tiers
  import opened Forest
  import opened Trace
  import opened SimulatorSteps
  import opened SimulatorState
  import opened SimulatorMoves
  import opened SimulatorReclaim
  import opened SimulatorRoom
  import opened SimulatorTurns
  import opened SimulatorMigration
  import opened SimulatorRounds

  datatype AccessResult = MemoryHit | StorageHitIn(tier: Tier) | GlobalMiss

  /** Where a block is found. */
  function FirstResult(v: State, n: Id): AccessResult {
    if n in v.memory then MemoryHit else if n in v.store then StorageHitIn(v.store[n].tier) else GlobalMiss
  }

  /** The number of results before the first miss. */
  function HitPrefix(results: seq<AccessResult>): (hits: nat)
    ensures hits <= |results| && (forall i | 0 <= i < hits :: !results[i].GlobalMiss?)
    ensures hits < |results| ==> results[hits].GlobalMiss?
  {
    if results == [] then 0
    else
      var before := HitPrefix(results[..|results| - 1]);
      if before == |results| - 1 && !results[|results| - 1].GlobalMiss? then before + 1 else before
  }

  lemma HitPrefixNext(results: seq<AccessResult>, result: AccessResult)
    ensures HitPrefix(results + [result]) ==
            if HitPrefix(results) == |results| && !result.GlobalMiss? then |results| + 1 else HitPrefix(results)
  {
    assert (results + [result])[..|results|] == results;
  }

  // ---- Storage hits ----

  /** A storage hit leaves memory and the access alone, and its block where it was unless it moved to TLC. */
  ghost predicate Kept(v: State, w: State, n: Id, relocated: bool) {
    && w.active == v.active && w.memory == v.memory && v.trace <= w.trace && n in v.store && n in w.store
    && if relocated then w.store[n].tier == Tlc else w.store[n] == v.store[n]
  }

  /** Room has been asked for, and the blocks have been moved if there was room. */
  lemma MigrationMade(p: Policies, capacity: Pair<nat>, a: Point, room: Point, w: State, n: Id, stream: nat,
                      prefix: set<Id>, path: seq<State>, relocated: bool, e: Id)
    requires Sound(a.state) == true && Sound(room.state) == true && n in a.state.store && a.state.store[n].tier.Slc?
    requires e == Leaf(a.state.tree, n) && e in room.state.tree.parent && Migrates(room.state, w, e, stream,
            relocated) == true
    requires Ensured(p, capacity, a, room, Tlc, Sized(a.state.tree, a.state.store, e), Shield(a.state, n, prefix),
            path, relocated) == true
    ensures MigrationDone(p, capacity, a.state, room.state, w, n, stream, prefix, path, a.asked, relocated) == true
  {
    var required, shielded := Sized(a.state.tree, a.state.store, e), Shield(a.state, n, prefix);
    EnsuredRoom(p, capacity, a, room, required, shielded, path, relocated);
    MigrationFrom(p, capacity, a.state, room.state, w, n, stream, prefix, path, a.asked, relocated, e, required, shielded);
  }

  lemma MigrationFrom(p: Policies, capacity: Pair<nat>, v: State, room: State, w: State, n: Id, stream: nat,
                      prefix: set<Id>, path: seq<State>, k: nat, relocated: bool, e: Id, required: nat, shielded: set<Id>)
    requires Sound(v) == true && Sound(room) == true && n in v.store && v.store[n].tier.Slc?
    requires e == Leaf(v.tree, n) && e in room.tree.parent && Migrates(room, w, e, stream, relocated) == true
    requires required == Sized(v.tree, v.store, e) && shielded == Shield(v, n, prefix)
    requires RoomMade(p, v, room, path, k + 1, required, LimitOf(p, capacity, k, Tlc), shielded, relocated) == true
    ensures MigrationDone(p, capacity, v, room, w, n, stream, prefix, path, k, relocated) == true
  {}

  ghost predicate Migrates(room: State, w: State, e: Id, stream: nat, relocated: bool)
    requires Grown(room.tree) && e in room.tree.parent
  {
    if relocated then BlocksMoved(room, w, Residents(room.tree, room.store, e, Slc), stream, AccessMigration) else w == room
  }

  lemma MigrationKeeps(v: State, room: State, w: State, n: Id, e: Id, stream: nat, relocated: bool)
    requires Sound(room) == true && e in room.tree.parent && n in v.store && n in Residents(room.tree, room.store, e, Slc)
    requires room.active == v.active && room.memory == v.memory && v.trace <= room.trace && n in room.store && room.store[n] == v.store[n]
    requires Migrates(room, w, e, stream, relocated) == true
    ensures Kept(v, w, n, relocated) == true
  {
    if relocated { HitMoved(room, w, Residents(room.tree, room.store, e, Slc), stream, AccessMigration, n); }
  }

  /** What a storage policy asks for on a storage hit: at most to move the segment of a block hit in SLC. */
  function Migration(p: Policies, k: nat, n: Id, source: Tier): (stream: Option<nat>)
    ensures stream.Some? ==> source.Slc?
  {
    if source.Slc? then p.migrate(k, n) else None
  }

  /** The migration that the question `k0` has led to, to the stream answered; one that finds no room keeps to the limits. */
  ghost predicate Migrated(p: Policies, capacity: Pair<nat>, v: State, room: State, w: State, n: Id, prefix: set<Id>,
                           path: seq<State>, k0: nat, k1: nat, relocated: bool) {
    && n in v.store && var stream := Migration(p, k0, n, v.store[n].tier);
    && stream.Some? && MigrationDone(p, capacity, v, room, w, n, stream.value, prefix, path, k0 + 1, relocated)
    && Kept(v, w, n, relocated)
    && (!relocated ==> Limited(p, capacity, v, w, k0, k1))
  }

  /** What a storage hit comes to: the block is read where it was, and migrated first if the policy asks for it; otherwise
      nothing else happens. */
  ghost predicate ServedFrom(p: Policies, capacity: Pair<nat>, v: State, w: State, n: Id, prefix: set<Id>, k0: nat, k1: nat) {
    && k0 < k1 && n in v.store && n in w.store && HitLogged(v, w, n) && w.active == v.active && w.memory == v.memory
    && if Migration(p, k0, n, v.store[n].tier).None? then w.tree == v.tree && w.store == v.store && w.tiers == v.tiers
       else exists room, path, relocated :: Migrated(p, capacity, v, room, w, n, prefix, path, k0, k1, relocated)
  }

  // ---- Accesses ----

  /** What an access comes to: a memory hit changes nothing, a storage hit is served and its block enters memory if the
      policy admits it, and a missing block enters memory. */
  ghost predicate AccessDone(p: Policies, capacity: Pair<nat>, blocks: nat, v: State, w: State, n: Id, prefix: set<Id>,
                             result: AccessResult, k0: nat, k1: nat, j: nat, next: nat) {
    && result == FirstResult(v, n) && (n in w.memory || n in w.store)
    && next == (if result.StorageHitIn? then j + 1 else j)
    && match result
       case MemoryHit => w == v && k1 == k0
       case StorageHitIn(_) => exists u, k :: ServedThen(p, capacity, blocks, v, u, w, n, prefix, k0, k, k1, p.admit(j))
       case GlobalMiss => Entered(p, capacity, blocks, v, w, n, prefix, k0, k1)
  }

  ghost predicate ServedThen(p: Policies, capacity: Pair<nat>, blocks: nat, v: State, u: State, w: State, n: Id, prefix: set<Id>,
                             k0: nat, k: nat, k1: nat, admit: bool) {
    && ServedFrom(p, capacity, v, u, n, prefix, k0, k)
    && if admit then Entered(p, capacity, blocks, u, w, n, prefix, k, k1) else w == u && k1 == k
  }

  lemma HitDone(p: Policies, capacity: Pair<nat>, blocks: nat, v: State, n: Id, prefix: set<Id>, k: nat, j: nat)
    requires n in v.memory
    ensures AccessDone(p, capacity, blocks, v, v, n, prefix, MemoryHit, k, k, j, j) == true
  {}

  lemma ServedDone(p: Policies, capacity: Pair<nat>, blocks: nat, v: State, u: State, w: State, n: Id, prefix: set<Id>,
                   k0: nat, k: nat, k1: nat, j: nat, next: nat)
    requires next == j + 1 && n !in v.memory && n in v.store && ServedThen(p, capacity, blocks, v, u, w, n, prefix, k0,
             k, k1, p.admit(j)) == true
    requires n in w.memory || n in w.store
    ensures AccessDone(p, capacity, blocks, v, w, n, prefix, StorageHitIn(v.store[n].tier), k0, k1, j, next) == true
  {}

  lemma MissDone(p: Policies, capacity: Pair<nat>, blocks: nat, v: State, w: State, n: Id, prefix: set<Id>, k0: nat,
      k1: nat, j: nat)
    requires n !in v.memory && n !in v.store && n in w.memory && Entered(p, capacity, blocks, v, w, n, prefix, k0, k1) == true
    ensures AccessDone(p, capacity, blocks, v, w, n, prefix, GlobalMiss, k0, k1, j, j) == true
  {}

  /** An access without a migration keeps to the limits. */
  lemma AccessLimited(p: Policies, capacity: Pair<nat>, blocks: nat, v: State, w: State, n: Id, prefix: set<Id>,
                      result: AccessResult, k0: nat, k1: nat, j: nat, next: nat)
    requires AccessDone(p, capacity, blocks, v, w, n, prefix, result, k0, k1, j, next)
    requires result.StorageHitIn? ==> Migration(p, k0, n, result.tier).None?
    ensures Limited(p, capacity, v, w, k0, k1) == true
  {
    match result
    case MemoryHit => LimitedSame(p, capacity, v, w, k0, k1);
    case GlobalMiss => EnteredLimited(p, capacity, blocks, v, w, n, prefix, k0, k1);
    case StorageHitIn(_) =>
      var u, k :| ServedThen(p, capacity, blocks, v, u, w, n, prefix, k0, k, k1, p.admit(j));
      LimitedSame(p, capacity, v, u, k0, k);
      AdmissionLimited(p, capacity, blocks, v, u, w, n, prefix, k0, k, k1, p.admit(j));
  }

  lemma AdmissionLimited(p: Policies, capacity: Pair<nat>, blocks: nat, v: State, u: State, w: State, n: Id, prefix: set<Id>,
                         k0: nat, k: nat, k1: nat, admit: bool)
    requires Limited(p, capacity, v, u, k0, k) == true
    requires if admit then Entered(p, capacity, blocks, u, w, n, prefix, k, k1) else w == u && k1 == k
    ensures Limited(p, capacity, v, w, k0, k1) == true && Limited(p, capacity, u, w, k, k1) == true
  {
    if admit { EnteredLimited(p, capacity, blocks, u, w, n, prefix, k, k1); } else { LimitedSame(p, capacity, u, w, k, k1); }
    LimitedThrough(p, capacity, v, u, w, k0, k, k1);
  }

  /** SLC never comes to use more than its capacity, and TLC only in an access whose block is hit in SLC, for which the
      policy asks for a migration, room has to be made, and an ancestor can join the segment. */
  lemma ExceedsOnlyByMigration(p: Policies, capacity: Pair<nat>, blocks: nat, v: State, w: State, n: Id, prefix: set<Id>,
                               result: AccessResult, k0: nat, k1: nat, j: nat, next: nat)
    requires AccessDone(p, capacity, blocks, v, w, n, prefix, result, k0, k1, j, next)
    requires Peak(v, Tlc) <= capacity.tlc < Peak(w, Tlc) && Grown(v.tree) && n in v.tree.parent
    ensures n !in v.memory && n in v.store && v.store[n].tier.Slc? && p.migrate(k0, n).Some?
    ensures Used(v, Tlc) + Sized(v.tree, v.store, Leaf(v.tree, n)) > LimitOf(p, capacity, k0 + 1, Tlc)
    ensures exists a :: MayJoin(v, Leaf(v.tree, n), a, Shield(v, n, prefix))
  {
    if !(result.StorageHitIn? && Migration(p, k0, n, result.tier).Some?) {
      AccessLimited(p, capacity, blocks, v, w, n, prefix, result, k0, k1, j, next);
      LimitedBound(p, capacity, v, w, k0, k1, Tlc);
    } else {
      var u, k :| ServedThen(p, capacity, blocks, v, u, w, n, prefix, k0, k, k1, p.admit(j));
      AfterServing(p, capacity, blocks, u, w, n, prefix, k, k1, p.admit(j));
      ServedExceeds(p, capacity, v, u, n, prefix, k0, k);
    }
  }

  lemma AfterServing(p: Policies, capacity: Pair<nat>, blocks: nat, u: State, w: State, n: Id, prefix: set<Id>, k: nat,
      k1: nat, admit: bool)
    requires if admit then Entered(p, capacity, blocks, u, w, n, prefix, k, k1) else w == u && k1 == k
    ensures Peak(w, Tlc) > capacity.tlc <==> Peak(u, Tlc) > capacity.tlc
  {
    LimitedSame(p, capacity, u, u, k, k);
    AdmissionLimited(p, capacity, blocks, u, u, w, n, prefix, k, k, k1, admit);
    LimitedBound(p, capacity, u, w, k, k1, Tlc);
  }

  lemma ServedExceeds(p: Policies, capacity: Pair<nat>, v: State, w: State, n: Id, prefix: set<Id>, k0: nat, k1: nat)
    requires ServedFrom(p, capacity, v, w, n, prefix, k0, k1) && Migration(p, k0, n, v.store[n].tier).Some?
    requires Peak(v, Tlc) <= capacity.tlc < Peak(w, Tlc) && Grown(v.tree) && n in v.tree.parent
    ensures Used(v, Tlc) + Sized(v.tree, v.store, Leaf(v.tree, n)) > LimitOf(p, capacity, k0 + 1, Tlc)
    ensures exists a :: MayJoin(v, Leaf(v.tree, n), a, Shield(v, n, prefix))
  {
    var room, path, relocated :| Migrated(p, capacity, v, room, w, n, prefix, path, k0, k1, relocated);
    MigrationExceeds(p, capacity, v, room, w, n, Migration(p, k0, n, v.store[n].tier).value, prefix, path, k0 + 1,
            relocated);
    MigrationOverrunNeeds(p, capacity, v, room, w, n, Migration(p, k0, n, v.store[n].tier).value, prefix, path,
            k0 + 1, relocated);
  }

  // ---- Requests ----

  /** From `a` to `b` there was one access to `n`. */
  ghost predicate AccessBetween(p: Policies, capacity: Pair<nat>, blocks: nat, a: Point, b: Point, n: Id, prefix: set<Id>,
                                result: AccessResult) {
    AccessDone(p, capacity, blocks, a.state.(active := Some(n)), b.state.(active := Some(n)), n, prefix, result, a.asked, b.asked,
               a.admissions, b.admissions)
  }

  lemma Between(p: Policies, capacity: Pair<nat>, blocks: nat, a: Point, v: State, w: State, b: Point, n: Id, prefix: set<Id>,
                result: AccessResult)
    requires AccessDone(p, capacity, blocks, v, w, n, prefix, result, a.asked, b.asked, a.admissions, b.admissions) == true
    requires v == a.state.(active := Some(n)) && b.state == w.(active := b.state.active) && w.active == Some(n)
    ensures AccessBetween(p, capacity, blocks, a, b, n, prefix, result) == true && result == FirstResult(a.state, n)
  {
    assert w == b.state.(active := Some(n));
  }

  /** The tree once the node of a hash is there: an existing one whatever the parent, or a new one below the parent. */
  function WithNode(t: Tree, n: Id, parent: Option<Id>): Tree { if n in t.parent then t else Add(t, n, parent) }

  /** From `a` to `b` one block of a request was accessed, for which its node was found or created. */
  ghost predicate Requested(p: Policies, capacity: Pair<nat>, blocks: nat, a: Point, b: Point, n: Id, parent: Option<Id>,
                            prefix: set<Id>, result: AccessResult) {
    AccessBetween(p, capacity, blocks, a.(state := a.state.(tree := WithNode(a.state.tree, n, parent))), b, n, prefix, result)
  }

  lemma RequestedVia(p: Policies, capacity: Pair<nat>, blocks: nat, a: Point, m: Point, b: Point, n: Id, parent: Option<Id>,
                     prefix: set<Id>, result: AccessResult)
    requires m == a.(state := a.state.(tree := WithNode(a.state.tree, n, parent)))
    requires AccessBetween(p, capacity, blocks, m, b, n, prefix, result) == true
    ensures Requested(p, capacity, blocks, a, b, n, parent, prefix, result) == true
  {}

  /** The block above another in a request. */
  function Above(hashes: seq<Id>, i: nat): Option<Id>
    requires i < |hashes|
  {
    if i == 0 then None else Some(hashes[i - 1])
  }

  /** Block `i` of a request lies in the tree right below the one before and holds a copy. */
  predicate OnPath(t: Tree, memory: set<Id>, store: map<Id, Location>, hashes: seq<Id>, i: nat)
    requires i < |hashes|
  {
    var n := hashes[i];
    n in t.parent && t.parent[n] == Above(hashes, i) && (n in memory || n in store)
  }

  /** The longest prefix of a request that is a path of nodes with copies. */
  ghost predicate ProtectedBy(v: State, hashes: seq<Id>, prefix: seq<Id>) {
    && prefix <= hashes && (forall i | 0 <= i < |prefix| :: OnPath(v.tree, v.memory, v.store, hashes, i))
    && (|prefix| < |hashes| ==> !OnPath(v.tree, v.memory, v.store, hashes, |prefix|))
  }

  ghost predicate AnsweredAt(p: Policies, capacity: Pair<nat>, blocks: nat, points: seq<Point>, hashes: seq<Id>, prefix: set<Id>,
                             results: seq<AccessResult>, i: nat) {
    && i < |results| && i + 1 < |points| && i < |hashes|
    && Requested(p, capacity, blocks, points[i], points[i + 1], hashes[i], Above(hashes, i), prefix, results[i])
  }

  /** The blocks of a request have been accessed one after another, as far as there are results. */
  ghost predicate Answered(p: Policies, capacity: Pair<nat>, blocks: nat, points: seq<Point>, hashes: seq<Id>, prefix: set<Id>,
                           results: seq<AccessResult>) {
    && |points| == |results| + 1 && |results| <= |hashes|
    && forall i | 0 <= i < |results| :: AnsweredAt(p, capacity, blocks, points, hashes, prefix, results, i)
  }

  lemma AnsweredSame(p: Policies, capacity: Pair<nat>, blocks: nat, points: seq<Point>, longer: seq<Point>, hashes: seq<Id>,
                     prefix: set<Id>, results: seq<AccessResult>, more: seq<AccessResult>, h: nat)
    requires Answered(p, capacity, blocks, points, hashes, prefix, results) == true && h < |results|
    requires points <= longer && results <= more
    ensures AnsweredAt(p, capacity, blocks, longer, hashes, prefix, more, h) == true
  {
    assert AnsweredAt(p, capacity, blocks, points, hashes, prefix, results, h);
    assert longer[h] == points[h] && longer[h + 1] == points[h + 1] && more[h] == results[h];
  }

  lemma AnsweredLast(p: Policies, capacity: Pair<nat>, blocks: nat, points: seq<Point>, hashes: seq<Id>, prefix: set<Id>,
                     results: seq<AccessResult>, a: Point, b: Point, i: nat, result: AccessResult)
    requires i < |results| && i + 1 < |points| && i < |hashes| && points[i] == a && points[i + 1] == b && results[i] == result
    requires Requested(p, capacity, blocks, a, b, hashes[i], Above(hashes, i), prefix, result) == true
    ensures AnsweredAt(p, capacity, blocks, points, hashes, prefix, results, i) == true
  {}

  lemma AnsweredNext(p: Policies, capacity: Pair<nat>, blocks: nat, points: seq<Point>, hashes: seq<Id>, prefix: set<Id>,
                     results: seq<AccessResult>, a: Point, b: Point, i: nat, result: AccessResult)
    requires Answered(p, capacity, blocks, points, hashes, prefix, results) == true && i == |results| < |hashes| && a == points[i]
    requires Requested(p, capacity, blocks, a, b, hashes[i], Above(hashes, i), prefix, result) == true
    ensures Answered(p, capacity, blocks, points + [b], hashes, prefix, results + [result]) == true
  {
    var longer, more := points + [b], results + [result];
    forall h | 0 <= h < |more| ensures AnsweredAt(p, capacity, blocks, longer, hashes, prefix, more, h) == true {
      if h < i {
        AnsweredSame(p, capacity, blocks, points, longer, hashes, prefix, results, more, h);
      } else {
        assert h == i;
        AnsweredLast(p, capacity, blocks, longer, hashes, prefix, more, a, b, h, result);
      }
    }
  }

  // ---- Runs ----

  /** What a simulator is run on: requests and background ticks. */
  datatype Step = Request(hashes: seq<Id>) | Tick

  /** From `a` to `b` a whole request was answered, with the longest path of nodes with copies protected. */
  ghost predicate RequestDone(p: Policies, capacity: Pair<nat>, blocks: nat, a: Point, b: Point, hashes: seq<Id>,
                              points: seq<Point>, protected: seq<Id>, results: seq<AccessResult>) {
    && |results| == |hashes| && Answered(p, capacity, blocks, points, hashes, Elems(protected), results)
    && points[0] == a && points[|hashes|] == b && ProtectedBy(a.state, hashes, protected)
  }

  ghost predicate StepDone(p: Policies, capacity: Pair<nat>, blocks: nat, a: Point, b: Point, step: Step) {
    match step
    case Request(hashes) =>
      exists points, protected, results :: RequestDone(p, capacity, blocks, a, b, hashes, points, protected, results)
    case Tick => Ticked(p, capacity, a, b)
  }

  lemma RequestTaken(p: Policies, capacity: Pair<nat>, blocks: nat, a: Point, b: Point, hashes: seq<Id>, points: seq<Point>,
                     protected: seq<Id>, results: seq<AccessResult>)
    requires |results| == |hashes| && Answered(p, capacity, blocks, points, hashes, Elems(protected), results) == true
    requires points[0] == a && points[|hashes|] == b && ProtectedBy(a.state, hashes, protected) == true
    ensures StepDone(p, capacity, blocks, a, b, Request(hashes)) == true
  {
    assert RequestDone(p, capacity, blocks, a, b, hashes, points, protected, results);
  }

  ghost predicate StepAt(p: Policies, capacity: Pair<nat>, blocks: nat, trail: seq<Point>, steps: seq<Step>, i: nat) {
    i < |steps| && i + 1 < |trail| && StepDone(p, capacity, blocks, trail[i], trail[i + 1], steps[i])
  }

  /** The first `i` steps of a run have been taken, one after another. */
  ghost predicate RunSoFar(p: Policies, capacity: Pair<nat>, blocks: nat, trail: seq<Point>, steps: seq<Step>, i: nat) {
    && |trail| == i + 1 && i <= |steps|
    && forall h | 0 <= h < i :: StepAt(p, capacity, blocks, trail, steps, h)
  }

  lemma RunStarts(p: Policies, capacity: Pair<nat>, blocks: nat, a: Point, steps: seq<Step>)
    ensures RunSoFar(p, capacity, blocks, [a], steps, 0) == true
  {}

  lemma RunOn(p: Policies, capacity: Pair<nat>, blocks: nat, trail: seq<Point>, steps: seq<Step>, i: nat, b: Point)
    requires RunSoFar(p, capacity, blocks, trail, steps, i) == true && i < |steps|
    requires StepDone(p, capacity, blocks, trail[i], b, steps[i]) == true
    ensures RunSoFar(p, capacity, blocks, trail + [b], steps, i + 1) == true
  {
    var longer := trail + [b];
    forall h | 0 <= h < i + 1 ensures StepAt(p, capacity, blocks, longer, steps, h) == true {
      if h < i { assert StepAt(p, capacity, blocks, trail, steps, h); }
    }
  }

  /** Policies that never ask for an access migration. */
  ghost predicate Still(p: Policies) { forall k, n :: p.migrate(k, n).None? }

  lemma RequestedLimited(p: Policies, capacity: Pair<nat>, blocks: nat, a: Point, b: Point, n: Id, parent: Option<Id>,
                         prefix: set<Id>, result: AccessResult)
    requires Requested(p, capacity, blocks, a, b, n, parent, prefix, result) && Still(p)
    ensures Limited(p, capacity, a.state, b.state, a.asked, b.asked) == true
  {
    var v := a.state.(tree := WithNode(a.state.tree, n, parent), active := Some(n));
    var w := b.state.(active := Some(n));
    AccessLimited(p, capacity, blocks, v, w, n, prefix, result, a.asked, b.asked, a.admissions, b.admissions);
    LimitedSame(p, capacity, a.state, v, a.asked, a.asked);
    LimitedSame(p, capacity, w, b.state, b.asked, b.asked);
    LimitedThrough(p, capacity, a.state, v, w, a.asked, a.asked, b.asked);
    LimitedThrough(p, capacity, a.state, w, b.state, a.asked, b.asked, b.asked);
  }

  /** Without migrations a request keeps to the limits. */
  lemma {:induction false} AnsweredLimited(p: Policies, capacity: Pair<nat>, blocks: nat, points: seq<Point>, hashes: seq<Id>,
                                           prefix: set<Id>, results: seq<AccessResult>, i: nat)
    requires Answered(p, capacity, blocks, points, hashes, prefix, results) && Still(p) && i <= |results|
    ensures Limited(p, capacity, points[0].state, points[i].state, points[0].asked, points[i].asked) == true
  {
    if i == 0 {
      LimitedSame(p, capacity, points[0].state, points[0].state, points[0].asked, points[0].asked);
    } else {
      AnsweredLimited(p, capacity, blocks, points, hashes, prefix, results, i - 1);
      assert AnsweredAt(p, capacity, blocks, points, hashes, prefix, results, i - 1);
      OneMoreLimited(p, capacity, blocks, points[0], points[i - 1], points[i], hashes[i - 1], Above(hashes, i - 1),
          prefix, results[i - 1]);
    }
  }

  lemma OneMoreLimited(p: Policies, capacity: Pair<nat>, blocks: nat, start: Point, a: Point, b: Point, n: Id, parent: Option<Id>,
                       prefix: set<Id>, result: AccessResult)
    requires Limited(p, capacity, start.state, a.state, start.asked, a.asked) == true && Still(p) == true
    requires Requested(p, capacity, blocks, a, b, n, parent, prefix, result) == true
    ensures Limited(p, capacity, start.state, b.state, start.asked, b.asked) == true
  {
    RequestedLimited(p, capacity, blocks, a, b, n, parent, prefix, result);
    LimitedThrough(p, capacity, start.state, a.state, b.state, start.asked, a.asked, b.asked);
  }
}
