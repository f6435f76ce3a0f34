/**
 What the policies' answers come to, one question after another: relocations, making room in a tier, dumps, and the
 turns of a background tick.
 */
module SimulatorTurns {
  import opened Prelude
  import opened Tiers
  import opened Forest
  import opened Trace
  import opened SimulatorSteps
  import opened SimulatorState
  import opened SimulatorMoves
  import opened SimulatorReclaim
  import opened SimulatorRoom

  /** A state with the numbers of the next question to the policies, of the next one on admission, and of the next
      relocation. */
  datatype Point = Point(state: State, asked: nat, admissions: nat, move: nat)

  // ---- Relocations ----

  /** Room is made in TLC under the limit answered to `k0`, which leads to `room`; if that went well, the blocks are moved
      there. */
  ghost predicate MovedVia(p: Policies, capacity: Pair<nat>, v: State, room: State, w: State, m: nat, nodes: seq<Id>,
                           stream: nat, reason: Reason, combined: set<Id>, path: seq<State>, k0: nat, done: bool) {
    && RoomMade(p, v, room, path, k0 + 1, |nodes|, LimitOf(p, capacity, k0, Tlc), combined, done)
    && if done then MovedBlocks(room, w, m, nodes, stream, reason) else w == room
  }

  /** What a relocation comes to: with nothing to move, nothing; otherwise the blocks are moved if room can be made, with
      the nodes of `combined` out of bounds, and at once if they fit. If it is done, TLC is within the limit answered and
      SLC has lost the blocks. */
  ghost predicate BlocksRelocated(p: Policies, capacity: Pair<nat>, v: State, w: State, m: nat, nodes: seq<Id>, stream: nat,
                                  reason: Reason, shielded: set<Id>, combined: set<Id>, k0: nat, k1: nat, done: bool) {
    && Relocated(p, capacity, v, w, shielded, k0, k1, if done then |nodes| else 0)
    && (nodes == [] ==> !done && w == v)
    && (nodes != [] && Fits(p, capacity, v, k0, Tlc, |nodes|) ==> done && MovedBlocks(v, w, m, nodes, stream, reason))
    && (done ==> nodes != [] && Used(w, Tlc) <= LimitOf(p, capacity, k0, Tlc))
    && (nodes != [] ==> exists room, path :: MovedVia(p, capacity, v, room, w, m, nodes, stream, reason, combined,
            path, k0, done))
  }

  /** The relocation of the SLC blocks of a segment, all of whose nodes are out of bounds while room is made. */
  ghost predicate RelocationDone(p: Policies, capacity: Pair<nat>, v: State, w: State, m: nat, e: Id, stream: nat,
                                 reason: Reason, shielded: set<Id>, k0: nat, k1: nat, done: bool) {
    && Grown(v.tree) && e in v.tree.parent
    && BlocksRelocated(p, capacity, v, w, m, Residents(v.tree, v.store, e, Slc), stream, reason, shielded,
                       shielded + Elems(Segment(v.tree, e)), k0, k1, done)
  }

  lemma NothingToMove(p: Policies, capacity: Pair<nat>, v: State, m: nat, e: Id, stream: nat, reason: Reason,
                      shielded: set<Id>, k: nat)
    requires Sound(v) && e in v.tree.parent && Residents(v.tree, v.store, e, Slc) == []
    ensures RelocationDone(p, capacity, v, v, m, e, stream, reason, shielded, k, k, false) == true
  {
    RelocatedSame(p, capacity, v, shielded, k, k);
  }

  // ---- One answer under pressure ----

  /** Without a proposal nothing happens; a proposed trim is carried out, and so is a proposed relocation if its blocks fit
      or room can be made for them. Only a relocation asks further questions. */
  ghost predicate Obeyed(p: Policies, capacity: Pair<nat>, v: State, w: State, m: nat, action: Option<Action>, tier: Tier,
                         shielded: set<Id>, k0: nat, k1: nat, done: bool) {
    match action
    case None => !done && w == v && k1 == k0
    case Some(TrimSegment(e, _)) =>
      && done && k1 == k0 && Grown(v.tree) && e in v.tree.parent && SegmentTrimmed(v, w, e, tier, CapacityEviction)
    case Some(MoveSegment(e, stream)) => RelocationDone(p, capacity, v, w, m, e, stream, CapacityEviction, shielded,
            k0, k1, done)
  }

  /** From `a` to `b` the policy was asked what to reclaim, and its answer was carried out. */
  ghost predicate StepTaken(p: Policies, capacity: Pair<nat>, a: Point, b: Point, tier: Tier, shielded: set<Id>,
                      done: bool) {
    && Grown(a.state.tree) && a.asked < b.asked
    && Obeyed(p, capacity, a.state, b.state, a.move, Proposed(p, a.asked, a.state.tree, a.state.store, tier,
            shielded), tier,
              shielded, a.asked + 1, b.asked, done)
  }

  lemma StepMade(p: Policies, capacity: Pair<nat>, a: Point, b: Point, action: Option<Action>, tier: Tier,
                 shielded: set<Id>, k: nat, done: bool)
    requires Grown(a.state.tree) && action == Proposed(p, a.asked, a.state.tree, a.state.store, tier, shielded)
    requires Obeyed(p, capacity, a.state, b.state, a.move, action, tier, shielded, k, b.asked, done) == true
    requires k == a.asked + 1 && k <= b.asked
    ensures StepTaken(p, capacity, a, b, tier, shielded, done) == true
  {}

  // ---- Making room ----

  /** Step `i`: the blocks do not fit yet, and what the policy asks for is carried out. */
  ghost predicate ClearStep(p: Policies, capacity: Pair<nat>, trail: seq<Point>, required: nat, limit: nat,
                      shielded: set<Id>, i: nat) {
    i + 1 < |trail| && Used(trail[i].state, Slc) + required > limit && StepTaken(p, capacity, trail[i], trail[i + 1],
            Slc, shielded, true)
  }

  ghost predicate ClearTrail(p: Policies, capacity: Pair<nat>, trail: seq<Point>, required: nat, limit: nat,
                      shielded: set<Id>) {
    trail != [] && forall i | 0 <= i < |trail| - 1 :: ClearStep(p, capacity, trail, required, limit, shielded, i)
  }

  /** As long as the blocks did not fit SLC, the policy's answers were carried out one after another, from `a` to `b`. */
  ghost predicate Clearing(p: Policies, capacity: Pair<nat>, a: Point, b: Point, required: nat, limit: nat,
                      shielded: set<Id>) {
    exists trail :: ClearTrail(p, capacity, trail, required, limit, shielded) && trail[0] == a && trail[|trail| - 1] == b
  }

  lemma ClearingNone(p: Policies, capacity: Pair<nat>, a: Point, required: nat, limit: nat, shielded: set<Id>)
    ensures Clearing(p, capacity, a, a, required, limit, shielded) == true
  {
    assert ClearTrail(p, capacity, [a], required, limit, shielded);
  }

  lemma ClearingOn(p: Policies, capacity: Pair<nat>, a: Point, b: Point, c: Point, required: nat, limit: nat,
                   shielded: set<Id>)
    requires Clearing(p, capacity, a, b, required, limit, shielded) == true && Used(b.state, Slc) + required > limit
    requires StepTaken(p, capacity, b, c, Slc, shielded, true) == true
    ensures Clearing(p, capacity, a, c, required, limit, shielded) == true
  {
    var trail :| ClearTrail(p, capacity, trail, required, limit, shielded) && trail[0] == a && trail[|trail| - 1] == b;
    OneMoreStep(p, capacity, trail, c, required, limit, shielded);
  }

  lemma OneMoreStep(p: Policies, capacity: Pair<nat>, trail: seq<Point>, c: Point, required: nat, limit: nat,
                    shielded: set<Id>)
    requires ClearTrail(p, capacity, trail, required, limit, shielded)
    requires Used(trail[|trail| - 1].state, Slc) + required > limit
    requires StepTaken(p, capacity, trail[|trail| - 1], c, Slc, shielded, true) == true
    ensures ClearTrail(p, capacity, trail + [c], required, limit, shielded) == true
  {
    var longer := trail + [c];
    forall i | 0 <= i < |longer| - 1 ensures ClearStep(p, capacity, longer, required, limit, shielded, i) == true {
      if i < |trail| - 1 { assert ClearStep(p, capacity, trail, required, limit, shielded, i); }
    }
  }

  /** The policy has no more to offer, or the relocation that it asks for is not done. */
  ghost predicate GivenUp(p: Policies, capacity: Pair<nat>, a: Point, b: Point, required: nat, limit: nat,
                      shielded: set<Id>) {
    exists c :: Clearing(p, capacity, a, c, required, limit, shielded) && Used(c.state, Slc) + required > limit
                && StepTaken(p, capacity, c, b, Slc, shielded, false)
  }

  /** Room has been asked for in SLC: the policy's answers were carried out until the blocks fitted or an answer was not
      done; a demand above the limit is refused at once. */
  ghost predicate SlcCleared(p: Policies, capacity: Pair<nat>, a: Point, b: Point, required: nat, limit: nat,
                             shielded: set<Id>, ok: bool) {
    if required > limit then !ok && b == a
    else if ok then Clearing(p, capacity, a, b, required, limit, shielded) && Used(b.state, Slc) + required <= limit
    else GivenUp(p, capacity, a, b, required, limit, shielded)
  }

  /** Room has been asked for in a tier; for TLC, where every answer is one trim, `path` tells the states. */
  ghost predicate Cleared(p: Policies, capacity: Pair<nat>, a: Point, b: Point, tier: Tier, required: nat, limit: nat,
                          shielded: set<Id>, path: seq<State>, ok: bool) {
    if tier.Slc? then SlcCleared(p, capacity, a, b, required, limit, shielded, ok)
    else RoomMade(p, a.state, b.state, path, a.asked, required, limit, shielded, ok)
  }

  /** The same from the question about the limit on. */
  ghost predicate Ensured(p: Policies, capacity: Pair<nat>, a: Point, b: Point, tier: Tier, required: nat,
                          shielded: set<Id>, path: seq<State>, ok: bool) {
    Cleared(p, capacity, a.(asked := a.asked + 1), b, tier, required, LimitOf(p, capacity, a.asked, tier), shielded,
            path, ok)
  }

  lemma EnsuredAfter(p: Policies, capacity: Pair<nat>, a: Point, next: Point, b: Point, tier: Tier, required: nat,
                     limit: nat, shielded: set<Id>, path: seq<State>, ok: bool)
    requires Cleared(p, capacity, next, b, tier, required, limit, shielded, path, ok) == true
    requires next == a.(asked := next.asked) && next.asked == a.asked + 1 && limit == LimitOf(p, capacity, a.asked, tier)
    ensures Ensured(p, capacity, a, b, tier, required, shielded, path, ok) == true
  {}

  lemma EnsuredRoom(p: Policies, capacity: Pair<nat>, a: Point, b: Point, required: nat, shielded: set<Id>,
                    path: seq<State>, ok: bool)
    requires Ensured(p, capacity, a, b, Tlc, required, shielded, path, ok) == true
    ensures RoomMade(p, a.state, b.state, path, a.asked + 1, required, LimitOf(p, capacity, a.asked, Tlc), shielded,
            ok) == true
  {}

  /** A demand that is refused, or that fits, at once. */
  lemma ClearedAtOnce(p: Policies, capacity: Pair<nat>, a: Point, tier: Tier, required: nat, limit: nat, shielded: set<Id>)
    requires Sound(a.state) && (required > limit || Used(a.state, tier) + required <= limit)
    ensures Cleared(p, capacity, a, a, tier, required, limit, shielded, [a.state], required <= limit) == true
  {
    if tier.Slc? {
      ClearingNone(p, capacity, a, required, limit, shielded);
    } else {
      RefusedOrFits(p, a.state, a.asked, required, limit, shielded);
    }
  }

  /** The steps so far. */
  ghost predicate Progress(p: Policies, capacity: Pair<nat>, a: Point, b: Point, tier: Tier, required: nat, limit: nat,
                           shielded: set<Id>, path: seq<State>) {
    if tier.Slc? then Clearing(p, capacity, a, b, required, limit, shielded)
    else Stepped(p, a.state, b.state, required, limit, shielded, path, a.asked, b.asked)
  }

  lemma NoProgress(p: Policies, capacity: Pair<nat>, a: Point, tier: Tier, required: nat, limit: nat, shielded: set<Id>)
    requires Sound(a.state) == true
    ensures Progress(p, capacity, a, a, tier, required, limit, shielded, [a.state]) == true
  {
    if tier.Slc? {
      ClearingNone(p, capacity, a, required, limit, shielded);
    } else {
      NoTrims(p, a.state, a.asked, required, limit, shielded);
    }
  }

  lemma ProgressEnds(p: Policies, capacity: Pair<nat>, a: Point, b: Point, tier: Tier, required: nat, limit: nat,
                     shielded: set<Id>, path: seq<State>)
    requires Progress(p, capacity, a, b, tier, required, limit, shielded, path) == true && Used(b.state,
            tier) + required <= limit
    requires Sound(b.state) == true
    ensures Cleared(p, capacity, a, b, tier, required, limit, shielded, path, true) == true
  {
    UsedBounds(b.state, tier);
  }

  function Longer(path: seq<State>, w: State, tier: Tier, done: bool): seq<State> {
    if tier.Tlc? && done then path + [w] else path
  }

  /** The next step, or the end of trying. */
  lemma ProgressOn(p: Policies, capacity: Pair<nat>, a: Point, b: Point, c: Point, tier: Tier, required: nat, limit: nat,
                   shielded: set<Id>, path: seq<State>, done: bool)
    requires Progress(p, capacity, a, b, tier, required, limit, shielded, path) == true
    requires Sound(b.state) == true && Sound(c.state) == true && Used(b.state, tier) + required > limit >= required
    requires StepTaken(p, capacity, b, c, tier, shielded, done) == true
    ensures done ==> Progress(p, capacity, a, c, tier, required, limit, shielded, Longer(path, c.state, tier, done)) == true
    ensures !done ==>
              Cleared(p, capacity, a, c, tier, required, limit, shielded, Longer(path, c.state, tier, done), false) == true
  {
    if tier.Tlc? {
      TrimStep(p, capacity, b, c, shielded, done);
      SteppedOn(p, a.state, b.state, c.state, required, limit, shielded, path, a.asked, b.asked, done);
    } else if done {
      ClearingOn(p, capacity, a, b, c, required, limit, shielded);
    }
  }

  /** A step in TLC asks one question. */
  lemma TrimStep(p: Policies, capacity: Pair<nat>, b: Point, c: Point, shielded: set<Id>, done: bool)
    requires StepTaken(p, capacity, b, c, Tlc, shielded, done) == true
    ensures c.asked == b.asked + 1 && Grown(b.state.tree)
    ensures TrimObeyed(b.state, c.state, Proposed(p, b.asked, b.state.tree, b.state.store, Tlc, shielded), done) == true
  {}

  // ---- Relocations, once room has been asked for ----

  lemma MoveMade(p: Policies, capacity: Pair<nat>, a: Point, room: Point, u: State, m: nat, nodes: seq<Id>, stream: nat,
                 reason: Reason, shielded: set<Id>, combined: set<Id>, path: seq<State>)
    requires Eased(p, capacity, a.state, room.state, Tlc, combined, a.asked, room.asked) == true && a.asked < room.asked
    requires Secured(a.state, room.state, LimitOf(p, capacity, a.asked, Tlc), Tlc, |nodes|, true) == true && nodes != []
    requires Ensured(p, capacity, a, room, Tlc, |nodes|, combined, path, true) == true
    requires MovedBlocks(room.state, u, m, nodes, stream, reason) == true
    requires shielded <= combined && Elems(nodes) !! shielded
    ensures BlocksRelocated(p, capacity, a.state, u, m, nodes, stream, reason, shielded, combined, a.asked,
            room.asked, true) == true
  {
    RelocatedMove(p, capacity, a.state, room.state, u, m, nodes, stream, reason, shielded, combined, a.asked, room.asked);
    EnsuredRoom(p, capacity, a, room, |nodes|, combined, path, true);
    assert MovedVia(p, capacity, a.state, room.state, u, m, nodes, stream, reason, combined, path, a.asked, true);
  }

  lemma MoveRefused(p: Policies, capacity: Pair<nat>, a: Point, room: Point, m: nat, nodes: seq<Id>, stream: nat,
                    reason: Reason, shielded: set<Id>, combined: set<Id>, path: seq<State>)
    requires Eased(p, capacity, a.state, room.state, Tlc, combined, a.asked,
            room.asked) == true && Sound(room.state) == true
    requires Secured(a.state, room.state, LimitOf(p, capacity, a.asked, Tlc), Tlc, |nodes|, false) == true && nodes != []
    requires Ensured(p, capacity, a, room, Tlc, |nodes|, combined, path, false) == true && shielded <= combined
    ensures BlocksRelocated(p, capacity, a.state, room.state, m, nodes, stream, reason, shielded, combined, a.asked,
            room.asked, false)
            == true
  {
    RelocatedNot(p, capacity, a.state, room.state, shielded, combined, a.asked, room.asked);
    EnsuredRoom(p, capacity, a, room, |nodes|, combined, path, false);
    assert MovedVia(p, capacity, a.state, room.state, room.state, m, nodes, stream, reason, combined, path, a.asked, false);
  }

  // ---- Dumps ----

  /** Room is asked for, which leads to `room`; if there is room exactly these blocks are written to it. */
  ghost predicate DumpVia(p: Policies, capacity: Pair<nat>, a: Point, room: Point, b: Point, writes: seq<Id>,
                          place: (Tier, nat), shielded: set<Id>, path: seq<State>, ok: bool) {
    && Ensured(p, capacity, a, room, place.0, |writes|, shielded, path, ok)
    && if ok then Dumping(room.state, b.state, writes, place.0, place.1, |writes|) else b == room
  }

  /** What a dump to a place comes to: whether or not its blocks fit at once, they are written if the policy's answers
      make the room, and not otherwise. */
  ghost predicate DumpDone(p: Policies, capacity: Pair<nat>, a: Point, b: Point, writes: seq<Id>, place: (Tier, nat),
                           shielded: set<Id>, ok: bool) {
    exists room, path :: DumpVia(p, capacity, a, room, b, writes, place, shielded, path, ok)
  }

  lemma DumpMade(p: Policies, capacity: Pair<nat>, a: Point, room: Point, b: Point, writes: seq<Id>, place: (Tier, nat),
                 shielded: set<Id>, path: seq<State>)
    requires Ensured(p, capacity, a, room, place.0, |writes|, shielded, path, true) == true
    requires Dumping(room.state, b.state, writes, place.0, place.1, |writes|) == true
    ensures DumpDone(p, capacity, a, b, writes, place, shielded, true) == true
  {
    assert DumpVia(p, capacity, a, room, b, writes, place, shielded, path, true);
  }

  lemma DumpRefused(p: Policies, capacity: Pair<nat>, a: Point, b: Point, writes: seq<Id>, place: (Tier, nat),
                    shielded: set<Id>, path: seq<State>)
    requires Ensured(p, capacity, a, b, place.0, |writes|, shielded, path, false) == true
    ensures DumpDone(p, capacity, a, b, writes, place, shielded, false) == true
  {
    assert DumpVia(p, capacity, a, b, b, writes, place, shielded, path, false);
  }

  /** Nothing has happened to storage. */
  ghost predicate SameStorage(v: State, w: State) {
    w.store == v.store && w.tiers == v.tiers && w.trace == v.trace && w.moves == v.moves && w.device == v.device
  }

  /** From `a` to `b` a dump, the place for which the policy was asked just before. */
  ghost predicate Followed(p: Policies, capacity: Pair<nat>, v: State, w: State, a: Point, b: Point, e: Id, writes: seq<Id>,
                           prefix: set<Id>, k: nat, ok: bool) {
    && a.state == v && a.asked == k + 1 && Grown(v.tree) && e in v.tree.parent
    && DumpDone(p, capacity, a, b, writes, p.place(k, writes), prefix + Elems(Segment(v.tree, e)), ok)
    && SameStorage(b.state, w)
  }

  /** Storage is as a dump of these blocks of the segment has left it, the place for which is the answer to `k`. */
  ghost predicate DumpFollows(p: Policies, capacity: Pair<nat>, v: State, w: State, e: Id, writes: seq<Id>,
                      prefix: set<Id>, k: nat) {
    exists a, b, ok :: Followed(p, capacity, v, w, a, b, e, writes, prefix, k, ok)
  }

  lemma DumpFollowed(p: Policies, capacity: Pair<nat>, v: State, w: State, a: Point, b: Point, e: Id, writes: seq<Id>,
                     prefix: set<Id>, k: nat, ok: bool)
    requires a.state == v && a.asked == k + 1 && Grown(v.tree) && e in v.tree.parent
    requires DumpDone(p, capacity, a, b, writes, p.place(k, writes), prefix + Elems(Segment(v.tree, e)), ok) == true
    requires SameStorage(b.state, w) == true
    ensures DumpFollows(p, capacity, v, w, e, writes, prefix, k) == true
  {
    assert Followed(p, capacity, v, w, a, b, e, writes, prefix, k, ok);
  }

  // ---- Background ticks ----

  /** What a storage policy asks for in the background: to trim a tier of a segment or to move it to TLC. */
  function BackgroundOf(p: Policies, k: nat, t: Tree): (action: Option<Action>)
    ensures action.Some? ==> action.value.endpoint in t.parent
  {
    var action := p.background(k);
    if action.Some? && action.value.endpoint in t.parent then action else None
  }

  /** A background trim is carried out if there is something to trim, a migration if its blocks fit the limit or room can
      be made; an action that is carried out lowers the load. */
  ghost predicate BackgroundDone(p: Policies, capacity: Pair<nat>, v: State, w: State, m: nat, action: Action,
                      k0: nat, k1: nat,
                                 done: bool) {
    && Grown(v.tree) && action.endpoint in v.tree.parent
    && Worked(p, capacity, v, w, {}, k0, k1, if done then 1 else 0)
    && match action
       case TrimSegment(e, tier) =>
         && done == (Residents(v.tree, v.store, e, tier) != [])
         && if done then SegmentTrimmed(v, w, e, tier, IdleEviction) else w == v
       case MoveSegment(e, stream) => RelocationDone(p, capacity, v, w, m, e, stream, BackgroundMigration, {}, k0, k1, done)
  }

  /** Without an action nothing happens; an action asks its questions after `k0`. */
  ghost predicate TurnDone(p: Policies, capacity: Pair<nat>, v: State, w: State, m: nat, action: Option<Action>,
                      k0: nat, k1: nat,
                           done: bool) {
    match action
    case None => !done && w == v
    case Some(a) => BackgroundDone(p, capacity, v, w, m, a, k0 + 1, k1, done)
  }

  lemma TurnTaken(p: Policies, capacity: Pair<nat>, v: State, w: State, m: nat, a: Action, k0: nat, k: nat, k1: nat,
                  done: bool)
    requires BackgroundDone(p, capacity, v, w, m, a, k, k1, done) == true && k == k0 + 1
    ensures TurnDone(p, capacity, v, w, m, Some(a), k0, k1, done) == true
  {}

  /** From `a` to `b` one turn: the policy was asked for an action, and its answer was carried out. */
  ghost predicate Turn(p: Policies, capacity: Pair<nat>, a: Point, b: Point, done: bool) {
    a.asked < b.asked && TurnDone(p, capacity, a.state, b.state, a.move, BackgroundOf(p, a.asked, a.state.tree),
            a.asked, b.asked, done)
  }

  ghost predicate TurnTrail(p: Policies, capacity: Pair<nat>, trail: seq<Point>) {
    trail != [] && forall i | 0 <= i < |trail| - 1 :: TurnAt(p, capacity, trail, i)
  }

  ghost predicate TurnAt(p: Policies, capacity: Pair<nat>, trail: seq<Point>, i: nat) {
    i + 1 < |trail| && Turn(p, capacity, trail[i], trail[i + 1], true)
  }

  /** One turn after another, in each of which an action was carried out. */
  ghost predicate Turning(p: Policies, capacity: Pair<nat>, a: Point, b: Point) {
    exists trail :: TurnTrail(p, capacity, trail) && trail[0] == a && trail[|trail| - 1] == b
  }

  /** A whole tick: actions are carried out until the policy has none or one is not done. */
  ghost predicate Ticked(p: Policies, capacity: Pair<nat>, a: Point, b: Point) {
    exists c :: Turning(p, capacity, a, c) && Turn(p, capacity, c, b, false)
  }

  lemma NoTurns(p: Policies, capacity: Pair<nat>, a: Point)
    ensures Turning(p, capacity, a, a) == true
  {
    assert TurnTrail(p, capacity, [a]);
  }

  /** A tick goes on after an action, and ends with a turn without one. */
  lemma TurnsOn(p: Policies, capacity: Pair<nat>, a: Point, b: Point, c: Point, done: bool)
    requires Turning(p, capacity, a, b) == true && Turn(p, capacity, b, c, done) == true
    ensures if done then Turning(p, capacity, a, c) == true else Ticked(p, capacity, a, c) == true
  {
    if done {
      var trail :| TurnTrail(p, capacity, trail) && trail[0] == a && trail[|trail| - 1] == b;
      OneMoreTurn(p, capacity, trail, c);
    }
  }

  lemma EarlierTurn(p: Policies, capacity: Pair<nat>, trail: seq<Point>, longer: seq<Point>, i: nat)
    requires TurnTrail(p, capacity, trail) == true && i < |trail| - 1 && trail <= longer
    ensures TurnAt(p, capacity, longer, i) == true
  {
    assert TurnAt(p, capacity, trail, i);
    assert longer[i] == trail[i] && longer[i + 1] == trail[i + 1];
  }

  lemma OneMoreTurn(p: Policies, capacity: Pair<nat>, trail: seq<Point>, c: Point)
    requires TurnTrail(p, capacity, trail) && Turn(p, capacity, trail[|trail| - 1], c, true) == true
    ensures TurnTrail(p, capacity, trail + [c]) == true
  {
    var longer, last := trail + [c], |trail| - 1;
    assert longer[last] == trail[last] && longer[last + 1] == c;
    forall i | 0 <= i < |longer| - 1 ensures TurnAt(p, capacity, longer, i) == true {
      if i < last { EarlierTurn(p, capacity, trail, longer, i); }
    }
  }
}
