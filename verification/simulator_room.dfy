/**
 Making room in TLC: which steps the policy's answers lead to, when an ancestor can join the segment of an access
 migration meanwhile, and when a policy can bring that about.
 */
module SimulatorRoom {
  import opened Prelude
  import opened Tiers
  import opened Forest
  import opened Pruning
  import opened Joining
  import opened Allocator
  import opened Trace
  import opened SimulatorSteps
  import opened SimulatorState
  import opened SimulatorMoves
  import opened SimulatorReclaim
  import opened SimulatorEviction

  /** The answers of arbitrary policies. A question has a number and says what it is about: the tree and its storage
      copies, the block hit, the blocks to be written or the blocks in memory. An answer that breaks the policies'
      contract is replaced where it is used. */
  datatype Policies = Policies(
    limit: nat -> nat, reclaim: (nat, Tree, map<Id, Location>) -> Option<Action>, background: nat -> Option<Action>,
    migrate: (nat, Id) -> Option<nat>, place: (nat, seq<Id>) -> (Tier, nat), evict: (nat, set<Id>) -> Eviction,
    admit: nat -> bool)

  /** What a storage policy may ask for under pressure on a tier: to trim that tier of a segment that has blocks
      there, or, for SLC, to move a segment to TLC; protected nodes are out of bounds. */
  predicate ReclaimOk(t: Tree, s: map<Id, Location>, action: Action, tier: Tier, shielded: set<Id>)
    requires Grown(t)
  {
    && action.endpoint in t.parent && Elems(Segment(t, action.endpoint)) !! shielded
    && match action
       case TrimSegment(e, target) => target == tier && Residents(t, s, e, tier) != []
       case MoveSegment(_, _) => tier.Slc?
  }

  function Proposed(p: Policies, k: nat, t: Tree, s: map<Id, Location>, tier: Tier, shielded: set<Id>): (action: Option<Action>)
    requires Grown(t)
    ensures action.Some? ==> ReclaimOk(t, s, action.value, tier, shielded)
  {
    var action := p.reclaim(k, t, s);
    if action.Some? && ReclaimOk(t, s, action.value, tier, shielded) then action else None
  }

  // ---- The limits of the tiers ----

  /** A policy's limit on a tier, at most its capacity. */
  function LimitOf(p: Policies, capacity: Pair<nat>, k: nat, tier: Tier): (limit: nat)
    ensures limit <= capacity.At(tier)
  {
    if p.limit(k) > capacity.At(tier) then capacity.At(tier) else p.limit(k)
  }

  /** A number has not grown, or not beyond a limit that was answered to one of the questions from `k0` to `k1`. */
  ghost predicate Low(p: Policies, capacity: Pair<nat>, tier: Tier, before: int, after: int, k0: nat, k1: nat) {
    after <= before || exists k :: k0 <= k < k1 && after <= LimitOf(p, capacity, k, tier)
  }

  /** Neither the blocks of a tier nor the most it ever held have gone beyond a limit answered meanwhile. */
  ghost predicate LimitedIn(p: Policies, capacity: Pair<nat>, v: State, w: State, tier: Tier, k0: nat, k1: nat) {
    && Peak(v, tier) <= Peak(w, tier)
    && Low(p, capacity, tier, Used(v, tier), Used(w, tier), k0, k1)
    && Low(p, capacity, tier, Peak(v, tier), Peak(w, tier), k0, k1)
  }

  ghost predicate Limited(p: Policies, capacity: Pair<nat>, v: State, w: State, k0: nat, k1: nat) {
    k0 <= k1 && forall tier :: LimitedIn(p, capacity, v, w, tier, k0, k1)
  }

  lemma LimitedSame(p: Policies, capacity: Pair<nat>, v: State, w: State, k0: nat, k1: nat)
    requires w.tiers == v.tiers && k0 <= k1
    ensures Limited(p, capacity, v, w, k0, k1)
  {}

  lemma LowThrough(p: Policies, capacity: Pair<nat>, tier: Tier, a: int, b: int, c: int, k0: nat, k1: nat, k2: nat)
    requires k0 <= k1 <= k2 && Low(p, capacity, tier, a, b, k0, k1) && Low(p, capacity, tier, b, c, k1, k2)
    ensures Low(p, capacity, tier, a, c, k0, k2)
  {
    if c > a {
      if c <= b {
        var k :| k0 <= k < k1 && b <= LimitOf(p, capacity, k, tier);
      } else {
        var k :| k1 <= k < k2 && c <= LimitOf(p, capacity, k, tier);
      }
    }
  }

  lemma LimitedThrough(p: Policies, capacity: Pair<nat>, v: State, w: State, u: State, k0: nat, k1: nat, k2: nat)
    requires Limited(p, capacity, v, w, k0, k1) && Limited(p, capacity, w, u, k1, k2)
    ensures Limited(p, capacity, v, u, k0, k2)
  {
    forall tier ensures LimitedIn(p, capacity, v, u, tier, k0, k2) {
      assert LimitedIn(p, capacity, v, w, tier, k0, k1) && LimitedIn(p, capacity, w, u, tier, k1, k2);
      LowThrough(p, capacity, tier, Used(v, tier), Used(w, tier), Used(u, tier), k0, k1, k2);
      LowThrough(p, capacity, tier, Peak(v, tier), Peak(w, tier), Peak(u, tier), k0, k1, k2);
    }
  }

  /** Two stretches under the same questions. */
  lemma LimitedAlong(p: Policies, capacity: Pair<nat>, v: State, w: State, u: State, k0: nat, k1: nat)
    requires Limited(p, capacity, v, w, k0, k1) && Limited(p, capacity, w, u, k0, k1)
    ensures Limited(p, capacity, v, u, k0, k1)
  {
    forall tier ensures LimitedIn(p, capacity, v, u, tier, k0, k1) {
      assert LimitedIn(p, capacity, v, w, tier, k0, k1) && LimitedIn(p, capacity, w, u, tier, k0, k1);
      LowAlong(p, capacity, tier, Used(v, tier), Used(w, tier), Used(u, tier), k0, k1);
      LowAlong(p, capacity, tier, Peak(v, tier), Peak(w, tier), Peak(u, tier), k0, k1);
    }
  }

  lemma LowAlong(p: Policies, capacity: Pair<nat>, tier: Tier, a: int, b: int, c: int, k0: nat, k1: nat)
    requires Low(p, capacity, tier, a, b, k0, k1) && Low(p, capacity, tier, b, c, k0, k1)
    ensures Low(p, capacity, tier, a, c, k0, k1)
  {
    if a < c <= b {
      var k :| k0 <= k < k1 && b <= LimitOf(p, capacity, k, tier);
    }
  }

  /** A question before the first. */
  lemma LimitedLater(p: Policies, capacity: Pair<nat>, v: State, w: State, k0: nat, k1: nat, k2: nat)
    requires Limited(p, capacity, v, w, k1, k2) == true && k0 <= k1
    ensures Limited(p, capacity, v, w, k0, k2) == true
  {
    LimitedSame(p, capacity, v, v, k0, k1);
    LimitedThrough(p, capacity, v, v, w, k0, k1, k2);
  }

  /** The answer `k` leaves room for so many more blocks. */
  ghost predicate Fits(p: Policies, capacity: Pair<nat>, v: State, k: nat, tier: Tier, count: nat) {
    Used(v, tier) + count <= LimitOf(p, capacity, k, tier)
  }

  lemma LimitedTrim(p: Policies, capacity: Pair<nat>, v: State, w: State, e: Id, tier: Tier, reason: Reason, k: nat)
    requires Grown(v.tree) && e in v.tree.parent && SegmentTrimmed(v, w, e, tier, reason)
    ensures Limited(p, capacity, v, w, k, k)
  {
    forall t ensures LimitedIn(p, capacity, v, w, t, k, k) { assert t == tier || t == Other(tier); }
  }

  /** A relocation that fits a limit. */
  lemma LimitedMove(p: Policies, capacity: Pair<nat>, v: State, w: State, m: nat, nodes: seq<Id>, stream: nat,
                    reason: Reason, k0: nat, k: nat, k1: nat)
    requires MovedBlocks(v, w, m, nodes, stream, reason) && k0 <= k < k1 && Used(v, Tlc) + |nodes| <= LimitOf(p,
            capacity, k, Tlc)
    ensures Limited(p, capacity, v, w, k0, k1)
  {}

  /** A dump that fits a limit. */
  lemma LimitedDump(p: Policies, capacity: Pair<nat>, v: State, w: State, writes: seq<Id>, tier: Tier, stream: nat,
                    k0: nat, k: nat, k1: nat)
    requires Dumping(v, w, writes, tier, stream, |writes|) && k0 <= k < k1
    requires Used(v, tier) + |writes| <= LimitOf(p, capacity, k, tier)
    ensures Limited(p, capacity, v, w, k0, k1)
  {
    forall t ensures LimitedIn(p, capacity, v, w, t, k0, k1) { assert t == tier || t == Other(tier); }
  }

  /** Within limits a tier never comes to use more than its capacity. */
  lemma LimitedBound(p: Policies, capacity: Pair<nat>, v: State, w: State, k0: nat, k1: nat, tier: Tier)
    requires Limited(p, capacity, v, w, k0, k1)
    ensures Peak(w, tier) > capacity.At(tier) <==> Peak(v, tier) > capacity.At(tier)
  {
    assert LimitedIn(p, capacity, v, w, tier, k0, k1);
  }

  lemma RelievedOn(v: State, w: State, u: State, tier: Tier)
    requires Relieved(v, w, tier) && Relieved(w, u, tier)
    ensures Relieved(v, u, tier)
  {
    if tier.Tlc? { RelievedThrough(v, w, u); }
  }

  // ---- What reclaiming and background work come to ----

  /** Unprotected storage has been freed for a tier, within the limits answered meanwhile. */
  ghost predicate Eased(p: Policies, capacity: Pair<nat>, v: State, w: State, tier: Tier, shielded: set<Id>, k0: nat, k1: nat) {
    forall i {:trigger Reader(i)} :: Reader(i) ==>
      Freed(v, w, shielded) && Relieved(v, w, tier) && Limited(p, capacity, v, w, k0, k1)
  }

  lemma EasedMeans(p: Policies, capacity: Pair<nat>, v: State, w: State, tier: Tier, shielded: set<Id>, k0: nat, k1: nat)
    ensures Eased(p, capacity, v, w, tier, shielded, k0, k1) <==>
              Freed(v, w, shielded) && Relieved(v, w, tier) && Limited(p, capacity, v, w, k0, k1)
  {
    assert Reader(0);
  }

  lemma EasedSame(p: Policies, capacity: Pair<nat>, v: State, tier: Tier, shielded: set<Id>, k0: nat, k1: nat)
    requires Sound(v) && k0 <= k1
    ensures Eased(p, capacity, v, v, tier, shielded, k0, k1) == true
  {
    NothingFreed(v, shielded);
    LimitedSame(p, capacity, v, v, k0, k1);
    EasedMeans(p, capacity, v, v, tier, shielded, k0, k1);
  }

  lemma EasedThrough(p: Policies, capacity: Pair<nat>, v: State, w: State, u: State, tier: Tier, shielded: set<Id>,
                     k0: nat, k1: nat, k2: nat)
    requires Eased(p, capacity, v, w, tier, shielded, k0, k1) == true && Eased(p, capacity, w, u, tier, shielded, k1, k2) == true
    ensures Eased(p, capacity, v, u, tier, shielded, k0, k2) == true
  {
    EasedMeans(p, capacity, v, w, tier, shielded, k0, k1);
    EasedMeans(p, capacity, w, u, tier, shielded, k1, k2);
    FreedThrough(v, w, u, shielded, shielded);
    RelievedOn(v, w, u, tier);
    LimitedThrough(p, capacity, v, w, u, k0, k1, k2);
    EasedMeans(p, capacity, v, u, tier, shielded, k0, k2);
  }

  /** A question before the first step. */
  lemma EasedLater(p: Policies, capacity: Pair<nat>, v: State, w: State, tier: Tier, shielded: set<Id>, k0: nat, k1: nat, k2: nat)
    requires Sound(v) == true && k0 <= k1 && Eased(p, capacity, v, w, tier, shielded, k1, k2) == true
    ensures Eased(p, capacity, v, w, tier, shielded, k0, k2) == true
  {
    EasedSame(p, capacity, v, tier, shielded, k0, k1);
    EasedThrough(p, capacity, v, v, w, tier, shielded, k0, k1, k2);
  }

  lemma EasedTrim(p: Policies, capacity: Pair<nat>, v: State, w: State, e: Id, tier: Tier, reason: Reason,
                  shielded: set<Id>, k: nat)
    requires Sound(v) && e in v.tree.parent && SegmentTrimmed(v, w, e, tier,
            reason) && Elems(Segment(v.tree, e)) !! shielded
    ensures Eased(p, capacity, v, w, tier, shielded, k, k) == true
  {
    TrimFrees(v, w, e, tier, reason, tier, shielded);
    LimitedTrim(p, capacity, v, w, e, tier, reason, k);
    EasedMeans(p, capacity, v, w, tier, shielded, k, k);
  }

  /** Protected blocks are still where they were. */
  lemma EasedMovable(p: Policies, capacity: Pair<nat>, v: State, w: State, tier: Tier, shielded: set<Id>, k0: nat,
      k1: nat, nodes: seq<Id>)
    requires Sound(v) == true && Eased(p, capacity, v, w, tier, shielded, k0, k1) == true
    requires Movable(v, nodes) && Elems(nodes) <= shielded
    ensures Movable(w, nodes)
  {
    EasedMeans(p, capacity, v, w, tier, shielded, k0, k1);
    StillMovable(v, w, nodes, shielded);
  }

  /** The blocks that are to be dumped are still in the tree and unwritten. */
  lemma EasedUnwritten(p: Policies, capacity: Pair<nat>, v: State, w: State, tier: Tier, shielded: set<Id>, k0: nat, k1: nat,
                       segment: seq<Id>, writes: seq<Id>)
    requires Sound(v) == true && Eased(p, capacity, v, w, tier, shielded, k0, k1) == true
    requires (forall n <- segment :: n in v.tree.parent) && Elems(segment) <= shielded
    requires forall n <- writes :: n in segment && n !in v.store
    ensures forall n <- writes :: n !in w.store && n in w.tree.parent
  {
    EasedMeans(p, capacity, v, w, tier, shielded, k0, k1);
    StillUnwritten(v, w, segment, shielded, writes);
  }

  /** Protected storage copies are where they were. */
  ghost predicate Spared(v: State, w: State, prefix: set<Id>) {
    forall n <- prefix :: n in v.store ==> n in w.store && w.store[n] == v.store[n]
  }

  lemma EasedSpares(p: Policies, capacity: Pair<nat>, v: State, w: State, tier: Tier, shielded: set<Id>, k0: nat,
      k1: nat, prefix: set<Id>)
    requires Sound(v) == true && Eased(p, capacity, v, w, tier, shielded, k0, k1) == true && prefix <= shielded
    ensures Spared(v, w, prefix) == true
  {
    EasedMeans(p, capacity, v, w, tier, shielded, k0, k1);
    forall n | n in prefix && n in v.store ensures n in w.store && w.store[n] == v.store[n] {
      assert ShieldHolds(v.tree, v.store, w.tree, w.store, n);
    }
  }

  lemma DumpSpares(v: State, w: State, u: State, writes: seq<Id>, tier: Tier, stream: nat, prefix: set<Id>)
    requires Spared(v, w, prefix) == true && Dumping(w, u, writes, tier, stream, |writes|) == true
    ensures Spared(v, u, prefix) == true
  {}

  /** Making room for a dump, and the dump. */
  lemma EasedDump(p: Policies, capacity: Pair<nat>, v: State, w: State, u: State, tier: Tier, shielded: set<Id>, k0: nat, k1: nat,
                  segment: seq<Id>, writes: seq<Id>, stream: nat)
    requires Sound(v) == true && Eased(p, capacity, v, w, tier, shielded, k0, k1) == true && k0 < k1
    requires (forall n <- segment :: n in v.tree.parent) && Elems(segment) <= shielded
    requires Dumping(w, u, writes, tier, stream, |writes|) == true && Fits(p, capacity, w, k0, tier, |writes|) == true
    ensures Dumped(v, u, segment, Elems(writes)) == true && Limited(p, capacity, v, u, k0, k1) == true
    ensures Used(u, tier) <= LimitOf(p, capacity, k0, tier)
  {
    EasedMeans(p, capacity, v, w, tier, shielded, k0, k1);
    DumpOutcome(v, w, u, segment, shielded, writes, tier, stream);
    LimitedDump(p, capacity, w, u, writes, tier, stream, k0, k0, k1);
    LimitedAlong(p, capacity, v, w, u, k0, k1);
  }

  lemma EasedRefusal(p: Policies, capacity: Pair<nat>, v: State, w: State, tier: Tier, shielded: set<Id>, k0: nat,
      k1: nat, segment: seq<Id>)
    requires Sound(v) == true && Eased(p, capacity, v, w, tier, shielded, k0, k1) == true
    requires (forall n <- segment :: n in v.tree.parent) && Elems(segment) <= shielded
    ensures Dumped(v, w, segment, {}) == true && Limited(p, capacity, v, w, k0, k1) == true
  {
    EasedMeans(p, capacity, v, w, tier, shielded, k0, k1);
    DumpRejected(v, w, segment, shielded);
  }

  /** Reclaiming for SLC that has lowered the load by at least `work`. */
  ghost predicate Worked(p: Policies, capacity: Pair<nat>, v: State, w: State, shielded: set<Id>, k0: nat, k1: nat, work: nat) {
    Eased(p, capacity, v, w, Slc, shielded, k0, k1) && Load(w) <= Load(v) - work
  }

  /** A relocation of so many blocks: SLC has lost at least them. */
  ghost predicate Relocated(p: Policies, capacity: Pair<nat>, v: State, w: State, shielded: set<Id>, k0: nat, k1: nat,
      moved: nat) {
    Worked(p, capacity, v, w, shielded, k0, k1, moved) && Used(w, Slc) <= Used(v, Slc) - moved
  }

  /** Making room and then moving blocks that fit a limit. */
  lemma RelocatedMove(p: Policies, capacity: Pair<nat>, v: State, w: State, u: State, m: nat, nodes: seq<Id>, stream: nat,
                      reason: Reason, shielded: set<Id>, combined: set<Id>, k0: nat, k1: nat)
    requires Eased(p, capacity, v, w, Tlc, combined, k0, k1) == true && MovedBlocks(w, u, m, nodes, stream,
            reason) && k0 < k1
    requires shielded <= combined && Elems(nodes) !! shielded && Used(w, Tlc) + |nodes| <= LimitOf(p, capacity, k0, Tlc)
    ensures Relocated(p, capacity, v, u, shielded, k0, k1, |nodes|) == true
  {
    EasedMeans(p, capacity, v, w, Tlc, combined, k0, k1);
    RelocationOutcome(v, w, u, m, nodes, stream, reason, shielded, combined);
    LimitedMove(p, capacity, w, u, m, nodes, stream, reason, k0, k0, k1);
    LimitedAlong(p, capacity, v, w, u, k0, k1);
    EasedMeans(p, capacity, v, u, Slc, shielded, k0, k1);
  }

  /** No room could be made. */
  lemma RelocatedNot(p: Policies, capacity: Pair<nat>, v: State, w: State, shielded: set<Id>, combined: set<Id>, k0: nat, k1: nat)
    requires Sound(w) && Eased(p, capacity, v, w, Tlc, combined, k0, k1) == true && shielded <= combined
    ensures Relocated(p, capacity, v, w, shielded, k0, k1, 0) == true
  {
    EasedMeans(p, capacity, v, w, Tlc, combined, k0, k1);
    NothingFreed(w, shielded);
    FreedThrough(v, w, w, shielded, combined);
    EasedMeans(p, capacity, v, w, Slc, shielded, k0, k1);
  }

  lemma RelocatedSame(p: Policies, capacity: Pair<nat>, v: State, shielded: set<Id>, k0: nat, k1: nat)
    requires Sound(v) && k0 <= k1
    ensures Relocated(p, capacity, v, v, shielded, k0, k1, 0) == true
  {
    EasedSame(p, capacity, v, Slc, shielded, k0, k1);
  }

  lemma WorkedThrough(p: Policies, capacity: Pair<nat>, v: State, w: State, u: State, shielded: set<Id>,
                      k0: nat, k1: nat, k2: nat, work: nat, more: nat)
    requires Worked(p, capacity, v, w, shielded, k0, k1, work) == true && Worked(p, capacity, w, u, shielded, k1, k2,
             more) == true
    ensures Worked(p, capacity, v, u, shielded, k0, k2, work + more) == true
  {
    EasedThrough(p, capacity, v, w, u, Slc, shielded, k0, k1, k2);
  }

  lemma WorkedLater(p: Policies, capacity: Pair<nat>, v: State, w: State, shielded: set<Id>, k0: nat, k1: nat, k2: nat, work: nat)
    requires Sound(v) == true && k0 <= k1 && Worked(p, capacity, v, w, shielded, k1, k2, work) == true
    ensures Worked(p, capacity, v, w, shielded, k0, k2, work) == true
  {
    EasedLater(p, capacity, v, w, Slc, shielded, k0, k1, k2);
  }

  lemma WorkedLimited(p: Policies, capacity: Pair<nat>, v: State, w: State, shielded: set<Id>, k0: nat, k1: nat, work: nat)
    requires Worked(p, capacity, v, w, shielded, k0, k1, work) == true
    ensures Limited(p, capacity, v, w, k0, k1) == true
  {
    EasedMeans(p, capacity, v, w, Slc, shielded, k0, k1);
  }

  lemma WorkedTrim(p: Policies, capacity: Pair<nat>, v: State, w: State, e: Id, tier: Tier, reason: Reason, k: nat)
    requires Sound(v) && e in v.tree.parent && SegmentTrimmed(v, w, e, tier, reason) && Residents(v.tree, v.store, e,
            tier) != []
    ensures Worked(p, capacity, v, w, {}, k, k, 1) == true
  {
    EasedTrim(p, capacity, v, w, e, tier, reason, {}, k);
    EasedMeans(p, capacity, v, w, tier, {}, k, k);
    TrimUnloads(v, w, e, tier, reason);
    EasedMeans(p, capacity, v, w, Slc, {}, k, k);
  }

  /** What making room for `required` blocks under a limit comes to: nothing happens if they fit at once or never can;
      afterwards they fit if it went well. */
  ghost predicate Secured(v: State, w: State, limit: nat, tier: Tier, required: nat, ok: bool) {
    && (ok ==> Used(w, tier) + required <= limit)
    && (required > limit ==> !ok && w == v)
    && (Used(v, tier) + required <= limit ==> ok && w == v)
  }

  /** Without a proposal nothing happens; a trim of TLC that is proposed is carried out. */
  ghost predicate TrimObeyed(v: State, w: State, action: Option<Action>, done: bool) {
    match action
    case None => !done && w == v
    case Some(TrimSegment(e, _)) =>
      done && Grown(v.tree) && e in v.tree.parent && SegmentTrimmed(v, w, e, Tlc, CapacityEviction)
    case Some(MoveSegment(_, _)) => false
  }

  // ---- The steps of making room in TLC ----

  /** Step `i`: the blocks do not fit yet, and the trim that the policy asks for is carried out. */
  ghost predicate TrimmedAt(p: Policies, path: seq<State>, k: nat, required: nat, limit: nat, shielded: set<Id>, i: nat) {
    && i + 1 < |path| && Sound(path[i]) && Sound(path[i + 1]) && Used(path[i], Tlc) + required > limit
    && var action := Proposed(p, k + i, path[i].tree, path[i].store, Tlc, shielded);
       action.Some? && action.value.TrimSegment? && SegmentTrimmed(path[i], path[i + 1], action.value.endpoint, Tlc,
               CapacityEviction)
  }

  ghost predicate TrimPath(p: Policies, path: seq<State>, k: nat, required: nat, limit: nat, shielded: set<Id>) {
    path != [] && Sound(path[0]) && forall i | 0 <= i < |path| - 1 :: TrimmedAt(p, path, k, required, limit, shielded, i)
  }

  /** Room has been asked for: the policy's answers were carried out one after another from `v` to `w`, until the
      blocks fitted or the policy had no more to offer; a demand above the limit is refused at once. */
  ghost predicate RoomMade(p: Policies, v: State, w: State, path: seq<State>, k: nat, required: nat, limit: nat,
                           shielded: set<Id>, ok: bool) {
    && TrimPath(p, path, k, required, limit, shielded) && path[0] == v && path[|path| - 1] == w
    && (ok ==> Used(w, Tlc) + required <= limit)
    && (!ok ==> Used(w, Tlc) + required > limit)
    && (!ok && required <= limit ==> Grown(w.tree) && Proposed(p, k + |path| - 1, w.tree, w.store, Tlc, shielded).None?)
  }

  lemma NoTrims(p: Policies, v: State, k: nat, required: nat, limit: nat, shielded: set<Id>)
    requires Sound(v)
    ensures TrimPath(p, [v], k, required, limit, shielded) == true
  {}

  lemma OneMoreTrim(p: Policies, path: seq<State>, w: State, k: nat, required: nat, limit: nat, shielded: set<Id>)
    requires TrimPath(p, path, k, required, limit, shielded)
    requires TrimmedAt(p, path + [w], k, required, limit, shielded, |path| - 1)
    ensures TrimPath(p, path + [w], k, required, limit, shielded) == true
  {
    var longer := path + [w];
    forall i | 0 <= i < |longer| - 1 ensures TrimmedAt(p, longer, k, required, limit, shielded, i) {
      if i < |path| - 1 { assert TrimmedAt(p, path, k, required, limit, shielded, i); }
    }
  }

  /** A trim that the policy asked for is one more step. */
  lemma OneStep(p: Policies, path: seq<State>, v: State, w: State, k: nat, required: nat, limit: nat, shielded: set<Id>)
    requires TrimPath(p, path, k, required, limit, shielded) && path[|path| - 1] == v && Sound(v) && Sound(w)
    requires Used(v, Tlc) + required > limit
    requires var action := Proposed(p, k + |path| - 1, v.tree, v.store, Tlc, shielded);
      action.Some? && action.value.TrimSegment? && SegmentTrimmed(v, w, action.value.endpoint, Tlc, CapacityEviction)
    ensures TrimPath(p, path + [w], k, required, limit, shielded) == true
  {
    var longer := path + [w];
    assert longer[|path| - 1] == v && longer[|path|] == w;
    OneMoreTrim(p, path, w, k, required, limit, shielded);
  }

  lemma RefusedOrFits(p: Policies, v: State, k: nat, required: nat, limit: nat, shielded: set<Id>)
    requires Sound(v)
    ensures required > limit || Used(v, Tlc) + required <= limit ==>
              RoomMade(p, v, v, [v], k, required, limit, shielded, required <= limit)
  {
    NoTrims(p, v, k, required, limit, shielded);
    UsedBounds(v, Tlc);
  }

  /** The steps so far have led from `v` to `w`; every one has asked one question. */
  ghost predicate Stepped(p: Policies, v: State, w: State, required: nat, limit: nat, shielded: set<Id>, path: seq<State>,
                          k: nat, next: nat)
  {
    && TrimPath(p, path, k, required, limit, shielded) && path[0] == v && path[|path| - 1] == w
    && next == k + |path| - 1
  }

  /** The next step, or its refusal. */
  lemma SteppedOn(p: Policies, v: State, w: State, u: State, required: nat, limit: nat, shielded: set<Id>, path: seq<State>,
                  k: nat, next: nat, done: bool)
    requires Stepped(p, v, w, required, limit, shielded, path, k, next) == true && Sound(w) && Sound(u)
    requires Used(w, Tlc) + required > limit >= required
    requires TrimObeyed(w, u, Proposed(p, next, w.tree, w.store, Tlc, shielded), done) == true
    ensures if done then Stepped(p, v, u, required, limit, shielded, path + [u], k, next + 1)
            else RoomMade(p, v, u, path, k, required, limit, shielded, false)
  {
    if done { OneStep(p, path, w, u, k, required, limit, shielded); }
  }

  // ---- How many blocks a tier holds ----

  function Copies(store: map<Id, Location>, tier: Tier): set<Id> { set n | n in store && store[n].tier == tier }

  function AddressesIn(store: map<Id, Location>, some: set<Id>): set<nat>
    requires some <= store.Keys
  {
    set n | n in some :: store[n].address
  }

  lemma {:induction false} AddressesCount(d: Device, store: map<Id, Location>, tier: Tier, some: set<Id>)
    requires Matches(d, store, {}) && some <= Copies(store, tier)
    ensures |AddressesIn(store, some)| == |some|
  {
    if some != {} {
      var n :| n in some;
      AddressesCount(d, store, tier, some - {n});
      forall m | m in some - {n} ensures store[m].address != store[n].address {
        if store[m].address == store[n].address { LocationsDistinct(d, store, m, n); }
      }
      assert AddressesIn(store, some) == AddressesIn(store, some - {n}) + {store[n].address};
    }
  }

  /** An allocator counts exactly the copies of its tier. */
  lemma UsedCount(v: State, tier: Tier)
    requires Logged(v)
    ensures Used(v, tier) == |Copies(v.store, tier)|
  {
    AddressesCount(v.device, v.store, tier, Copies(v.store, tier));
    forall a: nat ensures a in Addresses(v.device, tier) <==> a in AddressesIn(v.store, Copies(v.store, tier)) {
      if a in Addresses(v.device, tier) {
        var s :| s in v.device && s.tier == tier && s.address == a;
        assert SlotExplained(v.device, v.store, {}, s);
        assert v.device[s].node in Copies(v.store, tier);
      }
      if a in AddressesIn(v.store, Copies(v.store, tier)) {
        var n :| n in Copies(v.store, tier) && v.store[n].address == a;
        assert CopyHeld(v.device, v.store, {}, n);
        assert SlotOf(v.store[n]) in v.device && SlotOf(v.store[n]).address == a;
      }
    }
    assert Addresses(v.device, tier) == AddressesIn(v.store, Copies(v.store, tier));
  }

  // ---- What can join the segment of a migration ----

  /** A node that can go while room is made in TLC: it has no copy but perhaps a TLC one, and is not protected. */
  ghost predicate GivesWay(v: State, shielded: set<Id>, x: Id) {
    x !in v.memory && !InSlc(v.store, x) && v.active != Some(x) && x !in shielded
  }

  /** An ancestor outside the segment that ends at `e` that holds an SLC copy, with nothing aside of the way to `e`
      but unprotected TLC copies. */
  ghost predicate MayJoin(v: State, e: Id, a: Id, shielded: set<Id>) {
    && Grown(v.tree) && e in v.tree.parent && a in Path(v.tree, e) && a !in Segment(v.tree, e) && InSlc(v.store, a)
    && forall x <- Aside(v.tree, e, a) :: GivesWay(v, shielded, x)
  }

  /** Whatever the policy, only such an ancestor can have joined. */
  lemma JoinNeeds(v: State, w: State, e: Id, a: Id, shielded: set<Id>)
    requires Sound(v) && Sound(w) && Freed(v, w, shielded) && Relieved(v, w, Tlc)
    requires e in v.tree.parent && e in w.tree.parent
    requires a in Segment(w.tree, e) && a !in Segment(v.tree, e) && InSlc(v.store, a)
    ensures MayJoin(v, e, a, shielded)
  {
    SegmentInPath(w.tree, e, a);
    PathShrunk(v.tree, w.tree, e);
    JoinedExactly(w.tree, e, a);
    AsideShrunk(v.tree, w.tree, e, a);
    forall x | x in Aside(v.tree, e, a) ensures GivesWay(v, shielded, x) {
      assert x in shielded ==> ShieldHolds(v.tree, v.store, w.tree, w.store, x);
      assert InSlc(v.store, x) <==> InSlc(w.store, x);
      assert x !in Aside(w.tree, e, a);
    }
  }

  /** A migration finds more blocks than it was sized for only if an ancestor could join. */
  lemma OverrunNeeds(v: State, w: State, e: Id, shielded: set<Id>)
    requires Sound(v) && Sound(w) && Freed(v, w, shielded) && Relieved(v, w, Tlc)
    requires e in v.tree.parent && Elems(Segment(v.tree, e)) <= shielded
    ensures e in w.tree.parent
    ensures Sized(w.tree, v.store, e) > Sized(v.tree, v.store, e) ==> exists a :: MayJoin(v, e, a, shielded)
  {
    forall n | n in Segment(v.tree, e) ensures n in w.tree.parent {
      assert n in Elems(Segment(v.tree, e));
      assert ShieldHolds(v.tree, v.store, w.tree, w.store, n);
    }
    OverrunExactly(v.tree, w.tree, v.store, e);
    if Sized(w.tree, v.store, e) > Sized(v.tree, v.store, e) {
      var a :| a in Segment(w.tree, e) && a !in Segment(v.tree, e) && InSlc(v.store, a);
      JoinNeeds(v, w, e, a, shielded);
    }
  }

  // ---- A policy that lets an ancestor join ----

  /** The nodes of a set that hold TLC copies. */
  function Off(s: map<Id, Location>, d: set<Id>): set<Id> { set x | x in d && x in s && s[x].tier.Tlc? }

  ghost predicate DrivesAt(p: Policies, v: State, d: set<Id>, k: nat, t: Tree, s: map<Id, Location>) {
    s.Keys <= v.store.Keys && Off(s, d) != {} ==>
      var action := p.reclaim(k, t, s);
      action.Some? && action.value.TrimSegment? && action.value.tier == Tlc && action.value.endpoint in Off(s, d)
  }

  /** A policy that trims the nodes of `d` as long as one of them holds a TLC copy. */
  ghost predicate Drives(p: Policies, v: State, d: set<Id>) { forall k, t, s :: DrivesAt(p, v, d, k, t, s) }

  ghost function Pick(s: set<Id>): (x: Id)
    requires s != {}
    ensures x in s
  {
    var x :| x in s;
    x
  }

  /** Such a policy: any policy with these answers instead of its own. */
  ghost function Driving(p: Policies, d: set<Id>, limit: nat): Policies {
    p.(limit := (k: nat) => limit,
       reclaim := (k: nat, t: Tree, s: map<Id, Location>) =>
         if Off(s, d) != {} then Some(TrimSegment(Pick(Off(s, d)), Tlc)) else None)
  }

  lemma DrivingDrives(p: Policies, v: State, d: set<Id>, limit: nat)
    ensures Drives(Driving(p, d, limit), v, d)
  {
    forall k: nat, t, s ensures DrivesAt(Driving(p, d, limit), v, d, k, t, s) {}
  }

  /** Below anything aside there is a node with a copy, or the active one. */
  lemma AsideHeld(w: State, e: Id, a: Id, x: Id) returns (y: Id)
    requires Sound(w) && e in w.tree.parent && AsideAt(w.tree, e, a, x)
    ensures y in Aside(w.tree, e, a) && (y in w.memory || y in w.store || w.active == Some(y))
  {
    y := ChildlessBelow(w.tree, x);
    AsideBelow(w.tree, e, a, x, y);
    assert !BareLeaf(w.tree, w.memory + w.store.Keys, w.active, y);
  }

  lemma NoCopyAside(v: State, w: State, e: Id, a: Id, shielded: set<Id>, y: Id)
    requires Freed(v, w, shielded) && Relieved(v, w, Tlc) && MayJoin(v, e, a, shielded)
    requires Off(w.store, Aside(v.tree, e, a)) == {} && y in Aside(v.tree, e, a)
    ensures y !in w.memory && y !in w.store && w.active != Some(y)
  {
    assert GivesWay(v, shielded, y);
    assert InSlc(v.store, y) <==> InSlc(w.store, y);
    assert y !in Off(w.store, Aside(v.tree, e, a));
  }

  /** With no TLC copy left aside, pruning has left nothing aside. */
  lemma ClearedJoins(v: State, w: State, e: Id, a: Id, shielded: set<Id>)
    requires Sound(v) && Sound(w) && Freed(v, w, shielded) && Relieved(v, w, Tlc)
    requires MayJoin(v, e, a, shielded) && e in w.tree.parent && Off(w.store, Aside(v.tree, e, a)) == {}
    ensures a in Segment(w.tree, e)
  {
    PathShrunk(v.tree, w.tree, e);
    AsideShrunk(v.tree, w.tree, e, a);
    forall x ensures x !in Aside(w.tree, e, a) {
      if x in w.tree.parent && AsideAt(w.tree, e, a, x) {
        var y := AsideHeld(w, e, a, x);
        NoCopyAside(v, w, e, a, shielded, y);
      }
    }
    JoinedExactly(w.tree, e, a);
  }

  lemma RelievedThrough(v: State, w: State, u: State)
    requires Relieved(v, w, Tlc) && Relieved(w, u, Tlc)
    ensures Relieved(v, u, Tlc)
  {
    forall n ensures InSlc(v.store, n) <==> InSlc(u.store, n) {
      assert (InSlc(v.store, n) <==> InSlc(w.store, n)) && (InSlc(w.store, n) <==> InSlc(u.store, n));
    }
  }

  /** Every step only frees unprotected TLC copies. */
  lemma {:induction false} PathFrees(p: Policies, path: seq<State>, k: nat, required: nat, limit: nat, shielded: set<Id>, i: nat)
    requires TrimPath(p, path, k, required, limit, shielded) && i < |path|
    ensures Sound(path[i]) && Freed(path[0], path[i], shielded) && Relieved(path[0], path[i], Tlc)
  {
    if i == 0 {
      NothingFreed(path[0], shielded);
    } else {
      PathFrees(p, path, k, required, limit, shielded, i - 1);
      NextFrees(p, path, k, required, limit, shielded, i - 1);
    }
  }

  lemma NextFrees(p: Policies, path: seq<State>, k: nat, required: nat, limit: nat, shielded: set<Id>, i: nat)
    requires TrimPath(p, path, k, required, limit, shielded) && i + 1 < |path|
    requires Freed(path[0], path[i], shielded) && Relieved(path[0], path[i], Tlc)
    ensures Sound(path[i + 1]) && Freed(path[0], path[i + 1], shielded) && Relieved(path[0], path[i + 1], Tlc)
  {
    NextTrim(p, path, k, required, limit, shielded, i);
    StepFrees(path[0], path[i], path[i + 1], Proposed(p, k + i, path[i].tree, path[i].store, Tlc, shielded).value, shielded);
  }

  lemma StepFrees(v: State, u: State, w: State, action: Action, shielded: set<Id>)
    requires Sound(u) && Freed(v, u, shielded) && Relieved(v, u, Tlc)
    requires ReclaimOk(u.tree, u.store, action, Tlc, shielded) && SegmentTrimmed(u, w, action.endpoint, Tlc,
            CapacityEviction)
    ensures Freed(v, w, shielded) && Relieved(v, w, Tlc)
  {
    TrimFrees(u, w, action.endpoint, Tlc, CapacityEviction, Tlc, shielded);
    FreedThrough(v, u, w, shielded, shielded);
    RelievedThrough(v, u, w);
  }

  /** Trimming a node aside trims nodes aside only. */
  lemma TrimAside(v: State, u: State, w: State, e: Id, a: Id, shielded: set<Id>, x: Id)
    requires Sound(v) && Sound(u) && Freed(v, u, shielded) && MayJoin(v, e, a, shielded) && e in u.tree.parent
    requires x in Off(u.store, Aside(v.tree, e, a)) && SegmentTrimmed(u, w, x, Tlc, CapacityEviction)
    ensures var d := Aside(v.tree, e, a);
      Used(w, Tlc) - |Off(w.store, d)| == Used(u, Tlc) - |Off(u.store, d)|
  {
    var d, trimmed := Aside(v.tree, e, a), Residents(u.tree, u.store, x, Tlc);
    StaysAside(v, u, e, a, shielded, x);
    ResidentsDistinct(u.tree, u.store, x, Tlc);
    DistinctSize(trimmed);
    assert Elems(trimmed) <= Off(u.store, d);
    assert Off(w.store, d) == Off(u.store, d) - Elems(trimmed);
  }

  lemma StaysAside(v: State, u: State, e: Id, a: Id, shielded: set<Id>, x: Id)
    requires Sound(v) && Sound(u) && Freed(v, u, shielded) && MayJoin(v, e, a, shielded) && e in u.tree.parent
    requires x in Off(u.store, Aside(v.tree, e, a))
    ensures x in u.tree.parent && Residents(u.tree, u.store, x, Tlc) != []
    ensures forall y <- Segment(u.tree, x) :: y in Aside(v.tree, e, a) && y !in shielded
  {
    PathShrunk(v.tree, u.tree, e);
    AsideShrunk(v.tree, u.tree, e, a);
    forall y | y in Segment(u.tree, x) ensures y in Aside(v.tree, e, a) && y !in shielded {
      SegmentAside(u.tree, e, a, x, y);
      assert y in Aside(u.tree, e, a);
      assert GivesWay(v, shielded, y);
    }
    assert x in Segment(u.tree, x) && x in Residents(u.tree, u.store, x, Tlc);
  }

  lemma StillThere(v: State, w: State, e: Id, shielded: set<Id>)
    requires Placed(v) && Freed(v, w, shielded) && e in v.tree.parent && e in shielded
    ensures e in w.tree.parent
  {
    assert ShieldHolds(v.tree, v.store, w.tree, w.store, e);
  }

  lemma DrivenStep(p: Policies, v: State, u: State, w: State, k: nat, shielded: set<Id>, e: Id, a: Id, d: set<Id>)
    requires Sound(v) && Sound(u) && Freed(v, u, shielded) && MayJoin(v, e, a, shielded) && e in shielded
    requires d == Aside(v.tree, e, a) && Drives(p, v, d) && Off(u.store, d) != {} && Driven(v, u, d)
    requires Proposed(p, k, u.tree, u.store, Tlc, shielded).Some?
    requires SegmentTrimmed(u, w, Proposed(p, k, u.tree, u.store, Tlc, shielded).value.endpoint, Tlc, CapacityEviction)
    ensures Driven(v, w, d)
  {
    assert DrivesAt(p, v, d, k, u.tree, u.store);
    StillThere(v, u, e, shielded);
    TrimAside(v, u, w, e, a, shielded, p.reclaim(k, u.tree, u.store).value.endpoint);
  }

  /** How far a driving policy has come is told by the use of TLC. */
  lemma {:induction false} DrivenSoFar(p: Policies, path: seq<State>, k: nat, required: nat, limit: nat, shielded: set<Id>,
                                       e: Id, a: Id, d: set<Id>, i: nat)
    requires TrimPath(p, path, k, required, limit, shielded) && i < |path|
    requires MayJoin(path[0], e, a, shielded) && e in shielded && d == Aside(path[0].tree, e, a) && Drives(p, path[0], d)
    requires limit == Used(path[0], Tlc) - |Off(path[0].store, d)| + required
    ensures Driven(path[0], path[i], d)
  {
    if i > 0 {
      DrivenSoFar(p, path, k, required, limit, shielded, e, a, d, i - 1);
      DrivenNext(p, path, k, required, limit, shielded, e, a, d, i - 1);
    }
  }

  lemma DrivenNext(p: Policies, path: seq<State>, k: nat, required: nat, limit: nat, shielded: set<Id>,
                   e: Id, a: Id, d: set<Id>, i: nat)
    requires TrimPath(p, path, k, required, limit, shielded) && i + 1 < |path|
    requires MayJoin(path[0], e, a, shielded) && e in shielded && d == Aside(path[0].tree, e, a) && Drives(p, path[0], d)
    requires limit == Used(path[0], Tlc) - |Off(path[0].store, d)| + required && Driven(path[0], path[i], d)
    ensures Driven(path[0], path[i + 1], d)
  {
    PathFrees(p, path, k, required, limit, shielded, i);
    NextTrim(p, path, k, required, limit, shielded, i);
    SomeOff(path[0], path[i], d, required, limit);
    DrivenStep(p, path[0], path[i], path[i + 1], k + i, shielded, e, a, d);
  }

  /** Only TLC copies of `d` have gone. */
  ghost predicate Driven(v: State, w: State, d: set<Id>) {
    Used(w, Tlc) - |Off(w.store, d)| == Used(v, Tlc) - |Off(v.store, d)|
  }

  lemma SomeOff(v: State, u: State, d: set<Id>, required: nat, limit: nat)
    requires Driven(v, u, d) && Used(u, Tlc) + required > limit && limit == Used(v, Tlc) - |Off(v.store, d)| + required
    ensures Off(u.store, d) != {}
  {}

  lemma NextTrim(p: Policies, path: seq<State>, k: nat, required: nat, limit: nat, shielded: set<Id>, i: nat)
    requires TrimPath(p, path, k, required, limit, shielded) && i + 1 < |path|
    ensures Sound(path[i]) && Sound(path[i + 1]) && Used(path[i], Tlc) + required > limit
    ensures Proposed(p, k + i, path[i].tree, path[i].store, Tlc, shielded).Some?
    ensures SegmentTrimmed(path[i], path[i + 1], Proposed(p, k + i, path[i].tree, path[i].store, Tlc,
            shielded).value.endpoint, Tlc, CapacityEviction)
  {
    assert TrimmedAt(p, path, k, required, limit, shielded, i);
  }

  /** Under a policy that drives everything aside out of TLC, and a limit that is reached when it is gone, room is
      made and the ancestor joins the segment. */
  lemma DrivenJoins(p: Policies, v: State, w: State, path: seq<State>, k: nat, required: nat, limit: nat, shielded: set<Id>,
                    ok: bool, e: Id, a: Id)
    requires RoomMade(p, v, w, path, k, required, limit, shielded, ok)
    requires MayJoin(v, e, a, shielded) && e in shielded && Drives(p, v, Aside(v.tree, e, a))
    requires limit == Used(v, Tlc) - |Off(v.store, Aside(v.tree, e, a))| + required
    ensures ok && Used(w, Tlc) == limit - required
    ensures Grown(w.tree) && e in w.tree.parent && a in Segment(w.tree, e)
  {
    DrivenClear(p, v, w, path, k, required, limit, shielded, ok, e, a, Aside(v.tree, e, a));
    StillThere(v, w, e, shielded);
    ClearedJoins(v, w, e, a, shielded);
  }

  lemma DrivenClear(p: Policies, v: State, w: State, path: seq<State>, k: nat, required: nat, limit: nat, shielded: set<Id>,
                    ok: bool, e: Id, a: Id, d: set<Id>)
    requires RoomMade(p, v, w, path, k, required, limit, shielded, ok)
    requires MayJoin(v, e, a, shielded) && e in shielded && d == Aside(v.tree, e, a) && Drives(p, v, d)
    requires limit == Used(v, Tlc) - |Off(v.store, d)| + required
    ensures Sound(v) && Sound(w) && Freed(v, w, shielded) && Relieved(v, w, Tlc)
    ensures ok && Off(w.store, d) == {} && Used(w, Tlc) == limit - required
  {
    DrivenEnd(p, v, w, path, k, required, limit, shielded, ok, e, a, d);
    OffBounded(v, d);
    StillThere(v, w, e, shielded);
    if Off(w.store, d) != {} { StillProposed(p, v, w, k + |path| - 1, shielded, e, a); }
  }

  lemma DrivenEnd(p: Policies, v: State, w: State, path: seq<State>, k: nat, required: nat, limit: nat, shielded: set<Id>,
                  ok: bool, e: Id, a: Id, d: set<Id>)
    requires RoomMade(p, v, w, path, k, required, limit, shielded, ok)
    requires MayJoin(v, e, a, shielded) && e in shielded && d == Aside(v.tree, e, a) && Drives(p, v, d)
    requires limit == Used(v, Tlc) - |Off(v.store, d)| + required
    ensures Sound(v) && Sound(w) && Freed(v, w, shielded) && Relieved(v, w, Tlc) && Driven(v, w, d)
    ensures if ok then Used(w, Tlc) + required <= limit else Used(w, Tlc) + required > limit
    ensures !ok && required <= limit ==> Proposed(p, k + |path| - 1, w.tree, w.store, Tlc, shielded).None?
  {
    PathFrees(p, path, k, required, limit, shielded, |path| - 1);
    DrivenSoFar(p, path, k, required, limit, shielded, e, a, d, |path| - 1);
  }

  lemma OffBounded(v: State, d: set<Id>)
    requires Logged(v)
    ensures |Off(v.store, d)| <= Used(v, Tlc)
  {
    UsedCount(v, Tlc);
    SubsetSize(Off(v.store, d), Copies(v.store, Tlc));
  }

  lemma StillProposed(p: Policies, v: State, w: State, k: nat, shielded: set<Id>, e: Id, a: Id)
    requires Sound(v) && Sound(w) && Freed(v, w, shielded) && MayJoin(v, e, a, shielded) && e in w.tree.parent
    requires Drives(p, v, Aside(v.tree, e, a)) && Off(w.store, Aside(v.tree, e, a)) != {}
    ensures Proposed(p, k, w.tree, w.store, Tlc, shielded).Some?
  {
    assert DrivesAt(p, v, Aside(v.tree, e, a), k, w.tree, w.store);
    StaysAside(v, w, e, a, shielded, p.reclaim(k, w.tree, w.store).value.endpoint);
  }
}
