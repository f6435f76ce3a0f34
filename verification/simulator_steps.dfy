/** Facts about the simulator's steps that need no state: what a reclaim leaves alone, and lists of stored blocks. */
module SimulatorSteps {
  import opened Prelude
  import opened Tiers
  import opened Forest
  import opened Pruning
  import opened Trace

  /** What storage policies may ask for: to trim one tier of a segment, or to move it from SLC to TLC. */
  datatype Action = TrimSegment(endpoint: Id, tier: Tier) | MoveSegment(endpoint: Id, stream: nat)

  /** The blocks of one tier in a list of nodes, in order. */
  function InTier(nodes: seq<Id>, store: map<Id, Location>, tier: Tier): (kept: seq<Id>)
    ensures forall n :: n in kept <==> n in nodes && n in store && store[n].tier == tier
  {
    if nodes == [] then []
    else (if nodes[0] in store && store[nodes[0]].tier == tier then [nodes[0]] else []) + InTier(nodes[1..], store, tier)
  }

  lemma {:induction false} InTierDistinct(nodes: seq<Id>, store: map<Id, Location>, tier: Tier)
    requires Distinct(nodes)
    ensures Distinct(InTier(nodes, store, tier))
  {
    if nodes != [] {
      InTierDistinct(nodes[1..], store, tier);
      var rest := InTier(nodes[1..], store, tier);
      forall i | 0 <= i < |rest| ensures rest[i] != nodes[0] { assert rest[i] in nodes[1..]; }
    }
  }

  /** The stored blocks of one tier in a segment. */
  function Residents(t: Tree, store: map<Id, Location>, e: Id, tier: Tier): seq<Id>
    requires Grown(t) && e in t.parent
  {
    InTier(Segment(t, e), store, tier)
  }

  lemma ResidentsDistinct(t: Tree, store: map<Id, Location>, e: Id, tier: Tier)
    requires Grown(t) && e in t.parent
    ensures Distinct(Residents(t, store, e, tier))
  {
    SegmentDistinct(t, e);
    InTierDistinct(Segment(t, e), store, tier);
  }

  ghost predicate ShieldHolds(t: Tree, s: map<Id, Location>, u: Tree, r: map<Id, Location>, n: Id) {
    n in t.parent ==> n in u.parent && (n in s <==> n in r) && (n in s ==> r[n] == s[n])
  }

  /** From tree `t` and copies `s`, reclaiming has led to `u` and `r`: nodes were only pruned, no two nodes of a
      segment were separated, no copies were made, and protected nodes and their copies were left alone. */
  ghost predicate Reclaimed(t: Tree, s: map<Id, Location>, u: Tree, r: map<Id, Location>, shielded: set<Id>) {
    && Shrunk(t, u) && SharesKept(t, u)
    && r.Keys <= s.Keys
    && forall n <- shielded :: ShieldHolds(t, s, u, r, n)
  }

  /** A trim touches nothing outside its segment. */
  lemma TrimReclaims(t: Tree, s: map<Id, Location>, e: Id, u: Tree, r: map<Id, Location>, nodes: seq<Id>)
    requires Shrunk(t, u) && SharesKept(t, u) && e in t.parent
    requires r == s - Elems(nodes) && forall n <- nodes :: n in Segment(t, e)
    requires forall n <- t.parent :: n !in u.parent ==> n in Segment(t, e)
    ensures forall shielded :: Elems(Segment(t, e)) !! shielded ==> Reclaimed(t, s, u, r, shielded)
  {
    forall shielded | Elems(Segment(t, e)) !! shielded ensures Reclaimed(t, s, u, r, shielded) {
      forall n | n in shielded ensures ShieldHolds(t, s, u, r, n) {
        assert n !in Elems(Segment(t, e));
      }
    }
  }

  lemma ReclaimedThrough(t: Tree, s: map<Id, Location>, u: Tree, r: map<Id, Location>, v: Tree, q: map<Id, Location>,
                         outer: set<Id>, inner: set<Id>)
    requires Reclaimed(t, s, u, r, outer) && Reclaimed(u, r, v, q, inner) && outer <= inner
    ensures Reclaimed(t, s, v, q, outer)
  {
    SharesThrough(t, u, v);
    forall n | n in outer ensures ShieldHolds(t, s, v, q, n) {
      assert ShieldHolds(t, s, u, r, n) && ShieldHolds(u, r, v, q, n);
    }
  }

  ghost predicate AtPosition(trace: seq<IoEvent>, m: nat, positions: set<nat>, y: nat) {
    y < |trace| && trace[y].move == Some(m) ==> y in positions
  }

  /** While a relocation is under way exactly the events at `positions` carry its number. */
  ghost predicate OnlyAt(trace: seq<IoEvent>, m: nat, positions: set<nat>) {
    forall y :: AtPosition(trace, m, positions, y)
  }

  lemma OnlyAtAppend(trace: seq<IoEvent>, m: nat, positions: set<nat>, ev: IoEvent)
    requires OnlyAt(trace, m, positions)
    ensures OnlyAt(trace + [ev], m, positions + {|trace|})
  {
    forall y: nat ensures AtPosition(trace + [ev], m, positions + {|trace|}, y) { assert AtPosition(trace, m, positions, y); }
  }
}
