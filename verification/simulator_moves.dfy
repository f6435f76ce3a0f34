/** The state while a relocation is under way: all destinations reserved, then all reads, all writes, all trims. */
module SimulatorMoves {
  import opened Prelude
  import opened Tiers
  import opened Forest
  import opened Pruning
  import opened Allocator
  import opened Trace
  import opened SimulatorSteps
  import opened SimulatorState

  /** Relocation `m` is under way: the device still holds the `stale` source slots of moved copies, the
      `reserved` TLC addresses await their write, and the events of `m` so far are at `positions`. */
  ghost predicate Moving(v: State, m: nat, stale: set<Slot>, reserved: set<nat>, positions: set<nat>) {
    && Placed(v) && Tidy(v, {})
    && Replay(v.trace) == Some(v.device) && Matches(v.device, v.store, stale)
    && Occupies(v.tiers.slc, Addresses(v.device, Slc))
    && Occupies(v.tiers.tlc, Addresses(v.device, Tlc) + reserved) && reserved !! Addresses(v.device, Tlc)
    && m !in v.moves && Recorded(v.trace, v.moves, Some(m)) && OnlyAt(v.trace, m, positions)
    && Addressed(v.trace, v.tiers, reserved)
  }

  function MoveEvent(op: Operation, n: Id, l: Location, reason: Reason, m: nat, depends: Option<nat>): IoEvent {
    IoEvent(op, n, l, reason, Some(m), depends)
  }

  lemma RecordedUnder(trace: seq<IoEvent>, moves: map<nat, Relocation>, m: nat)
    requires Recorded(trace, moves, None)
    ensures Recorded(trace, moves, Some(m))
  {
    forall y: nat ensures EventRecorded(trace, moves, Some(m), y) { assert EventRecorded(trace, moves, None, y); }
  }

  /** A fresh move number starts a relocation. */
  lemma StartMoving(v: State, m: nat)
    requires Sound(v) && forall k <- v.moves :: k < m
    ensures Moving(v, m, {}, {}, {})
  {
    RecordedUnder(v.trace, v.moves, m);
    forall y: nat ensures AtPosition(v.trace, m, {}, y) { assert EventRecorded(v.trace, v.moves, None, y); }
    assert Addresses(v.device, Tlc) + {} == Addresses(v.device, Tlc);
  }

  function ReservedBlock(v: State): State { v.(tiers := v.tiers.With(Tlc, Taken(v.tiers.tlc))) }

  lemma ReserveOccupies(b: Blocks, held: set<nat>, reserved: set<nat>)
    requires Occupies(b, held + reserved)
    ensures var a := NextAddress(b);
      a !in held && a !in reserved && Occupies(Taken(b), held + (reserved + {a})) == true
  {
    var a := NextAddress(b);
    TakeOccupies(b, held + reserved);
    assert held + reserved + {a} == held + (reserved + {a});
  }

  lemma ReserveStep(v: State, m: nat, stale: set<Slot>, reserved: set<nat>, positions: set<nat>)
    requires Moving(v, m, stale, reserved, positions)
    ensures var a := NextAddress(v.tiers.tlc);
      a !in reserved && Moving(ReservedBlock(v), m, stale, reserved + {a}, positions) == true
  {
    ReserveOccupies(v.tiers.tlc, Addresses(v.device, Tlc), reserved);
    ReservedHandedOut(v.trace, v.tiers, reserved, Addresses(v.device, Tlc) + reserved);
  }

  /** A reserved address awaits its write. */
  lemma ReservedHandedOut(trace: seq<IoEvent>, tiers: Pair<Blocks>, reserved: set<nat>, occupied: set<nat>)
    requires Addressed(trace, tiers, reserved) && Occupies(tiers.tlc, occupied)
    ensures Addressed(trace, tiers.With(Tlc, Taken(tiers.tlc)), reserved + {NextAddress(tiers.tlc)}) == true
  {
    forall t, a: nat
      ensures HandedOut(trace, tiers.With(Tlc, Taken(tiers.tlc)), reserved + {NextAddress(tiers.tlc)}, t, a)
    {
      assert HandedOut(trace, tiers, reserved, t, a);
      TakeBelow(tiers.tlc, occupied, a);
    }
  }

  /** The write of a reserved address. */
  lemma ReservedWritten(trace: seq<IoEvent>, tiers: Pair<Blocks>, reserved: set<nat>, ev: IoEvent)
    requires Addressed(trace, tiers, reserved) && ev.op.Write? && ev.location.tier == Tlc && ev.location.address in reserved
    ensures Addressed(trace + [ev], tiers, reserved - {ev.location.address}) == true
  {
    WrittenAppend(trace, ev);
    forall t, a: nat ensures HandedOut(trace + [ev], tiers, reserved - {ev.location.address}, t, a) {
      assert HandedOut(trace, tiers, reserved, t, a);
    }
  }

  lemma ReadStep(v: State, m: nat, reserved: set<nat>, positions: set<nat>, n: Id, reason: Reason)
    requires Moving(v, m, {}, reserved, positions) && n in v.store
    ensures var w := Emitted(v, MoveEvent(Read, n, v.store[n], reason, m, None));
      w.device == v.device && Moving(w, m, {}, reserved, positions + {|v.trace|})
  {
    var ev := MoveEvent(Read, n, v.store[n], reason, m, None);
    assert CopyHeld(v.device, v.store, {}, n);
    ReplayAppend(v.trace, ev);
    NothingHandedOut(v.trace, v.tiers, reserved, ev, v.tiers);
    AppendRecorded(v.trace, v.moves, Some(m), ev);
    OnlyAtAppend(v.trace, m, positions, ev);
  }

  function WrittenBlock(v: State, n: Id, l: Location, reason: Reason, m: nat, read: nat): State {
    Emitted(v, MoveEvent(Write, n, l, reason, m, Some(read))).(store := v.store[n := l])
  }

  lemma WriteStep(v: State, m: nat, stale: set<Slot>, reserved: set<nat>, positions: set<nat>,
                  n: Id, l: Location, reason: Reason, read: nat)
    requires Moving(v, m, stale, reserved, positions) && n in v.store && l.tier == Tlc && l.address in reserved
    ensures var w := WrittenBlock(v, n, l, reason, m, read);
      && Moving(w, m, stale + {SlotOf(v.store[n])}, reserved - {l.address}, positions + {|v.trace|})
      && SlotOf(l) !in v.device && w.device == v.device[SlotOf(l) := Held(n, l.stream)]
      && SlotOf(v.store[n]) in v.device && v.device[SlotOf(v.store[n])] == Held(n, v.store[n].stream)
  {
    var ev := MoveEvent(Write, n, l, reason, m, Some(read));
    if SlotOf(l) in v.device { AddressesRemove(v.device, SlotOf(l)); }
    assert CopyHeld(v.device, v.store, stale, n);
    MoveMatches(v.device, v.store, stale, n, l);
    AddressesAdd(v.device, SlotOf(l), Held(n, l.stream));
    ReplayAppend(v.trace, ev);
    AppendRecorded(v.trace, v.moves, Some(m), ev);
    OnlyAtAppend(v.trace, m, positions, ev);
    assert Addresses(v.device, Tlc) + {l.address} + (reserved - {l.address}) == Addresses(v.device, Tlc) + reserved;
    ReservedWritten(v.trace, v.tiers, reserved, ev);
    assert v.store[n := l].Keys == v.store.Keys;
  }

  function DroppedBlock(v: State, n: Id, source: Location, reason: Reason, m: nat, write: nat): State {
    Emitted(v, MoveEvent(Trim, n, source, reason, m, Some(write))).(
      tiers := v.tiers.With(Slc, Returned(v.tiers.slc, source.address)))
  }

  lemma DropStep(v: State, m: nat, stale: set<Slot>, positions: set<nat>, n: Id, source: Location, reason: Reason, write: nat)
    requires Moving(v, m, stale, {}, positions) && source.tier == Slc && SlotOf(source) in stale
    requires SlotOf(source) in v.device && v.device[SlotOf(source)] == Held(n, source.stream)
    ensures var w := DroppedBlock(v, n, source, reason, m, write);
      && Moving(w, m, stale - {SlotOf(source)}, {}, positions + {|v.trace|})
      && w.device == v.device - {SlotOf(source)}
  {
    var ev := MoveEvent(Trim, n, source, reason, m, Some(write));
    DropMatches(v.device, v.store, stale, SlotOf(source));
    AddressesRemove(v.device, SlotOf(source));
    ReturnOccupies(v.tiers.slc, Addresses(v.device, Slc), source.address);
    ReplayAppend(v.trace, ev);
    NothingHandedOut(v.trace, v.tiers, {}, ev, DroppedBlock(v, n, source, reason, m, write).tiers);
    AppendRecorded(v.trace, v.moves, Some(m), ev);
    OnlyAtAppend(v.trace, m, positions, ev);
    assert Addresses(v.device, Tlc) + {} == Addresses(v.device, Tlc);
  }

  /** With the last source trimmed the relocation is complete. */
  lemma FinishMoving(v: State, m: nat, positions: set<nat>, r: Relocation)
    requires Moving(v, m, {}, {}, positions) && RelocationOk(v.trace, m, r)
    ensures Sound(v.(moves := v.moves[m := r]))
  {
    var moves := v.moves[m := r];
    forall y: nat ensures EventRecorded(v.trace, moves, None, y) { assert EventRecorded(v.trace, v.moves, Some(m), y); }
    forall k: nat ensures MoveComplete(v.trace, moves, k) { assert MoveComplete(v.trace, v.moves, k); }
    assert Addresses(v.device, Tlc) + {} == Addresses(v.device, Tlc);
  }

  /** The events of a relocation, where its loops have put them. */
  ghost predicate ReadAt(trace: seq<IoEvent>, m: nat, reason: Reason, hit: Option<Id>, n: Id, l: Location, i: nat) {
    i < |trace| && trace[i] == MoveEvent(Read, n, l, if hit == Some(n) then StorageHit else reason, m, None)
  }

  ghost predicate WriteAt(trace: seq<IoEvent>, m: nat, reason: Reason, n: Id, l: Location, read: nat, j: nat) {
    read < j < |trace| && trace[j] == MoveEvent(Write, n, l, reason, m, Some(read))
  }

  ghost predicate TrimAt(trace: seq<IoEvent>, m: nat, reason: Reason, n: Id, l: Location, write: nat, k: nat) {
    write < k < |trace| && trace[k] == MoveEvent(Trim, n, l, reason, m, Some(write))
  }

  ghost predicate AllRead(trace: seq<IoEvent>, m: nat, reason: Reason, hit: Option<Id>, nodes: seq<Id>, from: seq<Location>, sources: seq<nat>) {
    |from| == |sources| == |nodes| && forall x | 0 <= x < |nodes| :: ReadAt(trace, m, reason, hit, nodes[x], from[x], sources[x])
  }

  ghost predicate AllWritten(trace: seq<IoEvent>, m: nat, reason: Reason, nodes: seq<Id>, to: seq<Location>, sources: seq<nat>, writes: nat, i: nat) {
    && |to| == |sources| == |nodes| && i <= |nodes|
    && forall x | 0 <= x < i :: WriteAt(trace, m, reason, nodes[x], to[x], sources[x], writes + x)
  }

  ghost predicate AllTrimmed(trace: seq<IoEvent>, m: nat, reason: Reason, nodes: seq<Id>, from: seq<Location>, writes: nat, trims: nat, i: nat) {
    && |from| == |nodes| && i <= |nodes|
    && forall x | 0 <= x < i :: TrimAt(trace, m, reason, nodes[x], from[x], writes + x, trims + x)
  }

  ghost predicate ReasonOk(nodes: seq<Id>, reason: Reason, hit: Option<Id>) {
    && reason in {CapacityEviction, AccessMigration, BackgroundMigration}
    && (reason == AccessMigration <==> hit.Some?) && (hit.Some? ==> hit.value in nodes)
  }

  ghost predicate AllNamed(r: Relocation, positions: set<nat>) { forall y <- positions :: Named(r, y) }

  lemma PositionsNamed(r: Relocation, k: nat)
    requires |r.sources| == k
    ensures AllNamed(r, Elems(r.sources) + Range(r.writes, k) + Range(r.trims, k))
  {
    forall y | y in Elems(r.sources) + Range(r.writes, k) + Range(r.trims, k) ensures Named(r, y) {
      if y in r.sources {
        var x :| 0 <= x < |r.sources| && r.sources[x] == y;
        assert NamedAt(r, y, x);
      } else if y in Range(r.writes, k) {
        assert NamedAt(r, y, y - r.writes);
      } else {
        assert NamedAt(r, y, y - r.trims);
      }
    }
  }

  /** The events of the three loops make up one complete relocation. */
  lemma AssembleRelocation(t: seq<IoEvent>, u: seq<IoEvent>, trace: seq<IoEvent>, m: nat, nodes: seq<Id>, from: seq<Location>,
                           to: seq<Location>, reason: Reason, hit: Option<Id>, sources: seq<nat>, positions: set<nat>)
    requires t <= u <= trace && Distinct(nodes) && ReasonOk(nodes, reason, hit)
    requires AllRead(t, m, reason, hit, nodes, from, sources)
    requires AllWritten(u, m, reason, nodes, to, sources, |t|, |nodes|)
    requires AllTrimmed(trace, m, reason, nodes, from, |t|, |u|, |nodes|)
    requires forall x | 0 <= x < |nodes| :: from[x].tier == Slc && to[x].tier == Tlc
    requires OnlyAt(trace, m, positions) && AllNamed(Relocation(reason, nodes, sources, |t|, |u|, hit), positions)
    ensures RelocationOk(trace, m, Relocation(reason, nodes, sources, |t|, |u|, hit))
  {
    var r := Relocation(reason, nodes, sources, |t|, |u|, hit);
    forall x | 0 <= x < |nodes| ensures BlockMoved(trace, m, r, x) {
      assert ReadAt(t, m, reason, hit, nodes[x], from[x], sources[x]);
      assert WriteAt(u, m, reason, nodes[x], to[x], sources[x], |t| + x);
      assert TrimAt(trace, m, reason, nodes[x], from[x], |t| + x, |u| + x);
    }
    forall y: nat ensures Accounted(trace, m, r, y) { assert AtPosition(trace, m, positions, y); }
  }

  // ---- The loops of a relocation ----

  function Max(a: int, b: int): int { if a > b then a else b }

  function NodeOf(hit: Option<(Id, nat)>): Option<Id> { if hit.Some? then Some(hit.value.0) else None }

  function AddressesOf(to: seq<Location>): set<nat> { set l | l in to :: l.address }

  lemma AddressesOfAppend(to: seq<Location>, l: Location)
    ensures AddressesOf(to + [l]) == AddressesOf(to) + {l.address}
    ensures forall x | 0 <= x < |to| :: to[x].address in AddressesOf(to)
  {
    forall a: nat ensures a in AddressesOf(to + [l]) <==> a in AddressesOf(to) + {l.address} {
      if a in AddressesOf(to) { var k :| k in to && k.address == a; assert k in to + [l]; }
      if a == l.address { assert l in to + [l]; }
    }
  }

  lemma AppendElems<T>(s: seq<T>, x: T)
    ensures Elems(s + [x]) == Elems(s) + {x}
  {}

  /** Some destinations have been allocated: TLC addresses of one stream, all different. */
  ghost predicate Reserving(v: State, w: State, to: seq<Location>, stream: nat) {
    && w == v.(tiers := w.tiers) && w.tiers.slc == v.tiers.slc
    && (forall x | 0 <= x < |to| :: to[x].tier == Tlc && to[x].stream == stream)
    && (forall x, y | 0 <= x < y < |to| :: to[x].address != to[y].address)
    && Used(w, Tlc) == Used(v, Tlc) + |to|
    && Peak(w, Tlc) == Max(Peak(v, Tlc), Used(w, Tlc))
  }

  lemma ReserveOne(v: State, w: State, to: seq<Location>, stream: nat)
    requires Reserving(v, w, to, stream) && NextAddress(w.tiers.tlc) !in AddressesOf(to)
    ensures Reserving(v, ReservedBlock(w), to + [Location(Tlc, NextAddress(w.tiers.tlc), stream)], stream)
  {
    AddressesOfAppend(to, Location(Tlc, NextAddress(w.tiers.tlc), stream));
  }

  /** The read of the storage hit that an access migration reuses is the only event so far. */
  ghost predicate HitRead(v: State, m: nat, nodes: seq<Id>, reason: Reason, hit: Option<(Id, nat)>, start: set<nat>)
    requires forall n <- nodes :: n in v.store
  {
    if hit.None? then start == {}
    else start == {hit.value.1} && hit.value.0 in nodes
         && ReadAt(v.trace, m, reason, NodeOf(hit), hit.value.0, v.store[hit.value.0], hit.value.1)
  }

  /** The first blocks have been read; their reads are at `sources`. */
  ghost predicate Reading(v: State, w: State, m: nat, nodes: seq<Id>, reason: Reason, hit: Option<(Id, nat)>, sources: seq<nat>)
    requires forall n <- nodes :: n in v.store
  {
    && w == v.(trace := w.trace) && v.trace <= w.trace && |sources| <= |nodes|
    && (forall x | 0 <= x < |sources| :: ReadAt(w.trace, m, reason, NodeOf(hit), nodes[x], v.store[nodes[x]], sources[x]))
    && (hit.Some? && hit.value.0 in nodes[..|sources|] ==> hit.value.1 in sources)
  }

  lemma ReadOne(v: State, w: State, m: nat, nodes: seq<Id>, reason: Reason, hit: Option<(Id, nat)>, sources: seq<nat>, u: State, i: nat)
    requires (forall n <- nodes :: n in v.store) && |sources| < |nodes|
    requires Reading(v, w, m, nodes, reason, hit, sources) && u == w.(trace := u.trace) && w.trace <= u.trace
    requires ReadAt(u.trace, m, reason, NodeOf(hit), nodes[|sources|], v.store[nodes[|sources|]], i)
    requires hit.Some? && hit.value.0 == nodes[|sources|] ==> i == hit.value.1
    ensures Reading(v, u, m, nodes, reason, hit, sources + [i])
  {
    assert nodes[..|sources| + 1] == nodes[..|sources|] + [nodes[|sources|]];
    forall x | 0 <= x < |sources|
      ensures ReadAt(u.trace, m, reason, NodeOf(hit), nodes[x], v.store[nodes[x]], sources[x])
    {
      assert ReadAt(w.trace, m, reason, NodeOf(hit), nodes[x], v.store[nodes[x]], sources[x]);
    }
  }

  /** The read loop: what has been read, and the relocation under way. */
  ghost predicate ReadSoFar(v: State, w: State, m: nat, nodes: seq<Id>, reason: Reason, hit: Option<(Id, nat)>, reserved: set<nat>,
                            start: set<nat>, sources: seq<nat>) {
    && (forall n <- nodes :: n in v.store) && Reading(v, w, m, nodes, reason, hit, sources)
    && Moving(w, m, {}, reserved, start + Elems(sources))
  }

  lemma ReadStart(v: State, m: nat, nodes: seq<Id>, reason: Reason, hit: Option<(Id, nat)>, reserved: set<nat>, start: set<nat>)
    requires (forall n <- nodes :: n in v.store) && Moving(v, m, {}, reserved, start)
    ensures ReadSoFar(v, v, m, nodes, reason, hit, reserved, start, []) == true
  {
    assert start + Elems([]) == start;
  }

  /** The block whose storage hit has just been read needs no further read. */
  lemma ReadReused(v: State, w: State, m: nat, nodes: seq<Id>, reason: Reason, hit: Option<(Id, nat)>, reserved: set<nat>,
                   start: set<nat>, sources: seq<nat>)
    requires |sources| < |nodes| && ReadSoFar(v, w, m, nodes, reason, hit, reserved, start, sources)
    requires HitRead(v, m, nodes, reason, hit, start) && hit.Some? && hit.value.0 == nodes[|sources|]
    ensures ReadSoFar(v, w, m, nodes, reason, hit, reserved, start, sources + [hit.value.1]) == true
  {
    var i := hit.value.1;
    AppendElems(sources, i);
    assert start + Elems(sources + [i]) == start + Elems(sources);
    ReadOne(v, w, m, nodes, reason, hit, sources, w, i);
  }

  lemma ReadNext(v: State, w: State, m: nat, nodes: seq<Id>, reason: Reason, hit: Option<(Id, nat)>, reserved: set<nat>,
                 start: set<nat>, sources: seq<nat>)
    requires |sources| < |nodes| && ReadSoFar(v, w, m, nodes, reason, hit, reserved, start, sources)
    requires hit.None? || hit.value.0 != nodes[|sources|]
    ensures nodes[|sources|] in w.store
    ensures var n := nodes[|sources|];
      ReadSoFar(v, Emitted(w, MoveEvent(Read, n, w.store[n], reason, m, None)), m, nodes, reason, hit, reserved, start,
                sources + [|w.trace|]) == true
  {
    var n := nodes[|sources|];
    var i: nat := |w.trace|;
    var longer: seq<nat> := sources + [i];
    assert n in nodes;
    var u := Emitted(w, MoveEvent(Read, n, w.store[n], reason, m, None));
    var positions, after := start + Elems(sources), start + Elems(longer);
    assert after == positions + {i} by { AppendElems(sources, i); }
    ReadStep(w, m, reserved, positions, n, reason);
    assert Moving(u, m, {}, reserved, after);
    assert Reading(v, u, m, nodes, reason, hit, longer) == true by {
      assert ReadAt(u.trace, m, reason, NodeOf(hit), n, v.store[n], i);
      ReadOne(v, w, m, nodes, reason, hit, sources, u, i);
    }
  }

  lemma ReadDone(v: State, w: State, m: nat, nodes: seq<Id>, reason: Reason, hit: Option<(Id, nat)>, reserved: set<nat>,
                 start: set<nat>, sources: seq<nat>)
    requires |sources| == |nodes| && ReadSoFar(v, w, m, nodes, reason, hit, reserved, start, sources)
    requires HitRead(v, m, nodes, reason, hit, start)
    ensures Moving(w, m, {}, reserved, Elems(sources)) == true
  {
    assert nodes[..|nodes|] == nodes;
    assert start + Elems(sources) == Elems(sources);
  }

  function StaleOf(from: seq<Location>): set<Slot> { set l | l in from :: SlotOf(l) }

  lemma StaleOfSplit(from: seq<Location>, i: nat)
    requires i < |from|
    ensures StaleOf(from[..i + 1]) == StaleOf(from[..i]) + {SlotOf(from[i])}
    ensures StaleOf(from[i..]) == StaleOf(from[i + 1..]) + {SlotOf(from[i])}
  {
    var a, b := from[..i], from[i + 1..];
    assert from[..i + 1] == a + [from[i]] && from[i..] == [from[i]] + b;
    forall s: Slot
      ensures s in StaleOf(from[..i + 1]) <==> s in StaleOf(a) + {SlotOf(from[i])}
      ensures s in StaleOf(from[i..]) <==> s in StaleOf(b) + {SlotOf(from[i])}
    {
      if s in StaleOf(a) { var l :| l in a && SlotOf(l) == s; assert l in from[..i + 1]; }
      if s in StaleOf(b) { var l :| l in b && SlotOf(l) == s; assert l in from[i..]; }
      assert from[i] in from[..i + 1] && from[i] in from[i..];
    }
  }

  lemma AddressesOfRest(to: seq<Location>, i: nat)
    requires i < |to| && forall x, y | 0 <= x < y < |to| :: to[x].address != to[y].address
    ensures to[i].address in AddressesOf(to[i..]) && AddressesOf(to[i + 1..]) == AddressesOf(to[i..]) - {to[i].address}
  {
    var rest := to[i + 1..];
    assert to[i..] == [to[i]] + rest && to[i] in to[i..];
    forall a: nat ensures a in AddressesOf(rest) <==> a in AddressesOf(to[i..]) - {to[i].address} {
      if a in AddressesOf(rest) {
        var l :| l in rest && l.address == a;
        var k :| 0 <= k < |rest| && rest[k] == l;
        assert to[i + 1 + k] == l && l in to[i..];
      }
    }
  }

  function Range(start: nat, n: nat): (range: set<nat>)
    ensures forall y :: y in range <==> start <= y < start + n
  {
    if n == 0 then {} else Range(start, n - 1) + {start + n - 1}
  }

  /** Where the reads and the first `i` writes of a relocation are. */
  function SoFar(sources: seq<nat>, writes: nat, i: nat): set<nat> { Elems(sources) + Range(writes, i) }

  /** The first `i` blocks have been written to their destinations; their sources are still held. */
  ghost predicate Writing(v: State, w: State, m: nat, nodes: seq<Id>, from: seq<Location>, to: seq<Location>,
                          reason: Reason, sources: seq<nat>, i: nat)
    requires |nodes| == |from| == |to| == |sources|
  {
    && i <= |nodes|
    && w == v.(trace := w.trace, store := w.store, device := w.device)
    && v.trace <= w.trace && |w.trace| == |v.trace| + i
    && AllWritten(w.trace, m, reason, nodes, to, sources, |v.trace|, i)
    && w.store.Keys == v.store.Keys
    && (forall x | 0 <= x < i :: nodes[x] in w.store && w.store[nodes[x]] == to[x])
    && (forall n <- v.store :: n in nodes[..i] || w.store[n] == v.store[n])
    && (forall x | 0 <= x < i :: SlotHolds(w.device, from[x], nodes[x]))
  }

  ghost predicate SlotHolds(d: Device, l: Location, n: Id) { SlotOf(l) in d && d[SlotOf(l)] == Held(n, l.stream) }

  lemma WriteOne(v: State, w: State, m: nat, nodes: seq<Id>, from: seq<Location>, to: seq<Location>,
                 reason: Reason, sources: seq<nat>, i: nat)
    requires |nodes| == |from| == |to| == |sources| && i < |nodes| && Distinct(nodes)
    requires Writing(v, w, m, nodes, from, to, reason, sources, i)
    requires nodes[i] in v.store && v.store[nodes[i]] == from[i] && sources[i] < |v.trace|
    requires SlotOf(to[i]) !in w.device && SlotHolds(w.device, from[i], nodes[i])
    requires Apply(w.device, MoveEvent(Write, nodes[i], to[i], reason, m, Some(sources[i]))).Some?
    ensures Writing(v, WrittenBlock(w, nodes[i], to[i], reason, m, sources[i]), m, nodes, from, to, reason, sources,
            i + 1) == true
  {
    var u := WrittenBlock(w, nodes[i], to[i], reason, m, sources[i]);
    PrefixStep(nodes, i);
    forall x | 0 <= x < i + 1 ensures WriteAt(u.trace, m, reason, nodes[x], to[x], sources[x], |v.trace| + x) == true {
      if x < i { assert WriteAt(w.trace, m, reason, nodes[x], to[x], sources[x], |v.trace| + x); }
    }
    forall x | 0 <= x < i + 1 ensures nodes[x] in u.store && u.store[nodes[x]] == to[x] {
      if x < i { assert nodes[x] != nodes[i]; }
    }
    forall x | 0 <= x < i + 1 ensures SlotHolds(u.device, from[x], nodes[x]) == true {
      if x < i { assert SlotHolds(w.device, from[x], nodes[x]); }
    }
  }

  /** The first `i` sources have been trimmed and their addresses returned. */
  ghost predicate Dropping(v: State, w: State, m: nat, nodes: seq<Id>, from: seq<Location>, reason: Reason, writes: nat, i: nat)
    requires |nodes| == |from|
  {
    && i <= |nodes|
    && w == v.(trace := w.trace, tiers := w.tiers, device := w.device)
    && v.trace <= w.trace && |w.trace| == |v.trace| + i
    && AllTrimmed(w.trace, m, reason, nodes, from, writes, |v.trace|, i)
    && w.tiers.tlc == v.tiers.tlc && Used(w, Slc) == Used(v, Slc) - i && Peak(w, Slc) == Peak(v, Slc)
    && (forall x | i <= x < |nodes| :: SlotHolds(w.device, from[x], nodes[x]))
  }

  lemma DropOne(v: State, w: State, m: nat, nodes: seq<Id>, from: seq<Location>, reason: Reason, writes: nat, i: nat)
    requires |nodes| == |from| && i < |nodes| && writes + |nodes| <= |v.trace|
    requires Dropping(v, w, m, nodes, from, reason, writes, i)
    requires forall x, y | 0 <= x < y < |from| :: SlotOf(from[x]) != SlotOf(from[y])
    requires Apply(w.device, MoveEvent(Trim, nodes[i], from[i], reason, m, Some(writes + i))).Some?
    ensures Dropping(v, DroppedBlock(w, nodes[i], from[i], reason, m, writes + i), m, nodes, from, reason, writes, i + 1) == true
  {
    var u := DroppedBlock(w, nodes[i], from[i], reason, m, writes + i);
    forall x | 0 <= x < i + 1 ensures TrimAt(u.trace, m, reason, nodes[x], from[x], writes + x, |v.trace| + x) {
      if x < i { assert TrimAt(w.trace, m, reason, nodes[x], from[x], writes + x, |v.trace| + x); }
    }
    forall x | i + 1 <= x < |nodes| ensures SlotHolds(u.device, from[x], nodes[x]) {
      assert SlotHolds(w.device, from[x], nodes[x]);
    }
  }

  lemma LaterSlots(from: seq<Location>, i: nat)
    requires i < |from| && forall x, y | 0 <= x < y < |from| :: SlotOf(from[x]) != SlotOf(from[y])
    ensures SlotOf(from[i]) !in StaleOf(from[i + 1..])
  {
    var rest := from[i + 1..];
    forall l | l in rest ensures SlotOf(l) != SlotOf(from[i]) {
      var k :| 0 <= k < |rest| && rest[k] == l;
      assert from[i + 1 + k] == l;
    }
  }

  /** The write loop's step, for the part of the state that is under way. */
  lemma WriteMoving(w: State, m: nat, start: set<nat>, done: nat, n: Id, from: seq<Location>, to: seq<Location>,
                    reason: Reason, read: nat, i: nat)
    requires |from| == |to| && i < |to| && n in w.store && w.store[n] == from[i] && to[i].tier == Tlc
    requires forall x, y | 0 <= x < y < |to| :: to[x].address != to[y].address
    requires Moving(w, m, StaleOf(from[..i]), AddressesOf(to[i..]), start + Range(done, i)) && |w.trace| == done + i
    ensures Moving(WrittenBlock(w, n, to[i], reason, m, read), m, StaleOf(from[..i + 1]), AddressesOf(to[i + 1..]),
                   start + Range(done, i + 1)) == true
    ensures SlotOf(to[i]) !in w.device && SlotHolds(w.device, from[i], n)
  {
    StaleOfSplit(from, i);
    AddressesOfRest(to, i);
    assert start + Range(done, i + 1) == start + Range(done, i) + {done + i};
    WriteStep(w, m, StaleOf(from[..i]), AddressesOf(to[i..]), start + Range(done, i), n, to[i], reason, read);
  }

  /** The trim loop's step, for the part of the state that is under way. */
  lemma DropMoving(w: State, m: nat, start: set<nat>, done: nat, n: Id, from: seq<Location>, reason: Reason, write: nat, i: nat)
    requires i < |from| && from[i].tier == Slc && SlotHolds(w.device, from[i], n)
    requires forall x, y | 0 <= x < y < |from| :: SlotOf(from[x]) != SlotOf(from[y])
    requires Moving(w, m, StaleOf(from[i..]), {}, start + Range(done, i)) && |w.trace| == done + i
    ensures Moving(DroppedBlock(w, n, from[i], reason, m, write), m, StaleOf(from[i + 1..]), {}, start + Range(done, i + 1)) == true
  {
    StaleOfSplit(from, i);
    LaterSlots(from, i);
    assert StaleOf(from[i..]) - {SlotOf(from[i])} == StaleOf(from[i + 1..]);
    assert start + Range(done, i + 1) == start + Range(done, i) + {done + i};
    DropStep(w, m, StaleOf(from[i..]), start + Range(done, i), n, from[i], reason, write);
  }

  ghost predicate CanWrite(v: State, nodes: seq<Id>, from: seq<Location>, to: seq<Location>, sources: seq<nat>) {
    && |nodes| == |from| == |to| == |sources| && Distinct(nodes)
    && (forall x | 0 <= x < |nodes| ::
          nodes[x] in v.store && v.store[nodes[x]] == from[x] && sources[x] < |v.trace| && to[x].tier == Tlc)
    && (forall x, y | 0 <= x < y < |to| :: to[x].address != to[y].address)
  }

  ghost predicate Written(v: State, w: State, m: nat, nodes: seq<Id>, from: seq<Location>, to: seq<Location>,
                          reason: Reason, sources: seq<nat>, i: nat) {
    && |nodes| == |from| == |to| == |sources| && i <= |nodes|
    && Writing(v, w, m, nodes, from, to, reason, sources, i)
    && Moving(w, m, StaleOf(from[..i]), AddressesOf(to[i..]), SoFar(sources, |v.trace|, i))
  }

  lemma WritingStart(v: State, m: nat, nodes: seq<Id>, from: seq<Location>, to: seq<Location>, reason: Reason, sources: seq<nat>)
    requires CanWrite(v, nodes, from, to, sources) && Moving(v, m, {}, AddressesOf(to), Elems(sources))
    ensures |nodes| == |from| == |to| == |sources| && Written(v, v, m, nodes, from, to, reason, sources, 0) == true
  {
    assert StaleOf(from[..0]) == {} && to[0..] == to;
    assert Elems(sources) + Range(|v.trace|, 0) == Elems(sources);
  }

  lemma WriteNext(v: State, w: State, m: nat, nodes: seq<Id>, from: seq<Location>, to: seq<Location>,
                  reason: Reason, sources: seq<nat>, i: nat)
    requires CanWrite(v, nodes, from, to, sources) && i < |nodes| && Written(v, w, m, nodes, from, to, reason, sources, i)
    ensures |nodes| == |from| == |to| == |sources|
    ensures Written(v, WrittenBlock(w, nodes[i], to[i], reason, m, sources[i]), m, nodes, from, to, reason, sources, i + 1) == true
  {
    assert nodes[i] !in nodes[..i];
    WriteMoving(w, m, Elems(sources), |v.trace|, nodes[i], from, to, reason, sources[i], i);
    WriteOne(v, w, m, nodes, from, to, reason, sources, i);
  }

  ghost predicate CanDrop(v: State, nodes: seq<Id>, from: seq<Location>, writes: nat) {
    && |nodes| == |from| && writes + |nodes| <= |v.trace|
    && (forall x | 0 <= x < |from| :: from[x].tier == Slc && SlotHolds(v.device, from[x], nodes[x]))
    && (forall x, y | 0 <= x < y < |from| :: SlotOf(from[x]) != SlotOf(from[y]))
  }

  ghost predicate Dropped(v: State, w: State, m: nat, nodes: seq<Id>, from: seq<Location>, reason: Reason, writes: nat,
                          positions: set<nat>, i: nat) {
    && |nodes| == |from| && i <= |nodes|
    && Dropping(v, w, m, nodes, from, reason, writes, i)
    && Moving(w, m, StaleOf(from[i..]), {}, positions + Range(|v.trace|, i))
  }

  lemma DroppingStart(v: State, m: nat, nodes: seq<Id>, from: seq<Location>, reason: Reason, writes: nat, positions: set<nat>)
    requires CanDrop(v, nodes, from, writes) && Moving(v, m, StaleOf(from), {}, positions)
    ensures |nodes| == |from| && Dropped(v, v, m, nodes, from, reason, writes, positions, 0)
  {
    assert from[0..] == from && positions + Range(|v.trace|, 0) == positions;
  }

  lemma DropNext(v: State, w: State, m: nat, nodes: seq<Id>, from: seq<Location>, reason: Reason, writes: nat,
                 positions: set<nat>, i: nat)
    requires CanDrop(v, nodes, from, writes) && i < |nodes| && Dropped(v, w, m, nodes, from, reason, writes, positions, i)
    ensures |nodes| == |from|
    ensures Dropped(v, DroppedBlock(w, nodes[i], from[i], reason, m, writes + i), m, nodes, from, reason, writes, positions, i + 1) == true
  {
    var u := DroppedBlock(w, nodes[i], from[i], reason, m, writes + i);
    assert SlotHolds(w.device, from[i], nodes[i]);
    DropMoving(w, m, positions, |v.trace|, nodes[i], from, reason, writes + i, i);
    DropOne(v, w, m, nodes, from, reason, writes, i);
  }

  // ---- A whole relocation ----

  ghost predicate Movable(v: State, nodes: seq<Id>) {
    Distinct(nodes) && forall n <- nodes :: n in v.store && v.store[n].tier == Slc
  }

  ghost predicate FromOf(v: State, nodes: seq<Id>, from: seq<Location>) {
    |from| == |nodes| && forall x | 0 <= x < |nodes| :: nodes[x] in v.store && from[x] == v.store[nodes[x]]
  }

  lemma SourcesDistinct(v: State, nodes: seq<Id>, from: seq<Location>)
    requires Matches(v.device, v.store, {}) && Movable(v, nodes) && FromOf(v, nodes, from)
    ensures forall x, y | 0 <= x < y < |from| :: SlotOf(from[x]) != SlotOf(from[y])
  {
    forall x, y | 0 <= x < y < |from| ensures SlotOf(from[x]) != SlotOf(from[y]) {
      if SlotOf(from[x]) == SlotOf(from[y]) { LocationsDistinct(v.device, v.store, nodes[x], nodes[y]); }
    }
  }

  lemma CanWriteNow(v: State, nodes: seq<Id>, from: seq<Location>, to: seq<Location>, m: nat, reason: Reason,
                    hit: Option<Id>, sources: seq<nat>)
    requires Movable(v, nodes) && FromOf(v, nodes, from) && |to| == |nodes| == |sources|
    requires forall x | 0 <= x < |to| :: to[x].tier == Tlc
    requires forall x, y | 0 <= x < y < |to| :: to[x].address != to[y].address
    requires AllRead(v.trace, m, reason, hit, nodes, from, sources)
    ensures CanWrite(v, nodes, from, to, sources)
  {
    forall x | 0 <= x < |nodes| ensures sources[x] < |v.trace| {
      assert ReadAt(v.trace, m, reason, hit, nodes[x], from[x], sources[x]);
    }
  }

  lemma CanDropNow(v: State, w: State, m: nat, nodes: seq<Id>, from: seq<Location>, to: seq<Location>, reason: Reason, sources: seq<nat>)
    requires Movable(v, nodes) && FromOf(v, nodes, from) && Matches(v.device, v.store, {})
    requires Written(v, w, m, nodes, from, to, reason, sources, |nodes|)
    ensures CanDrop(w, nodes, from, |v.trace|) && Moving(w, m, StaleOf(from), {}, SoFar(sources, |v.trace|, |nodes|)) == true
  {
    SourcesDistinct(v, nodes, from);
    assert from[..|nodes|] == from && to[|nodes|..] == [];
    assert AddressesOf([]) == {};
    forall x | 0 <= x < |from| ensures from[x].tier == Slc && SlotHolds(w.device, from[x], nodes[x]) {
      assert nodes[x] in nodes;
    }
  }

  /** The outcome of a relocation: its blocks are in TLC, in the stream asked for, and it is on record with its blocks
      and its reason, which its events in the log carry; nothing else has changed. */
  ghost predicate MovedBlocks(v: State, w: State, m: nat, nodes: seq<Id>, stream: nat, reason: Reason) {
    && w.tree == v.tree && w.memory == v.memory && w.active == v.active && w.moves.Keys == v.moves.Keys + {m}
    && w.moves[m].nodes == nodes && w.moves[m].reason == reason
    && v.trace <= w.trace
    && w.store.Keys == v.store.Keys
    && (forall n <- v.store :: if n in nodes then InStream(w.store, n, stream) else w.store[n] == v.store[n])
    && Used(w, Slc) == Used(v, Slc) - |nodes| && Peak(w, Slc) == Peak(v, Slc)
    && Used(w, Tlc) == Used(v, Tlc) + |nodes| && Peak(w, Tlc) == Max(Peak(v, Tlc), Used(w, Tlc))
  }

  ghost predicate InStream(store: map<Id, Location>, n: Id, stream: nat) {
    n in store && store[n].tier == Tlc && store[n].stream == stream
  }

  ghost predicate BlocksMoved(v: State, w: State, nodes: seq<Id>, stream: nat, reason: Reason) {
    exists m :: MovedBlocks(v, w, m, nodes, stream, reason)
  }

  lemma MoveKeeps(v: State, w: State, m: nat, nodes: seq<Id>, stream: nat, reason: Reason)
    requires MovedBlocks(v, w, m, nodes, stream, reason) == true
    ensures w.tree == v.tree && w.memory == v.memory && Peak(w, Slc) == Peak(v, Slc)
  {}

  function LocationsOf(nodes: seq<Id>, store: map<Id, Location>): (from: seq<Location>)
    requires forall n <- nodes :: n in store
    ensures |from| == |nodes| && forall x | 0 <= x < |nodes| :: from[x] == store[nodes[x]]
  {
    if nodes == [] then [] else [store[nodes[0]]] + LocationsOf(nodes[1..], store)
  }

  /** From `v`, destinations have been allocated and sources read (`w`) and every block has been written (`u`). */
  ghost predicate Copied(v: State, w: State, u: State, m: nat, nodes: seq<Id>, from: seq<Location>, to: seq<Location>,
                         stream: nat, reason: Reason, hit: Option<(Id, nat)>, sources: seq<nat>) {
    && Movable(v, nodes) && FromOf(v, nodes, from) && |to| == |sources| == |nodes|
    && Reserving(v, v.(tiers := w.tiers), to, stream) && Reading(v.(tiers := w.tiers), w, m, nodes, reason, hit, sources)
    && Writing(w, u, m, nodes, from, to, reason, sources, |nodes|)
  }

  lemma ReadTogether(v: State, w: State, m: nat, nodes: seq<Id>, from: seq<Location>, reason: Reason, hit: Option<(Id, nat)>, sources: seq<nat>)
    requires FromOf(v, nodes, from) && (forall n <- nodes :: n in v.store)
    requires Reading(v, w, m, nodes, reason, hit, sources) && |sources| == |nodes|
    ensures AllRead(w.trace, m, reason, NodeOf(hit), nodes, from, sources)
  {}

  lemma MoveOk(v: State, w: State, u: State, x: State, m: nat, nodes: seq<Id>, from: seq<Location>, to: seq<Location>,
               stream: nat, reason: Reason, hit: Option<(Id, nat)>, sources: seq<nat>, positions: set<nat>)
    requires ReasonOk(nodes, reason, NodeOf(hit))
    requires Copied(v, w, u, m, nodes, from, to, stream, reason, hit, sources) && Dropping(u, x, m, nodes, from,
            reason, |w.trace|, |nodes|)
    requires OnlyAt(x.trace, m, positions)
    requires AllNamed(Relocation(reason, nodes, sources, |w.trace|, |u.trace|, NodeOf(hit)), positions)
    ensures RelocationOk(x.trace, m, Relocation(reason, nodes, sources, |w.trace|, |u.trace|, NodeOf(hit))) == true
  {
    forall x | 0 <= x < |nodes| ensures from[x].tier == Slc && to[x].tier == Tlc { assert nodes[x] in nodes; }
    ReadTogether(v.(tiers := w.tiers), w, m, nodes, from, reason, hit, sources);
    AssembleRelocation(w.trace, u.trace, x.trace, m, nodes, from, to, reason, NodeOf(hit), sources, positions);
  }

  lemma MoveOutcome(v: State, w: State, u: State, x: State, m: nat, nodes: seq<Id>, from: seq<Location>, to: seq<Location>,
                    stream: nat, reason: Reason, hit: Option<(Id, nat)>, sources: seq<nat>, r: Relocation)
    requires Copied(v, w, u, m, nodes, from, to, stream, reason, hit, sources) && Dropping(u, x, m, nodes, from,
            reason, |w.trace|, |nodes|)
    requires r.nodes == nodes && r.reason == reason
    ensures x.moves == v.moves && MovedBlocks(v, x.(moves := v.moves[m := r]), m, nodes, stream, reason)
  {
    assert nodes[..|nodes|] == nodes;
    forall n | n in v.store ensures if n in nodes then InStream(x.store, n, stream) else x.store[n] == v.store[n] {
      if n in nodes { var i :| 0 <= i < |nodes| && nodes[i] == n; }
    }
  }

  lemma MoveFinished(v: State, w: State, u: State, x: State, m: nat, nodes: seq<Id>, from: seq<Location>, to: seq<Location>,
                     stream: nat, reason: Reason, hit: Option<(Id, nat)>, sources: seq<nat>)
    requires ReasonOk(nodes, reason, NodeOf(hit))
    requires Copied(v, w, u, m, nodes, from, to, stream, reason, hit, sources)
    requires Dropped(u, x, m, nodes, from, reason, |w.trace|, SoFar(sources, |w.trace|, |nodes|), |nodes|)
    ensures var r := Relocation(reason, nodes, sources, |w.trace|, |u.trace|, NodeOf(hit));
      && Sound(x.(moves := x.moves[m := r])) == true
      && MovedBlocks(v, x.(moves := x.moves[m := r]), m, nodes, stream, reason) == true
  {
    var r := Relocation(reason, nodes, sources, |w.trace|, |u.trace|, NodeOf(hit));
    var positions := Elems(sources) + Range(|w.trace|, |nodes|) + Range(|u.trace|, |nodes|);
    PositionsNamed(r, |nodes|);
    MoveOk(v, w, u, x, m, nodes, from, to, stream, reason, hit, sources, positions);
    MoveOutcome(v, w, u, x, m, nodes, from, to, stream, reason, hit, sources, r);
    assert from[|nodes|..] == [] && StaleOf([]) == {};
    FinishMoving(x, m, positions, r);
  }
}
