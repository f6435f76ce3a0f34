/** The I/O trace, a device that replays it, and the shape of the relocations recorded in it. */
module Trace {
  import opened Prelude
  import opened Tiers
  import opened Forest

  datatype Operation = Read | Write | Trim
  datatype Reason = StorageHit | MemoryDump | CapacityEviction | IdleEviction | AccessMigration | BackgroundMigration
  datatype Location = Location(tier: Tier, address: nat, stream: nat)

  /** One line of the trace; its sequence number is its position. */
  datatype IoEvent = IoEvent(op: Operation, node: Id, location: Location, reason: Reason,
                             move: Option<nat>, depends: Option<nat>)

  datatype Slot = Slot(tier: Tier, address: nat)
  datatype Held = Held(node: Id, stream: nat)
  type Device = map<Slot, Held>

  function SlotOf(l: Location): Slot { Slot(l.tier, l.address) }

  /** A device accepts a write to a free slot, and reads and trims that name the block held by the slot. */
  function Apply(d: Device, ev: IoEvent): Option<Device> {
    var slot, held := SlotOf(ev.location), Held(ev.node, ev.location.stream);
    match ev.op
    case Write => if slot in d then None else Some(d[slot := held])
    case Read => if slot in d && d[slot] == held then Some(d) else None
    case Trim => if slot in d && d[slot] == held then Some(d - {slot}) else None
  }

  function Replay(trace: seq<IoEvent>): Option<Device> {
    if trace == [] then Some(map[])
    else match Replay(trace[..|trace| - 1])
      case None => None
      case Some(d) => Apply(d, trace[|trace| - 1])
  }

  lemma ReplayAppend(trace: seq<IoEvent>, ev: IoEvent)
    ensures Replay(trace + [ev]) == match Replay(trace) case None => None case Some(d) => Apply(d, ev)
  {
    assert (trace + [ev])[..|trace|] == trace;
  }

  /** The addresses of a tier that have ever been written. */
  function WrittenTo(trace: seq<IoEvent>, tier: Tier): set<nat> {
    if trace == [] then {}
    else
      var ev := trace[|trace| - 1];
      WrittenTo(trace[..|trace| - 1], tier)
      + (if ev.op.Write? && ev.location.tier == tier then {ev.location.address} else {})
  }

  lemma WrittenAppend(trace: seq<IoEvent>, ev: IoEvent)
    ensures forall tier :: WrittenTo(trace + [ev], tier) ==
              WrittenTo(trace, tier) + (if ev.op.Write? && ev.location.tier == tier then {ev.location.address} else {})
  {
    assert (trace + [ev])[..|trace|] == trace;
  }

  // ---- Every event names a place that was written ----

  ghost predicate WrittenAt(trace: seq<IoEvent>, l: Location, j: nat) {
    j < |trace| && trace[j].op.Write? && trace[j].location == l
  }

  ghost predicate SlotWritten(trace: seq<IoEvent>, d: Device, s: Slot) {
    s in d ==> exists j :: WrittenAt(trace, Location(s.tier, s.address, d[s].stream), j)
  }

  /** What a device holds was written there. */
  lemma {:induction false} HeldWritten(trace: seq<IoEvent>, s: Slot)
    requires Replay(trace).Some?
    ensures SlotWritten(trace, Replay(trace).value, s)
  {
    if trace != [] {
      var before, ev := trace[..|trace| - 1], trace[|trace| - 1];
      HeldWritten(before, s);
      var d := Replay(before).value;
      if s in d && !(ev.op.Write? && SlotOf(ev.location) == s) {
        var j :| WrittenAt(before, Location(s.tier, s.address, d[s].stream), j);
        assert WrittenAt(trace, Location(s.tier, s.address, d[s].stream), j);
      }
      if ev.op.Write? { assert WrittenAt(trace, ev.location, |trace| - 1); }
    }
  }

  /** An accepted event names an address and a stream that were written together, by itself or before. */
  lemma {:induction false} EventWritten(trace: seq<IoEvent>, i: nat) returns (j: nat)
    requires Replay(trace).Some? && i < |trace|
    ensures j <= i && WrittenAt(trace, trace[i].location, j)
    decreases |trace|
  {
    var before := trace[..|trace| - 1];
    if i < |trace| - 1 {
      j := EventWritten(before, i);
    } else if trace[i].op.Write? {
      j := i;
    } else {
      HeldWritten(before, SlotOf(trace[i].location));
      j :| WrittenAt(before, trace[i].location, j);
    }
  }

  lemma {:induction false} WrittenMeans(trace: seq<IoEvent>, tier: Tier, a: nat)
    ensures a in WrittenTo(trace, tier) <==>
              exists j :: 0 <= j < |trace| && trace[j].op.Write? && trace[j].location.tier == tier && trace[j].location.address == a
  {
    if trace != [] {
      var before, ev := trace[..|trace| - 1], trace[|trace| - 1];
      WrittenMeans(before, tier, a);
      if a in WrittenTo(before, tier) {
        var j :| 0 <= j < |before| && before[j].op.Write? && before[j].location.tier == tier && before[j].location.address == a;
        assert trace[j] == before[j];
      }
      if j :| 0 <= j < |trace| && trace[j].op.Write? && trace[j].location.tier == tier && trace[j].location.address == a {
        if j < |before| { assert before[j] == trace[j]; }
      }
    }
  }

  // ---- The device holds the tree's storage copies ----

  ghost predicate CopyHeld(d: Device, store: map<Id, Location>, stale: set<Slot>, n: Id) {
    n in store ==>
      SlotOf(store[n]) in d && d[SlotOf(store[n])] == Held(n, store[n].stream) && SlotOf(store[n]) !in stale
  }

  ghost predicate SlotExplained(d: Device, store: map<Id, Location>, stale: set<Slot>, s: Slot) {
    s in d ==> s in stale || (d[s].node in store && SlotOf(store[d[s].node]) == s)
  }

  /** The device holds every storage copy at its location, and beside them only the `stale` slots: the sources
      of a relocation that is under way. */
  ghost predicate Matches(d: Device, store: map<Id, Location>, stale: set<Slot>) {
    && (forall n :: CopyHeld(d, store, stale, n))
    && (forall s :: SlotExplained(d, store, stale, s))
    && stale <= d.Keys
  }

  function Addresses(d: Device, tier: Tier): set<nat> { set s | s in d && s.tier == tier :: s.address }

  /** No two copies share an address. */
  lemma LocationsDistinct(d: Device, store: map<Id, Location>, a: Id, b: Id)
    requires Matches(d, store, {}) && a in store && b in store && SlotOf(store[a]) == SlotOf(store[b])
    ensures a == b
  {
    assert CopyHeld(d, store, {}, a) && CopyHeld(d, store, {}, b);
  }

  lemma WriteMatches(d: Device, store: map<Id, Location>, stale: set<Slot>, n: Id, l: Location)
    requires Matches(d, store, stale) && n !in store && SlotOf(l) !in d
    ensures Matches(d[SlotOf(l) := Held(n, l.stream)], store[n := l], stale)
    ensures Addresses(d[SlotOf(l) := Held(n, l.stream)], l.tier) == Addresses(d, l.tier) + {l.address}
    ensures forall tier :: tier != l.tier ==> Addresses(d[SlotOf(l) := Held(n, l.stream)], tier) == Addresses(d, tier)
  {
    var e, after := d[SlotOf(l) := Held(n, l.stream)], store[n := l];
    forall m: Id ensures CopyHeld(e, after, stale, m) { assert CopyHeld(d, store, stale, m); }
    forall s ensures SlotExplained(e, after, stale, s) { assert SlotExplained(d, store, stale, s); }
    AddressesAdd(d, SlotOf(l), Held(n, l.stream));
  }

  lemma AddressesAdd(d: Device, s: Slot, h: Held)
    ensures Addresses(d[s := h], s.tier) == Addresses(d, s.tier) + {s.address}
    ensures forall tier :: tier != s.tier ==> Addresses(d[s := h], tier) == Addresses(d, tier)
  {
    var e := d[s := h];
    forall tier: Tier, a: nat ensures a in Addresses(e, tier) <==> Slot(tier, a) in e {
      if Slot(tier, a) in e { assert Slot(tier, a).address == a; }
    }
    forall tier: Tier, a: nat ensures a in Addresses(d, tier) <==> Slot(tier, a) in d {
      if Slot(tier, a) in d { assert Slot(tier, a).address == a; }
    }
  }

  lemma AddressesRemove(d: Device, s: Slot)
    ensures s in d ==> s.address in Addresses(d, s.tier)
    ensures Addresses(d - {s}, s.tier) == Addresses(d, s.tier) - {s.address}
    ensures forall tier :: tier != s.tier ==> Addresses(d - {s}, tier) == Addresses(d, tier)
  {
    var e := d - {s};
    forall tier: Tier, a: nat ensures a in Addresses(e, tier) <==> Slot(tier, a) in e {
      if Slot(tier, a) in e { assert Slot(tier, a).address == a; }
    }
    forall tier: Tier, a: nat ensures a in Addresses(d, tier) <==> Slot(tier, a) in d {
      if Slot(tier, a) in d { assert Slot(tier, a).address == a; }
    }
  }

  lemma TrimMatches(d: Device, store: map<Id, Location>, n: Id)
    requires Matches(d, store, {}) && n in store
    ensures CopyHeld(d, store, {}, n) && Matches(d - {SlotOf(store[n])}, store - {n}, {})
  {
    var s := SlotOf(store[n]);
    var e, after := d - {s}, store - {n};
    assert CopyHeld(d, store, {}, n);
    forall m: Id ensures CopyHeld(e, after, {}, m) { assert CopyHeld(d, store, {}, m); }
    forall r ensures SlotExplained(e, after, {}, r) { assert SlotExplained(d, store, {}, r); }
  }

  /** A relocation's write: the copy moves, its source slot stays behind. */
  lemma MoveMatches(d: Device, store: map<Id, Location>, stale: set<Slot>, n: Id, l: Location)
    requires Matches(d, store, stale) && n in store && SlotOf(l) !in d
    ensures Matches(d[SlotOf(l) := Held(n, l.stream)], store[n := l], stale + {SlotOf(store[n])})
  {
    var source := SlotOf(store[n]);
    var e, after, left := d[SlotOf(l) := Held(n, l.stream)], store[n := l], stale + {source};
    assert CopyHeld(d, store, stale, n);
    forall m: Id ensures CopyHeld(e, after, left, m) { assert CopyHeld(d, store, stale, m); }
    forall s ensures SlotExplained(e, after, left, s) { assert SlotExplained(d, store, stale, s); }
  }

  /** A relocation's trim of a source slot. */
  lemma DropMatches(d: Device, store: map<Id, Location>, stale: set<Slot>, s: Slot)
    requires Matches(d, store, stale) && s in stale
    ensures Matches(d - {s}, store, stale - {s})
  {
    var e, left := d - {s}, stale - {s};
    forall m: Id ensures CopyHeld(e, store, left, m) { assert CopyHeld(d, store, stale, m); }
    forall r ensures SlotExplained(e, store, left, r) { assert SlotExplained(d, store, stale, r); }
  }

  // ---- Relocations ----

  /** Where the events of one relocation are: a read, a write and a trim for every moved block. */
  datatype Relocation = Relocation(reason: Reason, nodes: seq<Id>, sources: seq<nat>, writes: nat, trims: nat, hit: Option<Id>)

  /** The three events of the `x`-th block of a relocation. */
  ghost predicate BlockMoved(trace: seq<IoEvent>, m: nat, r: Relocation, x: nat)
    requires x < |r.nodes| && |r.sources| == |r.nodes|
  {
    var i, j, k := r.sources[x], r.writes + x, r.trims + x;
    && i < j < k < |trace|
    && trace[i].op.Read? && trace[j].op.Write? && trace[k].op.Trim?
    && trace[i].node == trace[j].node == trace[k].node == r.nodes[x]
    && trace[i].move == trace[j].move == trace[k].move == Some(m)
    && trace[i].location.tier == Slc && trace[j].location.tier == Tlc && trace[k].location == trace[i].location
    && trace[i].depends.None? && trace[j].depends == Some(i) && trace[k].depends == Some(j)
    && trace[j].reason == trace[k].reason == r.reason
    && trace[i].reason == if r.hit == Some(r.nodes[x]) then StorageHit else r.reason
  }

  ghost predicate NamedAt(r: Relocation, y: nat, x: nat) {
    x < |r.sources| && (y == r.sources[x] || y == r.writes + x || y == r.trims + x)
  }

  ghost predicate Named(r: Relocation, y: nat) { exists x :: NamedAt(r, y, x) }

  ghost predicate Accounted(trace: seq<IoEvent>, m: nat, r: Relocation, y: nat) {
    y < |trace| && trace[y].move == Some(m) ==> Named(r, y)
  }

  /** A complete relocation: its blocks are moved, all its events are theirs, and exactly an access migration
      reuses the read of the storage hit that caused it. */
  ghost predicate RelocationOk(trace: seq<IoEvent>, m: nat, r: Relocation) {
    && Distinct(r.nodes) && |r.sources| == |r.nodes|
    && r.reason in {CapacityEviction, AccessMigration, BackgroundMigration}
    && (forall x | 0 <= x < |r.nodes| :: BlockMoved(trace, m, r, x))
    && (forall y :: Accounted(trace, m, r, y))
    && (r.reason == AccessMigration <==> r.hit.Some?)
    && (r.hit.Some? ==> r.hit.value in r.nodes)
  }

  ghost predicate EventRecorded(trace: seq<IoEvent>, moves: map<nat, Relocation>, under: Option<nat>, y: nat) {
    y < |trace| ==>
      if trace[y].move.None? then trace[y].depends.None?
      else trace[y].move.value in moves || trace[y].move == under
  }

  ghost predicate MoveComplete(trace: seq<IoEvent>, moves: map<nat, Relocation>, m: nat) {
    m in moves ==> RelocationOk(trace, m, moves[m])
  }

  /** Every event with a move number belongs to a complete relocation, or to the one under way. */
  ghost predicate Recorded(trace: seq<IoEvent>, moves: map<nat, Relocation>, under: Option<nat>) {
    && (forall m :: MoveComplete(trace, moves, m))
    && (forall y :: EventRecorded(trace, moves, under, y))
  }

  /** Events of other moves do not disturb a complete relocation. */
  lemma AppendRelocation(trace: seq<IoEvent>, ev: IoEvent, m: nat, r: Relocation)
    requires RelocationOk(trace, m, r) && ev.move != Some(m)
    ensures RelocationOk(trace + [ev], m, r)
  {
    forall x | 0 <= x < |r.nodes| ensures BlockMoved(trace + [ev], m, r, x) { assert BlockMoved(trace, m, r, x); }
    forall y: nat ensures Accounted(trace + [ev], m, r, y) { assert Accounted(trace, m, r, y); }
  }

  lemma AppendRecorded(trace: seq<IoEvent>, moves: map<nat, Relocation>, under: Option<nat>, ev: IoEvent)
    requires Recorded(trace, moves, under)
    requires if ev.move.None? then ev.depends.None? else ev.move == under && ev.move.value !in moves
    ensures Recorded(trace + [ev], moves, under)
  {
    forall m: nat ensures MoveComplete(trace + [ev], moves, m) {
      assert MoveComplete(trace, moves, m);
      if m in moves { AppendRelocation(trace, ev, m, moves[m]); }
    }
    forall y: nat ensures EventRecorded(trace + [ev], moves, under, y) { assert EventRecorded(trace, moves, under, y); }
  }
}
