/**
 The simulator's traces and the converter: which of them its reader takes, and that the validator accepts them and their
 commands are kept in order.
 */
module Conversion {
  import opened Prelude
  import opened Tiers
  import opened Trace
  import opened Commands
  import opened Relocations
  import opened TraceReader
  import opened Allocator
  import opened SimulatorState
  import Simulator
  import SimulatorOverrun

  /** The canonical event of the `i`-th line of a trace; blocks are `sectors` long. */
  function Canonical(ev: IoEvent, i: nat, time: nat, sectors: nat): Event {
    Event(i, time, ev.op, ev.location.tier, ev.location.stream, ev.location.address * sectors, sectors, ev.node,
          ev.reason, ev.move, ev.depends)
  }

  function Convert(trace: seq<IoEvent>, times: seq<nat>, sectors: nat): (events: seq<Event>)
    requires |times| == |trace|
    ensures |events| == |trace| && forall i | 0 <= i < |trace| :: events[i] == Canonical(trace[i], i, times[i], sectors)
  {
    seq(|trace|, i requires 0 <= i < |trace| => Canonical(trace[i], i, times[i], sectors))
  }

  // ---- The events of one block of a relocation ----

  lemma {:induction false} GroupSkip(events: seq<Event>, q: Key, a: nat, b: nat)
    requires a <= b <= |events| && forall y | a <= y < b :: !Of(events[y], q)
    ensures Group(events[..b], q) == Group(events[..a], q)
    decreases b - a
  {
    if a < b {
      var s := events[..b];
      assert s[..|s| - 1] == events[..b - 1] && s[|s| - 1] == events[b - 1];
      GroupSkip(events, q, a, b - 1);
    }
  }

  ghost predicate NoneBetween(events: seq<Event>, q: Key, a: nat, b: nat) {
    a <= b <= |events| && forall y | a <= y < b :: !Of(events[y], q)
  }

  lemma GroupNext(events: seq<Event>, q: Key, a: nat, y: nat)
    requires y < |events| && NoneBetween(events, q, a, y) && Of(events[y], q)
    ensures a <= y && Group(events[..y + 1], q) == Group(events[..a], q) + [events[y]]
  {
    GroupSkip(events, q, a, y);
    var s := events[..y + 1];
    assert s[..|s| - 1] == events[..y] && s[|s| - 1] == events[y];
  }

  /** A list with exactly three events of a block: those are its group. */
  lemma GroupOfThree(events: seq<Event>, q: Key, i: nat, j: nat, k: nat)
    requires i < j < k < |events| && Of(events[i], q) && Of(events[j], q) && Of(events[k], q)
    requires NoneBetween(events, q, 0, i) && NoneBetween(events, q, i + 1, j)
    requires NoneBetween(events, q, j + 1, k) && NoneBetween(events, q, k + 1, |events|)
    ensures Group(events, q) == [events[i], events[j], events[k]]
  {
    GroupNext(events, q, 0, i);
    GroupNext(events, q, i + 1, j);
    GroupNext(events, q, j + 1, k);
    GroupSkip(events, q, k + 1, |events|);
    assert events[..|events|] == events;
  }

  /** Every event of a relocation is one of the three of some block. */
  lemma BlockOfEvent(trace: seq<IoEvent>, m: nat, r: Relocation, y: nat) returns (x: nat)
    requires RelocationOk(trace, m, r) && y < |trace| && trace[y].move == Some(m)
    ensures x < |r.nodes| && BlockMoved(trace, m, r, x) && (y == r.sources[x] || y == r.writes + x || y == r.trims + x)
  {
    assert Accounted(trace, m, r, y);
    assert Named(r, y);
    x :| NamedAt(r, y, x);
  }

  lemma BlockGroup(trace: seq<IoEvent>, times: seq<nat>, sectors: nat, m: nat, r: Relocation, x: nat)
    requires |times| == |trace| && RelocationOk(trace, m, r) && x < |r.nodes|
    ensures var events, q := Convert(trace, times, sectors), Key(m, r.nodes[x]);
      && BlockMoved(trace, m, r, x)
      && Group(events, q) == [events[r.sources[x]], events[r.writes + x], events[r.trims + x]]
      && BlockOk(Group(events, q)) && Expected(Group(events, q)[0]) == r.reason
      && (Group(events, q)[0].reason.StorageHit? <==> r.hit == Some(r.nodes[x]))
  {
    var events, q := Convert(trace, times, sectors), Key(m, r.nodes[x]);
    assert BlockMoved(trace, m, r, x);
    forall y | 0 <= y < |events| ensures Of(events[y], q) <==> y == r.sources[x] || y == r.writes + x || y == r.trims + x {
      if Of(events[y], q) { var z := BlockOfEvent(trace, m, r, y); }
    }
    GroupOfThree(events, q, r.sources[x], r.writes + x, r.trims + x);
  }

  /** Every block key of a converted trace belongs to a recorded relocation. */
  lemma KeyRecorded(trace: seq<IoEvent>, moves: map<nat, Relocation>, times: seq<nat>, sectors: nat, q: Key) returns (x: nat)
    requires |times| == |trace| && Recorded(trace, moves, None) && q in KeysOf(Convert(trace, times, sectors))
    ensures q.move in moves && RelocationOk(trace, q.move, moves[q.move])
    ensures x < |moves[q.move].nodes| && moves[q.move].nodes[x] == q.node
  {
    var events := Convert(trace, times, sectors);
    var e :| e in events && e.move.Some? && Key(e.move.value, e.node) == q;
    var y :| 0 <= y < |events| && events[y] == e;
    assert EventRecorded(trace, moves, None, y) && MoveComplete(trace, moves, q.move);
    x := BlockOfEvent(trace, q.move, moves[q.move], y);
  }

  /** A relocation reuses exactly one storage hit if it is an access migration, and none otherwise. */
  lemma HitsOfMove(trace: seq<IoEvent>, moves: map<nat, Relocation>, times: seq<nat>, sectors: nat, q: Key)
    requires |times| == |trace| && Recorded(trace, moves, None) && q in KeysOf(Convert(trace, times, sectors))
    ensures q.move in moves && |Hits(Convert(trace, times, sectors),
            q.move)| == if moves[q.move].reason.AccessMigration? then 1 else 0
  {
    var events := Convert(trace, times, sectors);
    var x := KeyRecorded(trace, moves, times, sectors, q);
    var m, r := q.move, moves[q.move];
    forall k | k in Hits(events, m) ensures r.hit.Some? && k == Key(m, r.hit.value) {
      var z := KeyRecorded(trace, moves, times, sectors, k);
      BlockGroup(trace, times, sectors, m, r, z);
    }
    if r.hit.Some? {
      var z :| 0 <= z < |r.nodes| && r.nodes[z] == r.hit.value;
      BlockGroup(trace, times, sectors, m, r, z);
      GroupNonempty(events, Key(m, r.nodes[z]));
      assert Hits(events, m) == {Key(m, r.hit.value)};
    } else {
      assert Hits(events, m) == {};
    }
  }

  /** The validator accepts every trace whose relocations are recorded in full. */
  lemma RecordedAccepted(trace: seq<IoEvent>, moves: map<nat, Relocation>, times: seq<nat>, sectors: nat)
    requires |times| == |trace| && Recorded(trace, moves, None)
    ensures Accepts(Convert(trace, times, sectors))
  {
    var events := Convert(trace, times, sectors);
    forall e | e in events ensures PlainOk(e) {
      var y :| 0 <= y < |events| && events[y] == e;
      assert EventRecorded(trace, moves, None, y);
    }
    forall q ensures KeyOk(events, q) {
      if q in KeysOf(events) {
        var x := KeyRecorded(trace, moves, times, sectors, q);
        BlockGroup(trace, times, sectors, q.move, moves[q.move], x);
        HitsOfMove(trace, moves, times, sectors, q);
      }
    }
    forall a, b ensures SameReason(events, a, b) {
      if a in KeysOf(events) && b in KeysOf(events) && a.move == b.move {
        var x := KeyRecorded(trace, moves, times, sectors, a);
        var y := KeyRecorded(trace, moves, times, sectors, b);
        BlockGroup(trace, times, sectors, a.move, moves[a.move], x);
        BlockGroup(trace, times, sectors, b.move, moves[b.move], y);
      }
    }
  }

  /** Its events can be lowered: dependencies name earlier events. */
  lemma RecordedChained(trace: seq<IoEvent>, moves: map<nat, Relocation>, times: seq<nat>, sectors: nat)
    requires |times| == |trace| && Recorded(trace, moves, None) && sectors > 0
    ensures Chained(Convert(trace, times, sectors))
  {
    var events := Convert(trace, times, sectors);
    forall k | 0 <= k < |events| ensures EventOk(events, k) {
      assert EventRecorded(trace, moves, None, k);
      if events[k].depends.Some? {
        var m := trace[k].move.value;
        assert MoveComplete(trace, moves, m);
        var x := BlockOfEvent(trace, m, moves[m], k);
        var p := trace[k].depends.value;
        assert 0 <= p < k && events[p].sequence == p;
      }
    }
  }

  // ---- Which traces are read ----

  predicate InOrder(times: seq<nat>) { forall k | 0 < k < |times| :: times[k - 1] <= times[k] }

  /** Every stream that is written exists. */
  ghost predicate StreamsExist(trace: seq<IoEvent>, streams: Pair<nat>) {
    forall j | 0 <= j < |trace| && trace[j].op.Write? :: trace[j].location.stream < streams.At(trace[j].location.tier)
  }

  /** Every address that is written lies below the capacity of its tier in blocks. */
  ghost predicate AddressesFit(trace: seq<IoEvent>, capacity: Pair<nat>) {
    forall tier, a :: a in WrittenTo(trace, tier) ==> a < capacity.At(tier)
  }

  /** Capacities are whole blocks. */
  predicate Whole(g: Geometry, capacity: Pair<nat>, sectors: nat) {
    g.sectors.slc == capacity.slc * sectors && g.sectors.tlc == capacity.tlc * sectors
  }

  lemma BlockFits(a: nat, capacity: nat, sectors: nat)
    requires sectors > 0
    ensures a * sectors + sectors <= capacity * sectors <==> a < capacity
  {
    assert a * sectors + sectors == (a + 1) * sectors;
    if a < capacity { Scale(a + 1, capacity, sectors); } else { Scale(capacity, a, sectors); }
  }

  /** Whether one row of a converted trace is read. */
  lemma RowRead(trace: seq<IoEvent>, moves: map<nat, Relocation>, times: seq<nat>, sectors: nat, g: Geometry,
      capacity: Pair<nat>, k: nat)
    requires |times| == |trace| && Recorded(trace, moves, None) && sectors > 0 && Whole(g, capacity, sectors) && k < |trace|
    ensures RowOk(Convert(trace, times, sectors), g, k) <==>
              && (k > 0 ==> times[k - 1] <= times[k]) && trace[k].location.stream < g.streams.At(trace[k].location.tier)
              && trace[k].location.address < capacity.At(trace[k].location.tier)
  {
    RecordedChained(trace, moves, times, sectors);
    assert EventOk(Convert(trace, times, sectors), k);
    BlockFits(trace[k].location.address, capacity.At(trace[k].location.tier), sectors);
  }

  /** The reader takes a trace of the simulator exactly if its times are in order, the streams written exist, and every
      address written lies below the capacity of its tier. */
  lemma ReadExactly(v: State, times: seq<nat>, sectors: nat, g: Geometry, capacity: Pair<nat>)
    requires Sound(v) && |times| == |v.trace| && sectors > 0 && Whole(g, capacity, sectors)
    ensures Readable(Convert(v.trace, times, sectors), g) <==>
              InOrder(times) && StreamsExist(v.trace, g.streams) && AddressesFit(v.trace, capacity)
  {
    if Readable(Convert(v.trace, times, sectors), g) { ReadFits(v.trace, times, sectors, g, capacity); }
    if InOrder(times) && StreamsExist(v.trace, g.streams) && AddressesFit(v.trace, capacity) {
      FitsRead(v.trace, v.moves, times, sectors, g, capacity);
    }
  }

  lemma FitsRead(trace: seq<IoEvent>, moves: map<nat, Relocation>, times: seq<nat>, sectors: nat, g: Geometry,
      capacity: Pair<nat>)
    requires |times| == |trace| && Recorded(trace, moves, None) && Replay(trace).Some? && sectors > 0 && Whole(g,
             capacity, sectors)
    requires InOrder(times) && StreamsExist(trace, g.streams) && AddressesFit(trace, capacity)
    ensures Readable(Convert(trace, times, sectors), g)
  {
    var rows := Convert(trace, times, sectors);
    forall k | 0 <= k < |rows| ensures RowOk(rows, g, k) {
      PlaceFits(trace, g, capacity, k);
      RowRead(trace, moves, times, sectors, g, capacity, k);
    }
  }

  lemma PlaceFits(trace: seq<IoEvent>, g: Geometry, capacity: Pair<nat>, k: nat)
    requires Replay(trace).Some? && k < |trace| && StreamsExist(trace, g.streams) && AddressesFit(trace, capacity)
    ensures var l := trace[k].location; l.stream < g.streams.At(l.tier) && l.address < capacity.At(l.tier)
  {
    var j := EventWritten(trace, k);
    WrittenMeans(trace, trace[j].location.tier, trace[j].location.address);
  }

  lemma ReadFits(trace: seq<IoEvent>, times: seq<nat>, sectors: nat, g: Geometry, capacity: Pair<nat>)
    requires |times| == |trace| && sectors > 0 && Whole(g, capacity, sectors) && Readable(Convert(trace, times, sectors), g)
    ensures InOrder(times) && StreamsExist(trace, g.streams) && AddressesFit(trace, capacity)
  {
    var rows := Convert(trace, times, sectors);
    forall k | 0 < k < |times| ensures times[k - 1] <= times[k] { assert RowOk(rows, g, k); }
    forall j | 0 <= j < |trace| && trace[j].op.Write? ensures trace[j].location.stream < g.streams.At(trace[j].location.tier) {
      assert RowOk(rows, g, j);
    }
    forall tier, a | a in WrittenTo(trace, tier) ensures a < capacity.At(tier) {
      WrittenMeans(trace, tier, a);
      var j :| 0 <= j < |trace| && trace[j].op.Write? && trace[j].location.tier == tier && trace[j].location.address == a;
      assert RowOk(rows, g, j);
      BlockFits(a, capacity.At(tier), sectors);
    }
  }

  /** All addresses written fit exactly if no tier has ever used more than its capacity. */
  lemma FitExactly(v: State, capacity: Pair<nat>)
    requires Sound(v)
    ensures AddressesFit(v.trace, capacity) <==> Peak(v, Slc) <= capacity.slc && Peak(v, Tlc) <= capacity.tlc
  {
    forall tier, a: nat ensures a in WrittenTo(v.trace, tier) <==> a < Peak(v, tier) {
      assert HandedOut(v.trace, v.tiers, {}, tier, a);
    }
    if AddressesFit(v.trace, capacity) {
      forall tier ensures Peak(v, tier) <= capacity.At(tier) {
        var a: nat := capacity.At(tier);
        assert a in WrittenTo(v.trace, tier) <==> a < Peak(v, tier);
      }
    }
  }

  /** In every state that the simulator reaches: with its times in order and the streams it writes in existence, its trace
      is read exactly if TLC has never used more than its capacity. */
  lemma TraceReadExactly(sim: Simulator.Sim, times: seq<nat>, sectors: nat, g: Geometry)
    requires sim.Valid() && |times| == |sim.trace| && sectors > 0 && Whole(g, sim.capacity, sectors)
    requires InOrder(times) && StreamsExist(sim.trace, g.streams)
    ensures Readable(Convert(sim.trace, times, sectors), g) <==> !sim.Exceeded()
  {
    ReadExactly(sim.View(), times, sectors, g, sim.capacity);
    FitExactly(sim.View(), sim.capacity);
  }

  /** A run whose trace is refused, whatever the times, the block size and the streams. */
  method RunNotRead() returns (sim: Simulator.Sim)
    ensures fresh(sim) && sim.Valid()
    ensures forall times, sectors, g :: NotRead(sim.trace, times, sectors, g, sim.capacity)
  {
    sim := SimulatorOverrun.Overrun();
    forall times, sectors, g ensures NotRead(sim.trace, times, sectors, g, sim.capacity) {
      if |times| == |sim.trace| && sectors > 0 && Whole(g, sim.capacity, sectors) {
        ReadExactly(sim.View(), times, sectors, g, sim.capacity);
        FitExactly(sim.View(), sim.capacity);
      }
    }
  }

  ghost predicate NotRead(trace: seq<IoEvent>, times: seq<nat>, sectors: nat, g: Geometry, capacity: Pair<nat>) {
    |times| == |trace| && sectors > 0 && Whole(g, capacity, sectors) ==> !Readable(Convert(trace, times, sectors), g)
  }

  /** From the simulator to the device: any trace of the simulator can be lowered and passes the validator, and of two of
      its commands that overlap, one of them no read, the later waits for the earlier. */
  lemma SimulatedTraceConverts(v: State, times: seq<nat>, sectors: nat, slcStreams: nat, cs: seq<Command>)
    requires Sound(v) && |times| == |v.trace| && sectors > 0
    ensures var events := Convert(v.trace, times, sectors);
      && Chained(events) && Accepts(events)
      && (Lowered(events, slcStreams, cs) ==>
            forall i, j :: 0 <= i < j < |cs| && Overlap(cs[i], cs[j]) && !(cs[i].op.Read? && cs[j].op.Read?) ==> Reaches(cs, j, i))
  {
    var events := Convert(v.trace, times, sectors);
    RecordedChained(v.trace, v.moves, times, sectors);
    RecordedAccepted(v.trace, v.moves, times, sectors);
    forall e | e in events ensures Aligned(e, sectors) {
      var y :| 0 <= y < |events| && events[y] == e;
      assert e.start == v.trace[y].location.address * sectors;
    }
    if Lowered(events, slcStreams, cs) {
      forall i, j | 0 <= i < j < |cs| && Overlap(cs[i], cs[j]) && !(cs[i].op.Read? && cs[j].op.Read?)
        ensures Reaches(cs, j, i)
      {
        OverlapsOrdered(events, slcStreams, cs, sectors, i, j);
      }
    }
  }
}
