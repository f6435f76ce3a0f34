/**
 Lowering of canonical trace events to device commands: each event is cut into chunks, and every command names
 the earlier commands it has to wait for.
 */
module Commands {
  import opened Prelude
  import opened Tiers
  import opened Trace

  const MAX_NVME_SECTORS: nat := 65_535

  datatype Event = Event(sequence: nat, timestamp: nat, op: Operation, tier: Tier, stream: nat,
                         start: nat, count: nat, node: nat, reason: Reason, move: Option<nat>, depends: Option<nat>)

  datatype Command = Command(id: nat, sequence: nat, chunk: nat, chunks: nat, timestamp: nat, flow: nat,
                             tier: Tier, stream: nat, op: Operation, start: nat, count: nat,
                             node: nat, reason: Reason, move: Option<nat>, predecessors: set<nat>)

  datatype Range = Range(tier: Tier, stream: nat, start: nat, count: nat)

  function RangeOf(c: Command): Range { Range(c.tier, c.stream, c.start, c.count) }

  // ---- Chunks ----

  function Chunks(count: nat): nat { (count + MAX_NVME_SECTORS - 1) / MAX_NVME_SECTORS }

  function ChunkStart(e: Event, i: nat): nat { e.start + i * MAX_NVME_SECTORS }

  function ChunkSize(e: Event, i: nat): int {
    var left := e.count - i * MAX_NVME_SECTORS;
    if left < MAX_NVME_SECTORS then left else MAX_NVME_SECTORS
  }

  predicate InChunk(e: Event, i: nat, sector: nat) {
    ChunkStart(e, i) <= sector < ChunkStart(e, i) + ChunkSize(e, i)
  }

  lemma ChunkSizes(e: Event, i: nat)
    requires i < Chunks(e.count)
    ensures 1 <= ChunkSize(e, i) <= MAX_NVME_SECTORS
    ensures ChunkStart(e, i) + ChunkSize(e, i) <= e.start + e.count
    ensures ChunkStart(e, i) + ChunkSize(e, i) == if i + 1 < Chunks(e.count) then ChunkStart(e, i + 1) else e.start + e.count
  {}

  /** The chunks tile the event: every sector of the event lies in exactly one chunk, and chunks hold nothing else. */
  lemma ChunksTile(e: Event, sector: nat)
    ensures e.start <= sector < e.start + e.count <==> exists i :: 0 <= i < Chunks(e.count) && InChunk(e, i, sector)
    ensures forall i, j :: 0 <= i < Chunks(e.count) && 0 <= j < Chunks(e.count) && InChunk(e, i, sector) && InChunk(e, j, sector)
              ==> i == j
  {
    if e.start <= sector < e.start + e.count {
      var i := (sector - e.start) / MAX_NVME_SECTORS;
      assert InChunk(e, i, sector) && i < Chunks(e.count);
    }
    forall i | 0 <= i < Chunks(e.count) && InChunk(e, i, sector) ensures e.start <= sector < e.start + e.count {
      ChunkSizes(e, i);
    }
  }

  // ---- What a command has to wait for ----

  /** The last command that changed a range. */
  function LastMutation(cs: seq<Command>, r: Range): (last: Option<nat>)
    ensures last.Some? ==> last.value < |cs| && RangeOf(cs[last.value]) == r && !cs[last.value].op.Read?
    ensures forall i | 0 <= i < |cs| && RangeOf(cs[i]) == r && !cs[i].op.Read? :: last.Some? && i <= last.value
  {
    if cs == [] then None
    else
      var c := cs[|cs| - 1];
      if RangeOf(c) == r && !c.op.Read? then Some(|cs| - 1) else LastMutation(cs[..|cs| - 1], r)
  }

  /** The reads of a range since it was last changed. */
  function ReadersSince(cs: seq<Command>, r: Range): (readers: set<nat>)
    ensures forall i :: i in readers <==>
              && 0 <= i < |cs| && RangeOf(cs[i]) == r && cs[i].op.Read?
              && (LastMutation(cs, r).Some? ==> LastMutation(cs, r).value < i)
  {
    if cs == [] then {}
    else
      var c, before := cs[|cs| - 1], ReadersSince(cs[..|cs| - 1], r);
      if RangeOf(c) != r then before
      else if c.op.Read? then before + {|cs| - 1}
      else {}
  }

  /** The direct dependencies of a command on earlier commands of its range. */
  function Hazards(cs: seq<Command>, r: Range, op: Operation): set<nat> {
    (if LastMutation(cs, r).Some? then {LastMutation(cs, r).value} else {})
    + (if op.Read? then {} else ReadersSince(cs, r))
  }

  /** A later command reaches an earlier one through predecessors. */
  ghost predicate Reaches(cs: seq<Command>, j: nat, i: nat)
    requires j < |cs|
    decreases j
  {
    i in cs[j].predecessors || exists m <- cs[j].predecessors :: m < j && Reaches(cs, m, i)
  }

  lemma {:induction false} ReachesThrough(cs: seq<Command>, j: nat, m: nat, i: nat)
    requires j < |cs| && m < |cs| && Reaches(cs, j, m) && Reaches(cs, m, i) && m < j
    requires forall k | 0 <= k < |cs| :: forall p <- cs[k].predecessors :: p < k
    ensures Reaches(cs, j, i)
    decreases j
  {
    if m !in cs[j].predecessors {
      var n :| n in cs[j].predecessors && n < j && Reaches(cs, n, m);
      ReachesLower(cs, n, m);
      ReachesThrough(cs, n, m, i);
    }
  }

  lemma {:induction false} ReachesLower(cs: seq<Command>, j: nat, i: nat)
    requires j < |cs| && Reaches(cs, j, i)
    requires forall k | 0 <= k < |cs| :: forall p <- cs[k].predecessors :: p < k
    ensures i < j
    decreases j
  {
    if i !in cs[j].predecessors {
      var n :| n in cs[j].predecessors && n < j && Reaches(cs, n, i);
      ReachesLower(cs, n, i);
    }
  }

  /** Every command waits for its hazards. */
  ghost predicate Tracked(cs: seq<Command>) {
    && (forall j | 0 <= j < |cs| :: Hazards(cs[..j], RangeOf(cs[j]), cs[j].op) <= cs[j].predecessors)
    && (forall j | 0 <= j < |cs| :: forall p <- cs[j].predecessors :: p < j)
  }

  ghost predicate Conflict(c: Command, d: Command) { RangeOf(c) == RangeOf(d) && !(c.op.Read? && d.op.Read?) }

  /** Hazard completeness: of two commands on the same range of which one is no read, the later reaches the
      earlier, so the device keeps them in order. */
  lemma {:induction false} ConflictsOrdered(cs: seq<Command>, i: nat, j: nat)
    requires Tracked(cs) && i < j < |cs| && Conflict(cs[i], cs[j])
    ensures Reaches(cs, j, i)
    decreases j
  {
    var r, before := RangeOf(cs[j]), cs[..j];
    var last := LastMutation(before, r);
    assert before[i] == cs[i];
    assert Hazards(before, r, cs[j].op) <= cs[j].predecessors;
    if last.Some? && i < last.value {
      assert before[last.value] == cs[last.value];
      ConflictsOrdered(cs, i, last.value);
      assert last.value in cs[j].predecessors;
    }
  }

  // ---- The commands of a list of events ----

  /** Where the commands of an event start. */
  function First(events: seq<Event>, k: nat): nat
    requires k <= |events|
  {
    if k == 0 then 0 else First(events, k - 1) + Chunks(events[k - 1].count)
  }

  ghost predicate EventOk(events: seq<Event>, k: nat)
    requires k < |events|
  {
    && events[k].count > 0
    && (k > 0 ==> events[k - 1].sequence < events[k].sequence)
    && (events[k].depends.Some? ==> exists p :: 0 <= p < k && events[p].sequence == events[k].depends.value)
  }

  /** What lowering needs of its events: they are not empty, their sequence numbers ascend, and dependencies name
      earlier events. */
  ghost predicate Chained(events: seq<Event>) { forall k | 0 <= k < |events| :: EventOk(events, k) }

  lemma {:induction false} SequencesAscend(events: seq<Event>, p: nat, k: nat)
    requires Chained(events) && p < k < |events|
    ensures events[p].sequence < events[k].sequence
  {
    assert EventOk(events, k);
    if p < k - 1 { SequencesAscend(events, p, k - 1); }
  }

  ghost function Position(events: seq<Event>, sequence: nat): (p: nat)
    requires exists p :: 0 <= p < |events| && events[p].sequence == sequence
    ensures p < |events| && events[p].sequence == sequence
  {
    var p :| 0 <= p < |events| && events[p].sequence == sequence;
    p
  }

  function FlowId(tier: Tier, stream: nat, slcStreams: nat): nat { if tier.Slc? then stream else slcStreams + stream }

  /** The last command of an event. */
  ghost function Final(events: seq<Event>, p: nat): (id: nat)
    requires Chained(events) && p < |events|
    ensures id + 1 == First(events, p + 1)
  {
    assert EventOk(events, p);
    First(events, p) + Chunks(events[p].count) - 1
  }

  /** What the `i`-th command of the `k`-th event waits for beside its hazards: the chunk before it, or the last
      chunk of the event its event depends on. */
  ghost function Links(events: seq<Event>, k: nat, i: nat): set<nat>
    requires Chained(events) && k < |events|
  {
    assert EventOk(events, k);
    if i > 0 then {First(events, k) + i - 1}
    else if events[k].depends.Some? then {Final(events, Position(events, events[k].depends.value))}
    else {}
  }

  lemma {:induction false} FirstMonotone(events: seq<Event>, p: nat, k: nat)
    requires p <= k <= |events|
    ensures First(events, p) <= First(events, k)
    decreases k - p
  {
    if p < k { FirstMonotone(events, p + 1, k); }
  }

  lemma DependsEarlier(events: seq<Event>, k: nat)
    requires Chained(events) && k < |events| && events[k].depends.Some?
    ensures EventOk(events, k) && Position(events, events[k].depends.value) < k
  {
    assert EventOk(events, k);
    var p := Position(events, events[k].depends.value);
    var q :| 0 <= q < k && events[q].sequence == events[k].depends.value;
    if p > q { SequencesAscend(events, q, p); }
    if p < q { SequencesAscend(events, p, q); }
  }

  lemma LinksBefore(events: seq<Event>, k: nat, i: nat)
    requires Chained(events) && k < |events|
    ensures forall p <- Links(events, k, i) :: p < First(events, k) + i
  {
    if i == 0 && events[k].depends.Some? {
      DependsEarlier(events, k);
      FirstMonotone(events, Position(events, events[k].depends.value) + 1, k);
    }
  }

  /** The command that the `i`-th chunk of the `k`-th event becomes, after the commands `before`. */
  ghost function Lower(events: seq<Event>, slcStreams: nat, before: seq<Command>, k: nat, i: nat): Command
    requires Chained(events) && k < |events| && i < Chunks(events[k].count)
  {
    var e := events[k];
    ChunkSizes(e, i);
    var range := Range(e.tier, e.stream, ChunkStart(e, i), ChunkSize(e, i));
    Command(First(events, k) + i, e.sequence, i, Chunks(e.count), e.timestamp, FlowId(e.tier, e.stream, slcStreams),
            e.tier, e.stream, e.op, range.start, range.count, e.node, e.reason, e.move,
            Hazards(before, range, e.op) + Links(events, k, i))
  }

  ghost predicate LoweredAt(events: seq<Event>, slcStreams: nat, cs: seq<Command>, k: nat, i: nat)
    requires Chained(events)
  {
    k < |events| && i < Chunks(events[k].count) ==>
      var j := First(events, k) + i;
      j < |cs| && cs[j] == Lower(events, slcStreams, cs[..j], k, i)
  }

  /** The commands are exactly the chunks of the events, in order. */
  ghost predicate Lowered(events: seq<Event>, slcStreams: nat, cs: seq<Command>)
    requires Chained(events)
  {
    |cs| == First(events, |events|) && forall k, i :: LoweredAt(events, slcStreams, cs, k, i)
  }

  /** The event and chunk of a command. */
  lemma {:induction false} Origin(events: seq<Event>, n: nat, j: nat) returns (k: nat, i: nat)
    requires n <= |events| && j < First(events, n)
    ensures k < n && i < Chunks(events[k].count) && j == First(events, k) + i
    decreases n
  {
    if j >= First(events, n - 1) {
      k, i := n - 1, j - First(events, n - 1);
    } else {
      k, i := Origin(events, n - 1, j);
    }
  }

  /** The commands of any chained list of events keep every conflict in order. */
  lemma LoweredTracked(events: seq<Event>, slcStreams: nat, cs: seq<Command>)
    requires Chained(events) && Lowered(events, slcStreams, cs)
    ensures Tracked(cs)
  {
    forall j | 0 <= j < |cs|
      ensures Hazards(cs[..j], RangeOf(cs[j]), cs[j].op) <= cs[j].predecessors
      ensures forall p <- cs[j].predecessors :: p < j
    {
      var k, i := Origin(events, |events|, j);
      assert LoweredAt(events, slcStreams, cs, k, i);
      LinksBefore(events, k, i);
    }
  }

  // ---- What a command says, and where it goes ----

  /** A command is a chunk of an event: it does what the event does, on the event's behalf and at its time, on the
      chunk's sectors. */
  ghost predicate ChunkOf(c: Command, e: Event, i: nat) {
    && c.op == e.op && c.node == e.node && c.timestamp == e.timestamp && c.sequence == e.sequence
    && c.reason == e.reason && c.move == e.move && c.tier == e.tier && c.stream == e.stream
    && i < Chunks(e.count) && c.chunk == i && c.chunks == Chunks(e.count)
    && forall sector: nat :: c.start <= sector < c.start + c.count <==> InChunk(e, i, sector)
  }

  /** Every command is a chunk of an event, and numbered by its place. */
  lemma CommandsCarry(events: seq<Event>, slcStreams: nat, cs: seq<Command>, j: nat) returns (k: nat, i: nat)
    requires Chained(events) && Lowered(events, slcStreams, cs) && j < |cs|
    ensures k < |events| && ChunkOf(cs[j], events[k], i) && j == First(events, k) + i && cs[j].id == j
    ensures cs[j].flow == FlowId(cs[j].tier, cs[j].stream, slcStreams)
  {
    k, i := Origin(events, |events|, j);
    assert LoweredAt(events, slcStreams, cs, k, i);
    ChunkSizes(events[k], i);
  }

  /** Later commands are not due earlier. */
  lemma CommandsInTime(events: seq<Event>, slcStreams: nat, cs: seq<Command>, h: nat, j: nat)
    requires Chained(events) && Lowered(events, slcStreams, cs) && h < j < |cs|
    requires forall p, q | 0 <= p < q < |events| :: events[p].timestamp <= events[q].timestamp
    ensures cs[h].timestamp <= cs[j].timestamp
  {
    var p, a := CommandsCarry(events, slcStreams, cs, h);
    var q, b := CommandsCarry(events, slcStreams, cs, j);
    if q < p { FirstMonotone(events, q + 1, p); }
  }

  predicate IsFlow(streams: Pair<nat>, tier: Tier, stream: nat, flow: nat) {
    stream < streams.At(tier) && FlowId(tier, stream, streams.slc) == flow
  }

  /** The flows are the numbers below the total of the streams, and each belongs to one stream of one tier. */
  lemma FlowsNumbered(streams: Pair<nat>, flow: nat)
    ensures flow < streams.slc + streams.tlc <==> exists tier, stream :: IsFlow(streams, tier, stream, flow)
    ensures forall t, u, r, s :: IsFlow(streams, t, r, flow) && IsFlow(streams, u, s, flow) ==> t == u && r == s
  {
    if flow < streams.slc {
      assert IsFlow(streams, Slc, flow, flow);
    } else if flow < streams.slc + streams.tlc {
      assert IsFlow(streams, Tlc, flow - streams.slc, flow);
    }
  }

  /** Where the streams of the events exist, commands are in one flow exactly if they go to the same stream of the same
      tier; those that must be kept in order are. */
  lemma FlowsSeparate(events: seq<Event>, streams: Pair<nat>, cs: seq<Command>, h: nat, j: nat)
    requires Chained(events) && Lowered(events, streams.slc, cs) && h < |cs| && j < |cs|
    requires forall e <- events :: e.stream < streams.At(e.tier)
    ensures cs[h].flow < streams.slc + streams.tlc
    ensures cs[h].flow == cs[j].flow <==> cs[h].tier == cs[j].tier && cs[h].stream == cs[j].stream
    ensures Conflict(cs[h], cs[j]) ==> cs[h].flow == cs[j].flow
  {
    var p, a := CommandsCarry(events, streams.slc, cs, h);
    var q, b := CommandsCarry(events, streams.slc, cs, j);
    assert events[p] in events && events[q] in events;
    assert IsFlow(streams, cs[h].tier, cs[h].stream, cs[h].flow) && IsFlow(streams, cs[j].tier, cs[j].stream, cs[j].flow);
    FlowsNumbered(streams, cs[h].flow);
  }

  /** Every chunk of an event reaches the chunks before it. */
  lemma {:induction false} ChunksChained(events: seq<Event>, slcStreams: nat, cs: seq<Command>, k: nat, i: nat, h: nat)
    requires Chained(events) && Lowered(events, slcStreams, cs)
    requires k < |events| && h < i < Chunks(events[k].count)
    ensures First(events, k) + i < |cs| && Reaches(cs, First(events, k) + i, First(events, k) + h)
    decreases i
  {
    assert LoweredAt(events, slcStreams, cs, k, i);
    if h < i - 1 {
      ChunksChained(events, slcStreams, cs, k, i - 1, h);
    }
  }

  lemma PositionOf(events: seq<Event>, p: nat)
    requires Chained(events) && p < |events|
    ensures Position(events, events[p].sequence) == p
  {
    var q := Position(events, events[p].sequence);
    if p < q { SequencesAscend(events, p, q); }
    if q < p { SequencesAscend(events, q, p); }
  }

  /** The first command of an event waits for the last of the event it depends on. */
  lemma FirstWaits(events: seq<Event>, slcStreams: nat, cs: seq<Command>, k: nat, p: nat)
    requires Chained(events) && Lowered(events, slcStreams, cs)
    requires k < |events| && p < |events| && events[k].depends == Some(events[p].sequence)
    ensures First(events, k) < |cs| && Final(events, p) in cs[First(events, k)].predecessors
  {
    PositionOf(events, p);
    assert EventOk(events, k) && LoweredAt(events, slcStreams, cs, k, 0);
    assert Links(events, k, 0) == {Final(events, p)};
  }

  /** The first command of an event reaches every command of the event it depends on. */
  lemma FirstCarries(events: seq<Event>, slcStreams: nat, cs: seq<Command>, k: nat, p: nat, h: nat)
    requires Chained(events) && Lowered(events, slcStreams, cs) && Tracked(cs)
    requires k < |events| && p < |events| && events[k].depends == Some(events[p].sequence) && h < Chunks(events[p].count)
    ensures First(events, k) < |cs| && Reaches(cs, First(events, k), First(events, p) + h)
  {
    FirstWaits(events, slcStreams, cs, k, p);
    var first, last := First(events, k), Final(events, p);
    assert last < first;
    if First(events, p) + h < last {
      ChunksChained(events, slcStreams, cs, p, Chunks(events[p].count) - 1, h);
      ReachesThrough(cs, first, last, First(events, p) + h);
    }
  }

  /** A declared dependency is carried over: every command of an event reaches every command of the event it
      depends on. */
  lemma DependencyCarried(events: seq<Event>, slcStreams: nat, cs: seq<Command>, k: nat, i: nat, p: nat, h: nat)
    requires Chained(events) && Lowered(events, slcStreams, cs)
    requires k < |events| && p < |events| && events[k].depends == Some(events[p].sequence)
    requires i < Chunks(events[k].count) && h < Chunks(events[p].count)
    ensures First(events, k) + i < |cs| && Reaches(cs, First(events, k) + i, First(events, p) + h)
  {
    LoweredTracked(events, slcStreams, cs);
    FirstCarries(events, slcStreams, cs, k, p, h);
    if i > 0 {
      ChunksChained(events, slcStreams, cs, k, i, 0);
      ReachesThrough(cs, First(events, k) + i, First(events, k), First(events, p) + h);
    }
  }

  // ---- Equal aligned blocks ----

  ghost predicate Aligned(e: Event, size: nat) { e.count == size && exists a: nat :: e.start == a * size }

  ghost predicate Overlap(c: Command, d: Command) {
    c.tier == d.tier && c.stream == d.stream && c.start < d.start + d.count && d.start < c.start + c.count
  }

  /** When all events are aligned blocks of one size, chunks that overlap are the same range. */
  lemma AlignedChunks(e: Event, f: Event, size: nat, i: nat, h: nat, sector: nat)
    requires Aligned(e, size) && Aligned(f, size) && i < Chunks(e.count) && h < Chunks(f.count)
    requires InChunk(e, i, sector) && InChunk(f, h, sector)
    ensures e.start == f.start && i == h
  {
    var a: nat, b: nat :| e.start == a * size && f.start == b * size;
    ChunkSizes(e, i);
    ChunkSizes(f, h);
    SameBlock(a, b, size, sector);
    ChunksTile(e, sector);
    assert InChunk(e, h, sector);
  }

  lemma SameBlock(a: nat, b: nat, size: nat, sector: nat)
    requires a * size <= sector < a * size + size && b * size <= sector < b * size + size
    ensures a == b
  {
    if a < b { assert (a + 1) * size <= b * size by { Scale(a + 1, b, size); } }
    if b < a { assert (b + 1) * size <= a * size by { Scale(b + 1, a, size); } }
  }

  lemma Scale(a: nat, b: nat, size: nat)
    requires a <= b
    ensures a * size <= b * size
  {
    assert b * size == a * size + (b - a) * size;
  }

  lemma OverlapsEqual(events: seq<Event>, slcStreams: nat, cs: seq<Command>, size: nat, i: nat, j: nat)
    requires Chained(events) && Lowered(events, slcStreams, cs) && forall e <- events :: Aligned(e, size)
    requires i < j < |cs| && Overlap(cs[i], cs[j])
    ensures RangeOf(cs[i]) == RangeOf(cs[j])
  {
    var k, a := Origin(events, |events|, i);
    var l, b := Origin(events, |events|, j);
    assert LoweredAt(events, slcStreams, cs, k, a) && LoweredAt(events, slcStreams, cs, l, b);
    var sector := if cs[i].start < cs[j].start then cs[j].start else cs[i].start;
    AlignedChunks(events[k], events[l], size, a, b, sector);
  }

  /** So overlapping commands are kept in order too. */
  lemma OverlapsOrdered(events: seq<Event>, slcStreams: nat, cs: seq<Command>, size: nat, i: nat, j: nat)
    requires Chained(events) && Lowered(events, slcStreams, cs) && forall e <- events :: Aligned(e, size)
    requires i < j < |cs| && Overlap(cs[i], cs[j]) && !(cs[i].op.Read? && cs[j].op.Read?)
    ensures RangeOf(cs[i]) == RangeOf(cs[j]) && Reaches(cs, j, i)
  {
    OverlapsEqual(events, slcStreams, cs, size, i, j);
    LoweredTracked(events, slcStreams, cs);
    ConflictsOrdered(cs, i, j);
  }

  // ---- Exactly which commands are ordered ----

  /** Command `j` waits for command `i` beside its hazards. */
  ghost predicate Linked(events: seq<Event>, i: nat, j: nat)
    requires Chained(events)
  {
    exists k, h :: LinkedAt(events, i, j, k, h)
  }

  ghost predicate LinkedAt(events: seq<Event>, i: nat, j: nat, k: nat, h: nat)
    requires Chained(events)
  {
    k < |events| && h < Chunks(events[k].count) && j == First(events, k) + h && i in Links(events, k, h)
  }

  /** Two commands that are ordered for a reason of their own: they conflict on one range, or the later is the next
      chunk of the event of the earlier, or the first chunk of an event that depends on that event. */
  ghost predicate Tied(events: seq<Event>, cs: seq<Command>, i: nat, j: nat)
    requires Chained(events) && j < |cs|
  {
    i < j && (Conflict(cs[i], cs[j]) || Linked(events, i, j))
  }

  /** A chain of such commands leads from `j` back to `i`. */
  ghost predicate Chain(events: seq<Event>, cs: seq<Command>, j: nat, i: nat)
    requires Chained(events) && j < |cs|
    decreases j
  {
    Tied(events, cs, i, j) || exists m :: i < m < j && Tied(events, cs, m, j) && Chain(events, cs, m, i)
  }

  /** Whatever a command waits for ties it. */
  lemma PredecessorTies(events: seq<Event>, slcStreams: nat, cs: seq<Command>, i: nat, j: nat)
    requires Chained(events) && Lowered(events, slcStreams, cs) && j < |cs| && i in cs[j].predecessors
    ensures Tied(events, cs, i, j)
  {
    LoweredTracked(events, slcStreams, cs);
    var k, h := Origin(events, |events|, j);
    assert LoweredAt(events, slcStreams, cs, k, h);
    if i in Links(events, k, h) {
      assert LinkedAt(events, i, j, k, h);
    } else {
      assert i in Hazards(cs[..j], RangeOf(cs[j]), cs[j].op);
    }
  }

  /** Tied commands are ordered. */
  lemma TiedOrdered(events: seq<Event>, slcStreams: nat, cs: seq<Command>, i: nat, j: nat)
    requires Chained(events) && Lowered(events, slcStreams, cs) && Tracked(cs) && j < |cs| && Tied(events, cs, i, j)
    ensures Reaches(cs, j, i)
  {
    if Conflict(cs[i], cs[j]) {
      ConflictsOrdered(cs, i, j);
    } else {
      var k: nat, h: nat :| LinkedAt(events, i, j, k, h);
      assert LoweredAt(events, slcStreams, cs, k, h);
    }
  }

  /** The later of two commands reaches the earlier exactly if a chain of conflicts, chunks of one event and declared
      dependencies leads back to it: no other pair of commands, overlapping or not, is ordered. */
  lemma {:induction false} OrderedExactly(events: seq<Event>, slcStreams: nat, cs: seq<Command>, i: nat, j: nat)
    requires Chained(events) && Lowered(events, slcStreams, cs) && j < |cs|
    ensures Reaches(cs, j, i) <==> Chain(events, cs, j, i)
    decreases j
  {
    LoweredTracked(events, slcStreams, cs);
    if Reaches(cs, j, i) { ReachesChain(events, slcStreams, cs, i, j); }
    if Chain(events, cs, j, i) { ChainReaches(events, slcStreams, cs, i, j); }
  }

  lemma {:induction false} ReachesChain(events: seq<Event>, slcStreams: nat, cs: seq<Command>, i: nat, j: nat)
    requires Chained(events) && Lowered(events, slcStreams, cs) && Tracked(cs) && j < |cs| && Reaches(cs, j, i)
    ensures Chain(events, cs, j, i)
    decreases j
  {
    if i in cs[j].predecessors {
      PredecessorTies(events, slcStreams, cs, i, j);
    } else {
      var m :| m in cs[j].predecessors && m < j && Reaches(cs, m, i);
      PredecessorTies(events, slcStreams, cs, m, j);
      ReachesLower(cs, m, i);
      ReachesChain(events, slcStreams, cs, i, m);
    }
  }

  lemma {:induction false} ChainReaches(events: seq<Event>, slcStreams: nat, cs: seq<Command>, i: nat, j: nat)
    requires Chained(events) && Lowered(events, slcStreams, cs) && Tracked(cs) && j < |cs| && Chain(events, cs, j, i)
    ensures Reaches(cs, j, i)
    decreases j
  {
    if Tied(events, cs, i, j) {
      TiedOrdered(events, slcStreams, cs, i, j);
    } else {
      var m :| i < m < j && Tied(events, cs, m, j) && Chain(events, cs, m, i);
      TiedOrdered(events, slcStreams, cs, m, j);
      ChainReaches(events, slcStreams, cs, i, m);
      ReachesThrough(cs, j, m, i);
    }
  }

  /** Events of one chunk each, without declared dependencies. */
  ghost predicate Plain(events: seq<Event>) { forall e <- events :: e.depends.None? && Chunks(e.count) == 1 }

  lemma PlainUnlinked(events: seq<Event>, i: nat, j: nat)
    requires Chained(events) && Plain(events)
    ensures !Linked(events, i, j)
  {
    forall k: nat, h: nat ensures !LinkedAt(events, i, j, k, h) {
      if k < |events| { assert events[k] in events; }
    }
  }

  /** A command of the range between the two that changes it. */
  ghost predicate ChangedBetween(cs: seq<Command>, i: nat, j: nat) {
    exists m :: i < m < j && m < |cs| && j < |cs| && RangeOf(cs[m]) == RangeOf(cs[j]) && !cs[m].op.Read?
  }

  /** Without dependencies and with one chunk each, two commands are ordered exactly if they have the same range, and,
      for two reads, if it has been changed in between. Commands that overlap on different ranges are not ordered. */
  lemma {:induction false} PlainOrderedExactly(events: seq<Event>, slcStreams: nat, cs: seq<Command>, i: nat, j: nat)
    requires Chained(events) && Lowered(events, slcStreams, cs) && Plain(events) && i < j < |cs|
    ensures Reaches(cs, j, i) <==>
              RangeOf(cs[i]) == RangeOf(cs[j]) && (cs[i].op.Read? && cs[j].op.Read? ==> ChangedBetween(cs, i, j))
  {
    OrderedExactly(events, slcStreams, cs, i, j);
    if Chain(events, cs, j, i) {
      PlainChain(events, cs, i, j);
    }
    if RangeOf(cs[i]) == RangeOf(cs[j]) && !Conflict(cs[i], cs[j]) && ChangedBetween(cs, i, j) {
      var m :| i < m < j && RangeOf(cs[m]) == RangeOf(cs[j]) && !cs[m].op.Read?;
      assert Tied(events, cs, m, j) && Tied(events, cs, i, m);
      assert Chain(events, cs, m, i);
    }
  }

  lemma {:induction false} PlainChain(events: seq<Event>, cs: seq<Command>, i: nat, j: nat)
    requires Chained(events) && Plain(events) && j < |cs| && Chain(events, cs, j, i)
    ensures i < j && RangeOf(cs[i]) == RangeOf(cs[j]) && (cs[i].op.Read? && cs[j].op.Read? ==> ChangedBetween(cs, i, j))
    decreases j
  {
    if Tied(events, cs, i, j) {
      PlainUnlinked(events, i, j);
    } else {
      var m :| i < m < j && Tied(events, cs, m, j) && Chain(events, cs, m, i);
      PlainUnlinked(events, m, j);
      PlainChain(events, cs, i, m);
      assert RangeOf(cs[m]) == RangeOf(cs[j]);
    }
  }

  /** Without equal aligned blocks overlapping commands may be unordered: two overlapping writes of different
      length share no range, so neither waits for the other. */
  lemma UnalignedUnordered()
    ensures var e := Event(0, 0, Write, Slc, 0, 0, 8, 0, MemoryDump, None, None);
      var f := e.(sequence := 1, count := 4);
      && Chained([e, f])
      && forall cs: seq<Command> :: Lowered([e, f], 1, cs) ==> |cs| == 2 && Overlap(cs[0], cs[1]) && !Reaches(cs, 1, 0)
  {
    var e := Event(0, 0, Write, Slc, 0, 0, 8, 0, MemoryDump, None, None);
    var events := [e, e.(sequence := 1, count := 4)];
    forall k | 0 <= k < |events| ensures EventOk(events, k) {}
    forall cs: seq<Command> | Lowered(events, 1, cs) ensures |cs| == 2 && Overlap(cs[0], cs[1]) && !Reaches(cs, 1, 0) {
      assert First(events, 1) == 1 && First(events, 2) == 2;
      assert LoweredAt(events, 1, cs, 0, 0) && LoweredAt(events, 1, cs, 1, 0);
      assert cs[..1] == [cs[0]];
      assert LastMutation(cs[..1], RangeOf(cs[1])).None?;
      assert cs[1].predecessors == {};
    }
  }

  // ---- The converter ----

  datatype AddressState = AddressState(last: Option<nat>, readers: set<nat>)

  ghost predicate StateOk(states: map<Range, AddressState>, cs: seq<Command>, r: Range) {
    if r in states then states[r] == AddressState(LastMutation(cs, r), ReadersSince(cs, r))
    else LastMutation(cs, r).None? && ReadersSince(cs, r) == {}
  }

  /** The tracker knows, for every range, the last change and the reads since. */
  ghost predicate Follows(states: map<Range, AddressState>, cs: seq<Command>) { forall r :: StateOk(states, cs, r) }

  /** Remembers, per range, what later commands have to wait for. */
  class Tracker {
    var states: map<Range, AddressState>

    constructor ()
      ensures Follows(states, [])
    {
      states := map[];
    }

    method Update(r: Range, op: Operation, id: nat, ghost cs: seq<Command>, ghost c: Command) returns (dependencies: set<nat>)
      requires Follows(states, cs) && id == |cs| && RangeOf(c) == r && c.op == op
      modifies this
      ensures dependencies == Hazards(cs, r, op) && Follows(states, cs + [c])
    {
      assert StateOk(states, cs, r);
      assert (cs + [c])[..|cs|] == cs;
      var state := if r in states then states[r] else AddressState(None, {});
      dependencies := if state.last.Some? then {state.last.value} else {};
      if op.Read? {
        state := state.(readers := state.readers + {id});
      } else {
        dependencies := dependencies + state.readers;
        state := AddressState(Some(id), {});
      }
      states := states[r := state];
      forall q: Range ensures StateOk(states, cs + [c], q) { assert StateOk(old(states), cs, q); }
    }
  }

  ghost predicate Done(events: seq<Event>, slcStreams: nat, cs: seq<Command>, k: nat, i: nat, l: nat, h: nat)
    requires Chained(events)
  {
    l < k || (l == k && h < i) ==> LoweredAt(events, slcStreams, cs, l, h)
  }

  /** The chunks up to the `i`-th of the `k`-th event have been lowered. */
  ghost predicate LoweredTo(events: seq<Event>, slcStreams: nat, cs: seq<Command>, k: nat, i: nat)
    requires Chained(events) && k <= |events|
  {
    |cs| == First(events, k) + i && forall l, h :: Done(events, slcStreams, cs, k, i, l, h)
  }

  lemma LowerNext(events: seq<Event>, slcStreams: nat, cs: seq<Command>, k: nat, i: nat, c: Command)
    requires Chained(events) && k < |events| && i < Chunks(events[k].count) && LoweredTo(events, slcStreams, cs, k, i)
    requires c == Lower(events, slcStreams, cs, k, i)
    ensures LoweredTo(events, slcStreams, cs + [c], k, i + 1)
  {
    var after := cs + [c];
    assert after[..|cs|] == cs;
    var next := i + 1;
    forall l: nat, h: nat ensures Done(events, slcStreams, after, k, next, l, h) {
      assert Done(events, slcStreams, cs, k, i, l, h);
      if (l < k || (l == k && h < i)) && l < |events| && h < Chunks(events[l].count) {
        var j := First(events, l) + h;
        assert after[..j] == cs[..j];
      }
    }
  }

  lemma EventDone(events: seq<Event>, slcStreams: nat, cs: seq<Command>, k: nat)
    requires Chained(events) && k < |events| && LoweredTo(events, slcStreams, cs, k, Chunks(events[k].count))
    ensures LoweredTo(events, slcStreams, cs, k + 1, 0)
  {
    var next := k + 1;
    forall l: nat, h: nat ensures Done(events, slcStreams, cs, next, 0, l, h) {
      assert Done(events, slcStreams, cs, k, Chunks(events[k].count), l, h);
    }
  }

  ghost predicate FinalKnown(events: seq<Event>, finals: map<nat, nat>, k: nat, p: nat)
    requires Chained(events)
  {
    p < k && p < |events| ==> events[p].sequence in finals && finals[events[p].sequence] == Final(events, p)
  }

  ghost predicate FinalsKnown(events: seq<Event>, finals: map<nat, nat>, k: nat)
    requires Chained(events)
  {
    forall p :: FinalKnown(events, finals, k, p)
  }

  lemma NextFinal(events: seq<Event>, finals: map<nat, nat>, k: nat)
    requires Chained(events) && k < |events| && FinalsKnown(events, finals, k)
    ensures FinalsKnown(events, finals[events[k].sequence := Final(events, k)], k + 1)
  {
    var next := k + 1;
    var after := finals[events[k].sequence := Final(events, k)];
    forall p: nat ensures FinalKnown(events, after, next, p) {
      assert FinalKnown(events, finals, k, p);
      if p < k { SequencesAscend(events, p, k); }
    }
  }

  /** What the converter has gathered for a command: its hazards, the chunk before it and, for a first chunk, the
      last command of the event its event depends on. */
  lemma Gathered(events: seq<Event>, finals: map<nat, nat>, cs: seq<Command>, k: nat, i: nat, hazards: set<nat>)
    requires Chained(events) && k < |events| && FinalsKnown(events, finals, k) && |cs| == First(events, k) + i
    requires forall p <- hazards :: p < |cs|
    ensures var e := events[k];
      && (i == 0 && e.depends.Some? ==> e.depends.value in finals)
      && Links(events, k, i) == (if i > 0 then {|cs| - 1} else if e.depends.Some? then {finals[e.depends.value]} else {})
      && hazards + Links(events, k, i) - {|cs|} == hazards + Links(events, k, i)
  {
    LinksBefore(events, k, i);
    if i == 0 && events[k].depends.Some? {
      DependsEarlier(events, k);
      assert FinalKnown(events, finals, k, Position(events, events[k].depends.value));
    }
  }

  /** Lowers a chained list of events to commands. */
  method LowerEvents(events: seq<Event>, slcStreams: nat) returns (result: seq<Command>)
    requires Chained(events)
    ensures Lowered(events, slcStreams, result)
  {
    result := [];
    var finals: map<nat, nat> := map[];
    var tracker := new Tracker();
    for k := 0 to |events|
      invariant LoweredTo(events, slcStreams, result, k, 0) && Follows(tracker.states, result)
      invariant FinalsKnown(events, finals, k)
      invariant fresh(tracker)
    {
      var e := events[k];
      assert EventOk(events, k);
      var previous: Option<nat> := None;
      var left, start := e.count, e.start;
      for i := 0 to Chunks(e.count)
        invariant LoweredTo(events, slcStreams, result, k, i) && Follows(tracker.states, result)
        invariant i < Chunks(e.count) ==> left == e.count - i * MAX_NVME_SECTORS && start == ChunkStart(e, i)
        invariant left >= 0
        invariant previous == if i == 0 then None else Some(|result| - 1)
        invariant fresh(tracker)
      {
        ChunkSizes(e, i);
        var id := |result|;
        var size := if left < MAX_NVME_SECTORS then left else MAX_NVME_SECTORS;
        ghost var c := Lower(events, slcStreams, result, k, i);
        var dependencies := tracker.Update(Range(e.tier, e.stream, start, size), e.op, id, result, c);
        Gathered(events, finals, result, k, i, dependencies);
        ghost var hazards := dependencies;
        if i == 0 && e.depends.Some? { dependencies := dependencies + {finals[e.depends.value]}; }
        if previous.Some? { dependencies := dependencies + {previous.value}; }
        assert dependencies == hazards + Links(events, k, i);
        dependencies := dependencies - {id};
        LowerNext(events, slcStreams, result, k, i, c);
        var command := Command(id, e.sequence, i, Chunks(e.count), e.timestamp, FlowId(e.tier, e.stream, slcStreams),
                               e.tier, e.stream, e.op, start, size, e.node, e.reason, e.move, dependencies);
        assert command == c;
        result := result + [command];
        previous, start, left := Some(id), start + size, left - size;
      }
      EventDone(events, slcStreams, result, k);
      NextFinal(events, finals, k);
      finals := finals[e.sequence := previous.value];
    }
    forall k: nat, i: nat ensures LoweredAt(events, slcStreams, result, k, i) {
      assert Done(events, slcStreams, result, |events|, 0, k, i);
    }
  }
}
