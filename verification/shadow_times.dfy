/**
 When the blocks of the shadow pool were last programmed, told from outside: by which slots have come into being and how
 often blocks have been erased. The time that a block carries, by which collection chooses among victims with as many
 live pages, is that of the last program into it.
 */
module ShadowTimes {
  import opened Prelude
  import opened ShadowPool
  import opened ShadowInvariant
  import opened ShadowHost

  // ---- One stretch of steps at one time ----

  /** From `x` to `y` a block has been neither programmed nor opened nor erased. */
  predicate Untouched(x: Block, y: Block) {
    y.erases == x.erases && |y.slots| == |x.slots| && y.active == x.active
  }

  /** Unless it is erased a block only gains slots and stays in use. Its time changes only if it is touched, and if it is
      in use then, to the time of the stretch. */
  ghost predicate BlockSince(x: Block, y: Block, now: nat) {
    && x.erases <= y.erases
    && (y.erases == x.erases ==> |x.slots| <= |y.slots| && (x.active ==> y.active))
    && (if Untouched(x, y) then y.lastWrite == x.lastWrite else y.active ==> y.lastWrite == now)
  }

  ghost predicate TimeOk(s: State, r: State, now: nat, b: nat) {
    b < |s.blocks| && b < |r.blocks| ==> BlockSince(s.blocks[b], r.blocks[b], now)
  }

  /** A page that has come to another place is in a block of this time. */
  ghost predicate PageSince(s: State, r: State, now: nat, key: Key) {
    key in r.mapping && !(key in s.mapping && s.mapping[key] == r.mapping[key]) ==>
      r.mapping[key].block < |r.blocks| && r.blocks[r.mapping[key].block].lastWrite == now
  }

  /** From `s` to `r` there were steps at time `now`. */
  ghost predicate Since(s: State, r: State, now: nat) {
    |r.blocks| == |s.blocks| && (forall b :: TimeOk(s, r, now, b)) && (forall key :: PageSince(s, r, now, key))
  }

  ghost predicate Housed(s: State, key: Key) {
    key in s.mapping ==> s.mapping[key].block < |s.blocks| && s.blocks[s.mapping[key].block].active
  }

  lemma PagesHoused(s: State, v: nat, j: nat)
    requires Consistent(s, v, j)
    ensures forall key :: Housed(s, key)
  {
    forall key ensures Housed(s, key) {
      assert KeyOk(s, v, j, key);
      if key in s.mapping { assert BlockOk(s, s.mapping[key].block); }
    }
  }

  lemma SinceSame(s: State, now: nat)
    ensures Since(s, s, now)
  {}

  lemma SinceThrough(s: State, r: State, t: State, now: nat)
    requires Since(s, r, now) && Since(r, t, now) && forall key :: Housed(t, key)
    ensures Since(s, t, now)
  {
    forall b: nat ensures TimeOk(s, t, now, b) { assert TimeOk(s, r, now, b) && TimeOk(r, t, now, b); }
    forall key ensures PageSince(s, t, now, key) {
      assert PageSince(s, r, now, key) && PageSince(r, t, now, key) && Housed(t, key);
      if key in t.mapping { assert TimeOk(r, t, now, t.mapping[key].block); }
    }
  }

  // ---- The steps ----

  lemma TrimSince(s: Pool, key: Key, now: nat)
    requires Valid(s)
    ensures Since(s, Trim(s, key), now)
  {
    assert KeyOk(s, |s.blocks|, 0, key);
  }

  lemma OpenSince(s: Pool, v: nat, j: nat, stream: nat, now: nat)
    requires Consistent(s, v, j) && stream < |s.open| && s.free != {}
    ensures Since(s, OpenBlock(s, stream, now), now)
  {
    var e := LeastFree(s.free);
    assert EntryOk(s, e) && BlockOk(s, e.id);
  }

  lemma PlaceSince(s: Pool, id: nat, key: Key, now: nat, gc: bool)
    requires id < |s.blocks| && key.stream < |s.open|
    ensures Since(s, Place(s, id, key, now, gc), now)
  {}

  lemma EraseSince(s: Pool, v: nat, now: nat)
    requires v < |s.blocks|
    ensures Since(s, Erase(s, v), now)
  {}

  lemma MoveSince(s: Pool, v: nat, j: nat, now: nat)
    requires Consistent(s, v, j) && v < |s.blocks| && j < |s.blocks[v].slots| && BlockOk(s, v)
    requires s.blocks[v].slots[j].valid && 1 <= Reach(s, s.blocks[v].stream)
    ensures var r := Move(s, s.blocks[v].slots[j].key, now); r.Ok? && Since(s, r.value, now) == true
  {
    var key := s.blocks[v].slots[j].key;
    MoveKeeps(s, v, j, now);
    var r := Move(s, key, now).value;
    PagesHoused(r, v, j + 1);
    if s.open[key.stream].Some? {
      PlaceSince(s, s.open[key.stream].value, key, now, true);
    } else {
      var ready := OpenBlock(s, key.stream, now);
      OpenSince(s, v, j, key.stream, now);
      PlaceSince(ready, ready.open[key.stream].value, key, now, true);
      SinceThrough(s, ready, r, now);
    }
  }

  lemma SkipKeeps(s: Pool, v: nat, j: nat)
    requires Consistent(s, v, j) && v < |s.blocks| && j < |s.blocks[v].slots| && !s.blocks[v].slots[j].valid
    ensures Consistent(s, v, j + 1)
  {
    var slots := s.blocks[v].slots;
    assert slots[..j + 1] == slots[..j] + [slots[j]];
    SumAppend(ValidOf, slots[..j], slots[j]);
    SkipMap(s, v, j);
  }

  lemma {:induction false} MoveLiveSince(s: Pool, v: nat, j: nat, now: nat)
    requires Consistent(s, v, j) && v < |s.blocks| && BlockOk(s, v)
    requires Sum(ValidOf, s.blocks[v].slots[j..]) <= Reach(s, s.blocks[v].stream)
    ensures var r := MoveLive(s, s.blocks[v].slots[j..], now); r.Ok? && Since(s, r.value, now) == true
    decreases s.ppb - j
  {
    var slots := s.blocks[v].slots;
    var rest := slots[j..];
    MoveLiveKeeps(s, v, j, now);
    if rest == [] {
      SinceSame(s, now);
    } else {
      assert rest[0] == slots[j] && rest[1..] == slots[j + 1..];
      ValidSumBounds(rest[1..]);
      if !slots[j].valid {
        SkipKeeps(s, v, j);
        MoveLiveSince(s, v, j + 1, now);
      } else {
        MoveKeeps(s, v, j, now);
        MoveSince(s, v, j, now);
        var next := Move(s, slots[j].key, now).value;
        assert BlockOk(next, v);
        MoveLiveSince(next, v, j + 1, now);
        var r := MoveLive(s, rest, now).value;
        PagesHoused(r, v, s.ppb);
        SinceThrough(s, next, r, now);
      }
    }
  }

  /** Every page that a collection moves is then in a block of this time, and only blocks that it programs, opens or erases
      change their times. */
  lemma CollectSince(s: Pool, now: nat)
    requires Valid(s)
    ensures var r := Collect(s, now); r.Ok? && Since(s, r.value.pool, now) == true
  {
    CollectKeeps(s, now);
    if Victim(s).Some? && !Stuck(s, Victim(s).value) {
      var v := Victim(s).value;
      var b := s.blocks[v];
      assert BlockOk(s, v);
      assert b.slots[0..] == b.slots && b.slots[..0] == [];
      StartMap(s, v);
      ValidSumBounds(b.slots);
      if s.open[b.stream].Some? { assert FrontierOk(s, b.stream); }
      MoveLiveSince(s, v, 0, now);
      var moved := MoveLive(s, b.slots, now).value;
      EraseSince(moved, v, now);
      var r := Collect(s, now).value.pool;
      PagesHoused(r, |r.blocks|, 0);
      SinceThrough(s, moved, r, now);
    } else {
      SinceSame(s, now);
    }
  }

  lemma {:induction false} ReclaimSince(s: Pool, stream: nat, now: nat)
    requires Valid(s) && stream < |s.open| && s.open[stream].None?
    ensures var r := Reclaim(s, stream, now); r.Ok? && Since(s, r.value, now) == true
    decreases Stale(s)
  {
    ReclaimKeeps(s, stream, now);
    if s.active >= s.limit {
      CollectKeeps(s, now);
      StaleNonnegative(s);
      CollectSince(s, now);
      var c := Collect(s, now).value;
      if c.done && c.pool.open[stream].None? {
        ReclaimSince(c.pool, stream, now);
        var r := Reclaim(s, stream, now).value;
        PagesHoused(r, |r.blocks|, 0);
        SinceThrough(s, c.pool, r, now);
      }
    } else {
      SinceSame(s, now);
    }
  }

  lemma AllocateSince(s: Pool, stream: nat, now: nat)
    requires Valid(s) && stream < |s.open| && s.open[stream].None?
    ensures Allocate(s, stream, now).Ok? ==> Since(s, Allocate(s, stream, now).value, now) == true
  {
    ReclaimKeeps(s, stream, now);
    ReclaimSince(s, stream, now);
    SecondCollectionFutile(s, stream, now);
    AllocateKeeps(s, stream, now);
    var r := Reclaim(s, stream, now).value;
    if Allocate(s, stream, now).Ok? && r.open[stream].None? {
      OpenSince(r, |r.blocks|, 0, stream, now);
      var t := Allocate(s, stream, now).value;
      PagesHoused(t, |t.blocks|, 0);
      SinceThrough(s, r, t, now);
    }
  }

  /** A page that the host appends is then in a block of this time. */
  lemma AppendSince(s: Pool, key: Key, now: nat)
    requires Valid(s) && key.stream < |s.open| && key !in s.mapping
    ensures var r := Append(s, key, now);
      r.Ok? ==> Since(s, r.value, now) == true && key in r.value.mapping && r.value.mapping[key].block < |r.value.blocks|
                && r.value.blocks[r.value.mapping[key].block].lastWrite == now
  {
    AppendKeeps(s, key, now);
    var r := Append(s, key, now);
    if r.Ok? {
      if s.open[key.stream].Some? {
        PlaceSince(s, s.open[key.stream].value, key, now, false);
      } else {
        AllocateKeeps(s, key.stream, now);
        AllocateSince(s, key.stream, now);
        var ready := Allocate(s, key.stream, now).value;
        PlaceSince(ready, ready.open[key.stream].value, key, now, false);
        PagesHoused(r.value, |r.value.blocks|, 0);
        SinceThrough(s, ready, r.value, now);
      }
      assert PageSince(s, r.value, now, key);
    }
  }

  /** The same of a page that the host writes. */
  lemma WriteSince(s: Pool, key: Key, now: nat)
    requires Valid(s) && key.stream < |s.open|
    ensures var r := Write(s, key, now);
      r.Ok? ==> Since(s, r.value, now) == true && key in r.value.mapping && r.value.mapping[key].block < |r.value.blocks|
                && r.value.blocks[r.value.mapping[key].block].lastWrite == now
  {
    TrimKeeps(s, key);
    TrimSince(s, key, now);
    WriteKeeps(s, key, now);
    AppendSince(Trim(s, key), key, now);
    var r := Write(s, key, now);
    if r.Ok? {
      PagesHoused(r.value, |r.value.blocks|, 0);
      SinceThrough(s, Trim(s, key), r.value, now);
    }
  }

  // ---- Whole runs ----

  /** The times at which the slots of each block were programmed. */
  type Stamps = seq<seq<nat>>

  /** The slots that a block has gained were programmed now; an erased block has lost those it had. */
  function StampedBlock(stamps: seq<nat>, x: Block, y: Block, now: nat): seq<nat> {
    var kept := if y.erases == x.erases then stamps else [];
    kept + seq(if |y.slots| > |kept| then |y.slots| - |kept| else 0, _ => now)
  }

  function Stamped(stamps: Stamps, s: State, r: State, now: nat): (next: Stamps)
    requires |stamps| == |s.blocks| == |r.blocks|
    ensures |next| == |r.blocks|
  {
    seq(|r.blocks|, b requires 0 <= b < |r.blocks| => StampedBlock(stamps[b], s.blocks[b], r.blocks[b], now))
  }

  /** The times of the slots after a run, told from the slots and the erases before and after each operation. */
  function RunStamps(s: Pool, stamps: Stamps, ops: seq<HostOp>): (after: Stamps)
    requires Valid(s) && InStreams(s, ops) && |stamps| == |s.blocks|
    ensures Run(s, ops).Ok? ==> |after| == |Run(s, ops).value.blocks|
    decreases ops
  {
    if ops == [] then stamps
    else
      match ops[0]
      case HostTrim(key) => TrimKeeps(s, key); RunStamps(Trim(s, key), stamps, ops[1..])
      case HostWrite(key, now) =>
        WriteKeeps(s, key, now);
        match Write(s, key, now)
        case Exhausted => stamps
        case Ok(r) => RunStamps(r, Stamped(stamps, s, r, now), ops[1..])
  }

  /** The time of a block in use is that of the last program into it, which no earlier program into it exceeds. */
  ghost predicate StampOk(stamps: seq<nat>, b: Block, now: nat) {
    && |stamps| == |b.slots| && (forall t <- stamps :: t <= now)
    && (b.active && stamps != [] ==> b.lastWrite == stamps[|stamps| - 1] && forall t <- stamps :: t <= b.lastWrite)
  }

  ghost predicate StampsOk(s: State, stamps: Stamps, now: nat) {
    |stamps| == |s.blocks| && forall b | 0 <= b < |stamps| :: StampOk(stamps[b], s.blocks[b], now)
  }

  lemma BlockStamped(stamps: seq<nat>, x: Block, y: Block, before: nat, now: nat)
    requires StampOk(stamps, x, before) && BlockSince(x, y, now) && before <= now && (!x.active ==> x.slots == [])
    ensures StampOk(StampedBlock(stamps, x, y, now), y, now)
  {
    var after := StampedBlock(stamps, x, y, now);
    if y.erases == x.erases && |y.slots| == |x.slots| { assert after == stamps; }
  }

  lemma StampsStep(s: State, r: State, stamps: Stamps, before: nat, now: nat)
    requires Valid(s) && StampsOk(s, stamps, before) && Since(s, r, now) && before <= now
    ensures StampsOk(r, Stamped(stamps, s, r, now), now)
  {
    forall b | 0 <= b < |r.blocks| ensures StampOk(Stamped(stamps, s, r, now)[b], r.blocks[b], now) {
      assert TimeOk(s, r, now, b) && BlockOk(s, b);
      BlockStamped(stamps[b], s.blocks[b], r.blocks[b], before, now);
    }
  }

  lemma TrimStamps(s: Pool, key: Key, stamps: Stamps, now: nat)
    requires Valid(s) && StampsOk(s, stamps, now)
    ensures StampsOk(Trim(s, key), stamps, now)
  {
    var r := Trim(s, key);
    TrimKeeps(s, key);
    TrimSince(s, key, now);
    forall b | 0 <= b < |stamps| ensures StampOk(stamps[b], r.blocks[b], now) {
      assert KeyOk(s, |s.blocks|, 0, key);
      assert TimeOk(s, r, now, b) && StampOk(stamps[b], s.blocks[b], now);
    }
  }

  /** The time after a run. */
  function LastTime(now: nat, ops: seq<HostOp>): nat
    decreases ops
  {
    if ops == [] then now else LastTime(if ops[0].HostWrite? then ops[0].now else now, ops[1..])
  }

  /** The writes of a run are in order of time, none before `now`. */
  ghost predicate Ascending(now: nat, ops: seq<HostOp>)
    decreases ops
  {
    if ops == [] then true
    else match ops[0]
      case HostTrim(_) => Ascending(now, ops[1..])
      case HostWrite(_, time) => now <= time && Ascending(time, ops[1..])
  }

  /** After any run in order of time, whatever was collected on the way, the time of every block in use is that of the last
      program into it. */
  lemma {:induction false} RunTimes(s: Pool, stamps: Stamps, ops: seq<HostOp>, now: nat)
    requires Valid(s) && InStreams(s, ops) && StampsOk(s, stamps, now) && Ascending(now, ops)
    ensures Run(s, ops).Ok? ==> StampsOk(Run(s, ops).value, RunStamps(s, stamps, ops), LastTime(now, ops))
    decreases ops
  {
    if ops != [] {
      match ops[0]
      case HostTrim(key) =>
        TrimKeeps(s, key);
        TrimStamps(s, key, stamps, now);
        RunTimes(Trim(s, key), stamps, ops[1..], now);
      case HostWrite(key, time) =>
        WriteKeeps(s, key, time);
        WriteSince(s, key, time);
        var next := Write(s, key, time);
        if next.Ok? {
          StampsStep(s, next.value, stamps, now, time);
          RunTimes(next.value, Stamped(stamps, s, next.value, time), ops[1..], time);
        }
    }
  }

  /** Of the blocks that can be collected the victim has the fewest live pages, and none with as few was last programmed
      earlier. */
  ghost predicate OldestFirst(s: State, stamps: Stamps) {
    |stamps| == |s.blocks| && 0 < s.ppb
    && forall i | 0 <= i < |s.blocks| && Collectible(s, i) ::
         && Victim(s).Some? && |stamps[Victim(s).value]| == |stamps[i]| == s.ppb
         && s.blocks[Victim(s).value].live <= s.blocks[i].live
         && (s.blocks[Victim(s).value].live == s.blocks[i].live ==> stamps[Victim(s).value][s.ppb - 1] <= stamps[i][s.ppb - 1])
  }

  lemma StampsDecide(s: State, stamps: Stamps, now: nat)
    requires StampsOk(s, stamps, now) && 0 < s.ppb
    ensures OldestFirst(s, stamps)
  {
    forall i | 0 <= i < |s.blocks| && Collectible(s, i)
      ensures Victim(s).Some? && |stamps[Victim(s).value]| == |stamps[i]| == s.ppb
      ensures s.blocks[Victim(s).value].live <= s.blocks[i].live
      ensures s.blocks[Victim(s).value].live == s.blocks[i].live ==> stamps[Victim(s).value][s.ppb - 1] <= stamps[i][s.ppb - 1]
    {
      var v := Victim(s).value;
      assert StampOk(stamps[v], s.blocks[v], now) && StampOk(stamps[i], s.blocks[i], now);
    }
  }

  /** From construction, after any run in order of time. */
  lemma VictimOldest(n: nat, streams: nat, ppb: nat, limit: nat, ops: seq<HostOp>)
    requires 0 < streams && 0 < ppb && 0 < limit < n && (forall op <- ops :: op.key.stream < streams) && Ascending(0, ops)
    ensures Valid(Fresh(n, streams, ppb, limit))
    ensures var s := Fresh(n, streams, ppb, limit);
      Run(s, ops).Ok? ==> OldestFirst(Run(s, ops).value, RunStamps(s, seq(n, _ => []), ops)) == true
  {
    var s, none := Fresh(n, streams, ppb, limit), seq(n, _ => []);
    FreshValid(n, streams, ppb, limit);
    RunTimes(s, none, ops, 0);
    RunKeeps(s, ops);
    if Run(s, ops).Ok? { StampsDecide(Run(s, ops).value, RunStamps(s, none, ops), LastTime(0, ops)); }
  }
}
