/**
 The page-mapped log of the shadow FTL: host pages are appended to one frontier block per stream, stale
 copies are reclaimed by greedy garbage collection, and erased blocks wait in a heap ordered by wear.
 This module gives each step as a function of the pool's state; `ShadowDevice` holds the in-place code.
 */
module ShadowPool {
  import opened Prelude

  datatype Key = Key(page: nat, stream: nat)
  datatype Location = Location(block: nat, slot: nat)
  datatype Slot = Slot(key: Key, valid: bool)
  datatype Block = Block(slots: seq<Slot>, live: nat, stream: nat, erases: nat, lastWrite: nat, active: bool)
  datatype FreeEntry = FreeEntry(erases: nat, id: nat)
  datatype Outcome<+T> = Ok(value: T) | Exhausted

  datatype State = State(
    ppb: nat, limit: nat,
    blocks: seq<Block>, open: seq<Option<nat>>, free: set<FreeEntry>, mapping: map<Key, Location>,
    active: int, host: nat, collected: nat, erases: nat)

  /** Every index stored in the state is in range. */
  predicate Shaped(s: State) {
    && 0 < |s.open|
    && (forall t | 0 <= t < |s.open| :: s.open[t].Some? ==> s.open[t].value < |s.blocks|)
    && (forall e <- s.free :: e.id < |s.blocks|)
    && (forall i | 0 <= i < |s.blocks| :: s.blocks[i].stream < |s.open|)
  }

  type Pool = s: State | Shaped(s) witness State(1, 1, [], [None], {}, map[], 0, 0, 0, 0)

  // ---- The steps ----

  function Trim(s: Pool, key: Key): Pool
    requires Valid(s)
  {
    if key !in s.mapping then s
    else
      assert KeyOk(s, |s.blocks|, 0, key);
      var loc := s.mapping[key];
      var b := s.blocks[loc.block];
      assert BlockOk(s, loc.block);
      LiveSlotCounted(b, loc.slot);
      s.(blocks := s.blocks[loc.block := b.(slots := b.slots[loc.slot := b.slots[loc.slot].(valid := false)],
                                             live := b.live - 1)],
         mapping := s.mapping - {key})
  }

  /** Appends a page to block `id`; a block that becomes full stops being its stream's frontier. */
  function Push(s: Pool, id: nat, key: Key, now: nat, gc: bool): Pool
    requires id < |s.blocks| && key.stream < |s.open|
  {
    var b := s.blocks[id];
    var grown := b.(slots := b.slots + [Slot(key, true)], live := b.live + 1, lastWrite := now);
    s.(blocks := s.blocks[id := grown],
       open := if |grown.slots| == s.ppb then s.open[key.stream := None] else s.open,
       host := if gc then s.host else s.host + 1,
       collected := if gc then s.collected + 1 else s.collected)
  }

  /** A push after which the page map names the new slot. */
  function Place(s: Pool, id: nat, key: Key, now: nat, gc: bool): Pool
    requires id < |s.blocks| && key.stream < |s.open|
  {
    Push(s, id, key, now, gc).(mapping := s.mapping[key := Location(id, |s.blocks[id].slots|)])
  }

  predicate FreeLess(a: FreeEntry, b: FreeEntry) {
    a.erases < b.erases || (a.erases == b.erases && a.id <= b.id)
  }

  lemma {:induction false} LeastFreeExists(free: set<FreeEntry>)
    requires free != {}
    ensures exists e :: e in free && forall f <- free :: FreeLess(e, f)
  {
    var e :| e in free;
    if free != {e} {
      LeastFreeExists(free - {e});
      var m :| m in free - {e} && forall f <- free - {e} :: FreeLess(m, f);
      var least := if FreeLess(e, m) then e else m;
      assert forall f <- free :: f == e || f in free - {e};
      assert least in free && forall f <- free :: FreeLess(least, f);
    } else {
      assert forall f <- free :: FreeLess(e, f);
    }
  }

  /** The top of the free heap: the least worn erased block, lowest identity first. */
  function LeastFree(free: set<FreeEntry>): (e: FreeEntry)
    requires free != {}
    ensures e in free && forall f <- free :: FreeLess(e, f)
  {
    LeastFreeExists(free);
    var e :| e in free && forall f <- free :: FreeLess(e, f);
    e
  }

  /** Takes an erased block and makes it the frontier of `stream`. */
  function OpenBlock(s: Pool, stream: nat, now: nat): Pool
    requires s.free != {} && stream < |s.open|
  {
    var e := LeastFree(s.free);
    var b := s.blocks[e.id];
    s.(blocks := s.blocks[e.id := b.(slots := [], live := 0, stream := stream, active := true, lastWrite := now)],
       open := s.open[stream := Some(e.id)],
       free := s.free - {e},
       active := s.active + 1)
  }

  /** One page moved by garbage collection, which never collects again. */
  function Move(s: Pool, key: Key, now: nat): Outcome<Pool>
    requires key.stream < |s.open|
  {
    if s.open[key.stream].Some? then Ok(Place(s, s.open[key.stream].value, key, now, true))
    else if s.free == {} then Exhausted
    else
      var ready := OpenBlock(s, key.stream, now);
      Ok(Place(ready, ready.open[key.stream].value, key, now, true))
  }

  function MoveLive(s: Pool, slots: seq<Slot>, now: nat): (moved: Outcome<Pool>)
    requires forall x <- slots :: x.key.stream < |s.open|
    ensures moved.Ok? ==> |moved.value.blocks| == |s.blocks| && |moved.value.open| == |s.open|
    decreases slots
  {
    if slots == [] then Ok(s)
    else if !slots[0].valid then MoveLive(s, slots[1..], now)
    else match Move(s, slots[0].key, now)
      case Exhausted => Exhausted
      case Ok(moved) => MoveLive(moved, slots[1..], now)
  }

  predicate Collectible(s: State, i: nat)
    requires i < |s.blocks|
  {
    var b := s.blocks[i];
    b.active && |b.slots| == s.ppb && b.live != s.ppb
  }

  /** Fewest live pages first, then oldest write, fewest erases, lowest identity. */
  predicate Better(s: State, i: nat, j: nat)
    requires i < |s.blocks| && j < |s.blocks|
  {
    var a, b := s.blocks[i], s.blocks[j];
    a.live < b.live || (a.live == b.live &&
    (a.lastWrite < b.lastWrite || (a.lastWrite == b.lastWrite &&
    (a.erases < b.erases || (a.erases == b.erases && i < j)))))
  }

  function VictimAmong(s: State, n: nat): (victim: Option<nat>)
    requires n <= |s.blocks|
    ensures victim.Some? ==> victim.value < n && Collectible(s, victim.value)
    ensures victim.Some? ==> forall i | 0 <= i < n && Collectible(s, i) && i != victim.value :: Better(s, victim.value, i)
    ensures victim.None? ==> forall i | 0 <= i < n :: !Collectible(s, i)
  {
    if n == 0 then None
    else
      var best := VictimAmong(s, n - 1);
      if Collectible(s, n - 1) && (best.None? || Better(s, n - 1, best.value)) then Some(n - 1) else best
  }

  function Victim(s: State): Option<nat> { VictimAmong(s, |s.blocks|) }

  /** Pages that still fit on the open frontier of `stream`. */
  function Room(s: Pool, stream: nat): int
    requires stream < |s.open|
  {
    if s.open[stream].None? then 0 else s.ppb - |s.blocks[s.open[stream].value].slots|
  }

  /** Collection gives up without an erased block unless the victim's pages fit on its stream's frontier. */
  predicate Stuck(s: Pool, v: nat)
    requires v < |s.blocks|
  {
    var b := s.blocks[v];
    s.free == {} && b.live != 0 && (s.open[b.stream].None? || Room(s, b.stream) < b.live)
  }

  function Erase(s: Pool, v: nat): Pool
    requires v < |s.blocks|
  {
    var b := s.blocks[v];
    s.(blocks := s.blocks[v := b.(slots := [], live := 0, active := false, erases := b.erases + 1)],
       free := s.free + {FreeEntry(b.erases + 1, v)},
       active := s.active - 1,
       erases := s.erases + 1)
  }

  datatype Collection = Collection(pool: Pool, done: bool)

  function Collect(s: Pool, now: nat): Outcome<Collection>
    requires Valid(s)
  {
    match Victim(s)
    case None => Ok(Collection(s, false))
    case Some(v) =>
      assert BlockOk(s, v);
      if Stuck(s, v) then Ok(Collection(s, false))
      else match MoveLive(s, s.blocks[v].slots, now)
        case Exhausted => Exhausted
        case Ok(moved) => Ok(Collection(Erase(moved, v), true))
  }

  // ---- Representation invariant ----

  function ValidOf(x: Slot): int { if x.valid then 1 else 0 }
  function HeldOf(b: Block): int { |b.slots| }
  function LiveOf(b: Block): int { b.live }
  function StaleOf(b: Block): int { |b.slots| - b.live }
  function ActiveOf(b: Block): int { if b.active then 1 else 0 }
  function ErasesOf(b: Block): int { b.erases }
  function SomeOf(o: Option<nat>): int { if o.Some? then 1 else 0 }
  function FrontierOf(ppb: nat): Block -> int { (b: Block) => if b.active && |b.slots| < ppb then 1 else 0 }

  function Stale(s: State): int { Sum(StaleOf, s.blocks) }

  ghost predicate BlockOk(s: State, i: nat)
    requires i < |s.blocks|
  {
    var b := s.blocks[i];
    && |b.slots| <= s.ppb
    && b.live == Sum(ValidOf, b.slots)
    && (!b.active ==> b.slots == [])
    && (forall x <- b.slots :: x.key.stream == b.stream)
    && b.stream < |s.open|
    && (b.active && |b.slots| < s.ppb ==> s.open[b.stream] == Some(i))
  }

  ghost predicate FrontierOk(s: State, t: nat)
    requires t < |s.open|
  {
    s.open[t].Some? ==>
      && s.open[t].value < |s.blocks|
      && var b := s.blocks[s.open[t].value];
         b.active && b.stream == t && |b.slots| < s.ppb
  }

  /** Slot `i` of block `b` holds the current copy of its page, unless it is one of the first `j` slots of
      the block `v` being collected, which have already been copied elsewhere. */
  ghost predicate Current(s: State, v: nat, j: nat, b: nat, i: nat) {
    b < |s.blocks| && i < |s.blocks[b].slots| && s.blocks[b].slots[i].valid && !(b == v && i < j)
  }

  ghost predicate SlotOk(s: State, v: nat, j: nat, b: nat, i: nat) {
    Current(s, v, j, b, i) ==>
      var key := s.blocks[b].slots[i].key;
      key in s.mapping && s.mapping[key] == Location(b, i)
  }

  ghost predicate KeyOk(s: State, v: nat, j: nat, key: Key) {
    key in s.mapping ==>
      var loc := s.mapping[key];
      Current(s, v, j, loc.block, loc.slot) && s.blocks[loc.block].slots[loc.slot].key == key
  }

  /** A slot is current exactly when the page map names it. */
  ghost predicate MapOk(s: State, v: nat, j: nat) {
    && (forall key :: KeyOk(s, v, j, key))
    && (forall b, i :: SlotOk(s, v, j, b, i))
  }

  ghost predicate EntryOk(s: State, e: FreeEntry) {
    e in s.free <==> e.id < |s.blocks| && !s.blocks[e.id].active && s.blocks[e.id].erases == e.erases
  }

  ghost predicate FreeOk(s: State) {
    && (forall e :: EntryOk(s, e))
    && |s.free| + s.active == |s.blocks|
  }

  ghost predicate CountsOk(s: State, v: nat, j: nat)
    requires v < |s.blocks| ==> j <= |s.blocks[v].slots|
  {
    && s.active == Sum(ActiveOf, s.blocks)
    && Sum(FrontierOf(s.ppb), s.blocks) == Sum(SomeOf, s.open)
    && Sum(LiveOf, s.blocks) == |s.mapping| + (if v < |s.blocks| then Sum(ValidOf, s.blocks[v].slots[..j]) else 0)
    && s.host + s.collected == s.erases * s.ppb + Sum(HeldOf, s.blocks)
    && s.erases == Sum(ErasesOf, s.blocks)
  }

  ghost predicate Consistent(s: State, v: nat, j: nat) {
    && Shaped(s)
    && 0 < s.ppb
    && 0 < s.limit < |s.blocks|
    && (v < |s.blocks| ==> s.blocks[v].active && |s.blocks[v].slots| == s.ppb && j <= s.ppb)
    && (forall i | 0 <= i < |s.blocks| :: BlockOk(s, i))
    && (forall t | 0 <= t < |s.open| :: FrontierOk(s, t))
    && MapOk(s, v, j)
    && FreeOk(s)
    && CountsOk(s, v, j)
  }

  /** The invariant between host operations: no block is being collected. */
  ghost predicate Valid(s: State) { Consistent(s, |s.blocks|, 0) }

  lemma {:induction false} LiveSlotCounted(b: Block, i: nat)
    requires b.live == Sum(ValidOf, b.slots) && i < |b.slots| && b.slots[i].valid
    ensures b.live > 0
  {
    SumUpdate(ValidOf, b.slots, i, b.slots[i].(valid := false));
    ValidSumBounds(b.slots[i := b.slots[i].(valid := false)]);
  }

  lemma {:induction false} ValidSumBounds(slots: seq<Slot>)
    ensures 0 <= Sum(ValidOf, slots) <= |slots|
  {
    if slots != [] { ValidSumBounds(slots[1..]); }
  }
}
