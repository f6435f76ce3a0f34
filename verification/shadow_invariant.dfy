/** Every step of the shadow pool keeps its representation invariant; collection never fails. */
module ShadowInvariant {
  import opened Prelude
  import opened ShadowPool

  lemma TrimMap(s: Pool, key: Key)
    requires Valid(s) && key in s.mapping
    ensures MapOk(Trim(s, key), |s.blocks|, 0)
  {
    var r, n, loc := Trim(s, key), |s.blocks|, s.mapping[key];
    forall k ensures KeyOk(r, n, 0, k) {
      assert KeyOk(s, n, 0, k) && KeyOk(s, n, 0, key);
    }
    forall b: nat, i: nat ensures SlotOk(r, n, 0, b, i) {
      assert SlotOk(s, n, 0, b, i) && KeyOk(s, n, 0, key);
    }
  }

  /** Replacing a block by one with the same wear and the same use leaves the heap of erased blocks right. */
  lemma FreeUntouched(s: State, r: State, i: nat)
    requires i < |s.blocks| && |r.blocks| == |s.blocks| && r.free == s.free && r.active == s.active
    requires FreeOk(s) && r.blocks == s.blocks[i := r.blocks[i]]
    requires r.blocks[i].active == s.blocks[i].active && r.blocks[i].erases == s.blocks[i].erases
    ensures FreeOk(r)
  {
    forall e ensures EntryOk(r, e) { assert EntryOk(s, e); }
  }

  /** A host trim forgets exactly one page. */
  lemma TrimKeeps(s: Pool, key: Key)
    requires Valid(s)
    ensures Valid(Trim(s, key))
    ensures Trim(s, key).mapping == s.mapping - {key}
    ensures Trim(s, key).free == s.free && Trim(s, key).open == s.open && Trim(s, key).host == s.host
    ensures |Trim(s, key).blocks| == |s.blocks| && Trim(s, key).ppb == s.ppb
  {
    if key in s.mapping {
      assert KeyOk(s, |s.blocks|, 0, key);
      var loc := s.mapping[key];
      var b := s.blocks[loc.block];
      assert BlockOk(s, loc.block);
      LiveSlotCounted(b, loc.slot);
      SumUpdate(ValidOf, b.slots, loc.slot, b.slots[loc.slot].(valid := false));
      var r := Trim(s, key);
      BlockChange(s, loc.block, r.blocks[loc.block]);
      forall i | 0 <= i < |r.blocks| ensures BlockOk(r, i) { assert BlockOk(s, i); }
      forall t | 0 <= t < |r.open| ensures FrontierOk(r, t) { assert FrontierOk(s, t); }
      TrimMap(s, key);
      FreeUntouched(s, r, loc.block);
      assert r.mapping.Keys == s.mapping.Keys - {key};
    } else {
      assert s.mapping - {key} == s.mapping;
    }
  }

  /** How replacing one block changes each of the totals. */
  lemma BlockChange(s: State, i: nat, b: Block)
    requires i < |s.blocks|
    ensures Sum(ActiveOf, s.blocks[i := b]) == Sum(ActiveOf, s.blocks) - ActiveOf(s.blocks[i]) + ActiveOf(b)
    ensures Sum(LiveOf, s.blocks[i := b]) == Sum(LiveOf, s.blocks) - s.blocks[i].live + b.live
    ensures Sum(HeldOf, s.blocks[i := b]) == Sum(HeldOf, s.blocks) - |s.blocks[i].slots| + |b.slots|
    ensures Sum(ErasesOf, s.blocks[i := b]) == Sum(ErasesOf, s.blocks) - s.blocks[i].erases + b.erases
    ensures Sum(StaleOf, s.blocks[i := b]) == Sum(StaleOf, s.blocks) - StaleOf(s.blocks[i]) + StaleOf(b)
    ensures Sum(FrontierOf(s.ppb), s.blocks[i := b])
         == Sum(FrontierOf(s.ppb), s.blocks) - FrontierOf(s.ppb)(s.blocks[i]) + FrontierOf(s.ppb)(b)
  {
    SumUpdate(ActiveOf, s.blocks, i, b);
    SumUpdate(LiveOf, s.blocks, i, b);
    SumUpdate(HeldOf, s.blocks, i, b);
    SumUpdate(ErasesOf, s.blocks, i, b);
    SumUpdate(StaleOf, s.blocks, i, b);
    SumUpdate(FrontierOf(s.ppb), s.blocks, i, b);
  }

  lemma PushBlocks(s: Pool, id: nat, key: Key, now: nat, gc: bool)
    requires id < |s.blocks| && key.stream < |s.open|
    requires s.open[key.stream] == Some(id)
    requires (forall i | 0 <= i < |s.blocks| :: BlockOk(s, i)) && (forall t | 0 <= t < |s.open| :: FrontierOk(s, t))
    ensures var r := Place(s, id, key, now, gc);
      && (forall i | 0 <= i < |r.blocks| :: BlockOk(r, i))
      && (forall t | 0 <= t < |r.open| :: FrontierOk(r, t))
  {
    var b := s.blocks[id];
    assert FrontierOk(s, key.stream) && BlockOk(s, id);
    SumAppend(ValidOf, b.slots, Slot(key, true));
    var r := Place(s, id, key, now, gc);
    forall i | 0 <= i < |r.blocks| ensures BlockOk(r, i) { assert BlockOk(s, i); }
    forall t | 0 <= t < |r.open| ensures FrontierOk(r, t) { assert FrontierOk(s, t); }
  }

  lemma PushCounts(s: Pool, v: nat, j: nat, id: nat, key: Key, now: nat, gc: bool)
    requires Consistent(s, v, j)
    requires id < |s.blocks| && key.stream < |s.open| && s.open[key.stream] == Some(id)
    requires if gc then v < |s.blocks| && j < |s.blocks[v].slots| && s.blocks[v].slots[j] == Slot(key, true) && key in s.mapping
             else v == |s.blocks| && j == 0 && key !in s.mapping
    ensures CountsOk(Place(s, id, key, now, gc), v, if gc then j + 1 else 0)
    ensures Stale(Place(s, id, key, now, gc)) == Stale(s)
  {
    var r := Place(s, id, key, now, gc);
    assert FrontierOk(s, key.stream) && BlockOk(s, id);
    BlockChange(s, id, r.blocks[id]);
    SumUpdate(SomeOf, s.open, key.stream, None);
    if gc {
      assert id != v;
      var slots := s.blocks[v].slots;
      assert slots[..j + 1] == slots[..j] + [slots[j]];
      SumAppend(ValidOf, slots[..j], slots[j]);
      assert r.mapping.Keys == s.mapping.Keys;
      assert |r.mapping| == |s.mapping|;
    }
  }

  lemma PlaceMap(s: Pool, v: nat, j: nat, id: nat, key: Key, now: nat, gc: bool)
    requires MapOk(s, v, j)
    requires id < |s.blocks| && key.stream < |s.open| && id != v
    requires if gc then v < |s.blocks| && j < |s.blocks[v].slots| && s.blocks[v].slots[j] == Slot(key, true)
             else v == |s.blocks| && j == 0 && key !in s.mapping
    ensures MapOk(Place(s, id, key, now, gc), v, if gc then j + 1 else 0)
  {
    var r, j' := Place(s, id, key, now, gc), if gc then j + 1 else 0;
    if gc { assert SlotOk(s, v, j, v, j); }
    forall k ensures KeyOk(r, v, j', k) {
      assert KeyOk(s, v, j, k);
    }
    forall b: nat, i: nat ensures SlotOk(r, v, j', b, i) {
      assert SlotOk(s, v, j, b, i);
    }
  }

  /** Appending the current copy of a page, from the host or from the block being collected. */
  lemma PlaceKeeps(s: Pool, v: nat, j: nat, id: nat, key: Key, now: nat, gc: bool)
    requires Consistent(s, v, j)
    requires id < |s.blocks| && key.stream < |s.open| && s.open[key.stream] == Some(id)
    requires if gc then v < |s.blocks| && j < |s.blocks[v].slots| && s.blocks[v].slots[j] == Slot(key, true)
             else v == |s.blocks| && j == 0 && key !in s.mapping
    ensures var r := Place(s, id, key, now, gc);
      && Consistent(r, v, if gc then j + 1 else 0)
      && r.mapping.Keys == s.mapping.Keys + {key}
      && r.free == s.free && Stale(r) == Stale(s)
      && Room(r, key.stream) == Room(s, key.stream) - 1
      && (gc ==> key in s.mapping && r.blocks[v] == s.blocks[v] && r.host == s.host)
  {
    assert FrontierOk(s, key.stream) && BlockOk(s, id);
    if gc { assert SlotOk(s, v, j, v, j); }
    PushBlocks(s, id, key, now, gc);
    PushCounts(s, v, j, id, key, now, gc);
    PlaceMap(s, v, j, id, key, now, gc);
    FreeUntouched(s, Place(s, id, key, now, gc), id);
  }

  lemma OpenMap(s: Pool, v: nat, j: nat, stream: nat, now: nat)
    requires Consistent(s, v, j) && stream < |s.open| && s.free != {}
    ensures MapOk(OpenBlock(s, stream, now), v, j) && FreeOk(OpenBlock(s, stream, now))
  {
    var r, e := OpenBlock(s, stream, now), LeastFree(s.free);
    assert EntryOk(s, e) && BlockOk(s, e.id);
    forall k ensures KeyOk(r, v, j, k) { assert KeyOk(s, v, j, k); }
    forall b: nat, i: nat ensures SlotOk(r, v, j, b, i) { assert SlotOk(s, v, j, b, i); }
    forall f ensures EntryOk(r, f) { assert EntryOk(s, f); }
  }

  lemma OpenKeeps(s: Pool, v: nat, j: nat, stream: nat, now: nat)
    requires Consistent(s, v, j)
    requires stream < |s.open| && s.open[stream].None? && s.free != {}
    ensures var r := OpenBlock(s, stream, now);
      && Consistent(r, v, j)
      && r.mapping == s.mapping && Stale(r) == Stale(s) && r.host == s.host
      && r.open[stream].Some? && Room(r, stream) == s.ppb
      && r.free == s.free - {LeastFree(s.free)}
      && (v < |s.blocks| ==> r.blocks[v] == s.blocks[v])
  {
    var e := LeastFree(s.free);
    var r := OpenBlock(s, stream, now);
    assert EntryOk(s, e) && BlockOk(s, e.id);
    BlockChange(s, e.id, r.blocks[e.id]);
    SumUpdate(SomeOf, s.open, stream, Some(e.id));
    forall i | 0 <= i < |r.blocks| ensures BlockOk(r, i) { assert BlockOk(s, i); }
    forall t | 0 <= t < |r.open| ensures FrontierOk(r, t) { assert FrontierOk(s, t); }
    OpenMap(s, v, j, stream, now);
  }

  /** Pages that collection can still append to `stream` before it would need a second erased block. */
  function Reach(s: Pool, stream: nat): int
    requires stream < |s.open|
  {
    Room(s, stream) + (if s.free == {} then 0 else s.ppb)
  }

  lemma SkipMap(s: Pool, v: nat, j: nat)
    requires MapOk(s, v, j) && v < |s.blocks| && j < |s.blocks[v].slots| && !s.blocks[v].slots[j].valid
    ensures MapOk(s, v, j + 1)
  {
    var next := j + 1;
    forall k ensures KeyOk(s, v, next, k) { assert KeyOk(s, v, j, k); }
    forall b: nat, i: nat ensures SlotOk(s, v, next, b, i) { assert SlotOk(s, v, j, b, i); }
  }

  lemma StartMap(s: Pool, v: nat)
    requires MapOk(s, |s.blocks|, 0)
    ensures MapOk(s, v, 0)
  {
    forall k ensures KeyOk(s, v, 0, k) { assert KeyOk(s, |s.blocks|, 0, k); }
    forall b: nat, i: nat ensures SlotOk(s, v, 0, b, i) { assert SlotOk(s, |s.blocks|, 0, b, i); }
  }

  /** Moving the next current page out of the block being collected. */
  lemma MoveKeeps(s: Pool, v: nat, j: nat, now: nat)
    requires Consistent(s, v, j) && v < |s.blocks| && j < |s.blocks[v].slots| && BlockOk(s, v)
    requires s.blocks[v].slots[j].valid
    requires 1 <= Reach(s, s.blocks[v].stream)
    ensures var r := Move(s, s.blocks[v].slots[j].key, now);
      && r.Ok?
      && Consistent(r.value, v, j + 1) && r.value.blocks[v] == s.blocks[v]
      && r.value.mapping.Keys == s.mapping.Keys
      && Stale(r.value) == Stale(s) && r.value.host == s.host && r.value.ppb == s.ppb && r.value.limit == s.limit
      && Room(r.value, s.blocks[v].stream) >= 0
      && (Reach(r.value, s.blocks[v].stream) == Reach(s, s.blocks[v].stream) - 1
          || Room(r.value, s.blocks[v].stream) == s.ppb - 1)
  {
    var key := s.blocks[v].slots[j].key;
    assert FrontierOk(s, key.stream) && s.blocks[v].slots[j] == Slot(key, true);
    var ready := s;
    if s.open[key.stream].None? {
      OpenKeeps(s, v, j, key.stream, now);
      ready := OpenBlock(s, key.stream, now);
    }
    PlaceKeeps(ready, v, j, ready.open[key.stream].value, key, now, true);
  }

  lemma {:induction false} MoveLiveKeeps(s: Pool, v: nat, j: nat, now: nat)
    requires Consistent(s, v, j) && v < |s.blocks| && BlockOk(s, v)
    requires Sum(ValidOf, s.blocks[v].slots[j..]) <= Reach(s, s.blocks[v].stream)
    ensures var r := MoveLive(s, s.blocks[v].slots[j..], now);
      && r.Ok?
      && Consistent(r.value, v, s.ppb) && r.value.blocks[v] == s.blocks[v]
      && r.value.mapping.Keys == s.mapping.Keys
      && Stale(r.value) == Stale(s) && r.value.host == s.host && r.value.ppb == s.ppb && r.value.limit == s.limit
    decreases s.ppb - j
  {
    var slots := s.blocks[v].slots;
    var rest := slots[j..];
    if rest != [] {
      assert rest[0] == slots[j] && rest[1..] == slots[j + 1..];
      ValidSumBounds(rest[1..]);
      if !slots[j].valid {
        assert slots[..j + 1] == slots[..j] + [slots[j]];
        SumAppend(ValidOf, slots[..j], slots[j]);
        SkipMap(s, v, j);
        MoveLiveKeeps(s, v, j + 1, now);
      } else {
        MoveKeeps(s, v, j, now);
        var next := Move(s, slots[j].key, now).value;
        assert BlockOk(next, v);
        MoveLiveKeeps(next, v, j + 1, now);
      }
    }
  }

  lemma EraseMap(s: Pool, v: nat)
    requires v < |s.blocks| && Consistent(s, v, s.ppb)
    ensures MapOk(Erase(s, v), |s.blocks|, 0) && FreeOk(Erase(s, v))
  {
    var r, n := Erase(s, v), |s.blocks|;
    assert BlockOk(s, v);
    forall k ensures KeyOk(r, n, 0, k) { assert KeyOk(s, v, s.ppb, k); }
    forall b: nat, i: nat ensures SlotOk(r, n, 0, b, i) { assert SlotOk(s, v, s.ppb, b, i); }
    assert EntryOk(s, FreeEntry(r.blocks[v].erases, v));
    forall e ensures EntryOk(r, e) { assert EntryOk(s, e); }
  }

  lemma OneMore(a: int, b: int)
    ensures (a + 1) * b == a * b + b
  {}

  lemma EraseCounts(s: Pool, v: nat)
    requires v < |s.blocks| && s.blocks[v].active && |s.blocks[v].slots| == s.ppb
    requires CountsOk(s, v, s.ppb)
    requires s.blocks[v].live == Sum(ValidOf, s.blocks[v].slots)
    ensures CountsOk(Erase(s, v), |s.blocks|, 0)
    ensures Stale(Erase(s, v)) == Stale(s) - (s.ppb - s.blocks[v].live)
  {
    var r := Erase(s, v);
    assert s.blocks[v].slots[..s.ppb] == s.blocks[v].slots;
    BlockChange(s, v, r.blocks[v]);
    OneMore(s.erases, s.ppb);
  }

  lemma EraseKeeps(s: Pool, v: nat)
    requires v < |s.blocks| && Consistent(s, v, s.ppb)
    ensures Valid(Erase(s, v))
    ensures Stale(Erase(s, v)) == Stale(s) - (s.ppb - s.blocks[v].live)
  {
    var r := Erase(s, v);
    assert BlockOk(s, v);
    EraseCounts(s, v);
    forall i | 0 <= i < |r.blocks| ensures BlockOk(r, i) { assert BlockOk(s, i); }
    forall t | 0 <= t < |r.open| ensures FrontierOk(r, t) { assert FrontierOk(s, t); }
    EraseMap(s, v);
  }

  /** Collection never runs out of erased blocks, is invisible in the set of mapped pages, and when it makes
      progress it strictly lowers the number of stale slots and leaves an erased block. */
  lemma CollectKeeps(s: Pool, now: nat)
    requires Valid(s)
    ensures Collect(s, now).Ok?
    ensures var r := Collect(s, now).value;
      && Valid(r.pool)
      && r.pool.mapping.Keys == s.mapping.Keys && r.pool.host == s.host
      && r.pool.ppb == s.ppb && r.pool.limit == s.limit
      && |r.pool.blocks| == |s.blocks| && |r.pool.open| == |s.open|
      && (r.done ==> Stale(r.pool) < Stale(s) && r.pool.free != {})
      && (!r.done ==> r.pool == s)
      && (r.done <==> Victim(s).Some? && !Stuck(s, Victim(s).value))
  {
    if Victim(s).Some? && !Stuck(s, Victim(s).value) {
      var v := Victim(s).value;
      var b := s.blocks[v];
      assert BlockOk(s, v);
      assert b.slots[0..] == b.slots && b.slots[..0] == [];
      StartMap(s, v);
      ValidSumBounds(b.slots);
      if s.open[b.stream].Some? { assert FrontierOk(s, b.stream); }
      MoveLiveKeeps(s, v, 0, now);
      EraseKeeps(MoveLive(s, b.slots, now).value, v);
    }
  }

  lemma {:induction false} StaleSum(blocks: seq<Block>)
    requires forall b <- blocks :: b.live == Sum(ValidOf, b.slots)
    ensures 0 <= Sum(StaleOf, blocks)
  {
    if blocks != [] {
      assert blocks[0] in blocks;
      ValidSumBounds(blocks[0].slots);
      StaleSum(blocks[1..]);
    }
  }

  lemma StaleNonnegative(s: State)
    requires Valid(s)
    ensures 0 <= Stale(s)
  {
    forall b | b in s.blocks ensures b.live == Sum(ValidOf, b.slots) {
      var i :| 0 <= i < |s.blocks| && s.blocks[i] == b;
      assert BlockOk(s, i);
    }
    StaleSum(s.blocks);
  }
}
