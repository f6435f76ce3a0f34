/**
 The constructor accepts a pool whose physical pages exceed its nominal pages and which has two blocks more
 than streams. That alone does not keep a host that stays within the nominal pages from running out of space.
 */
module ShadowGeometry {
  import opened Prelude
  import opened ShadowPool
  import opened ShadowInvariant
  import opened ShadowHost

  predicate GeometryAccepted(n: nat, streams: nat, ppb: nat, nominal: nat) {
    streams + 2 <= n && nominal < n * ppb
  }

  function Page(i: nat): Key { Key(i, 0) }
  function Full(i: nat, j: nat, live: nat, a: bool, b: bool): Block {
    Block([Slot(Page(i), a), Slot(Page(j), b)], live, 0, 0, 0, true)
  }
  function Half(i: nat): Block { Block([Slot(Page(i), true)], 1, 0, 0, 0, true) }

  const F1 := FreeEntry(0, 1)
  const F2 := FreeEntry(0, 2)
  const S1 := State(2, 2, [Half(0), ERASED, ERASED], [Some(0)], {F1, F2}, map[Page(0) := Location(0, 0)], 1, 1, 0, 0)
  const S2 := State(2, 2, [Full(0, 1, 2, true, true), ERASED, ERASED], [None], {F1, F2},
                    map[Page(0) := Location(0, 0), Page(1) := Location(0, 1)], 1, 2, 0, 0)
  const S3 := State(2, 2, [Full(0, 1, 2, true, true), Half(2), ERASED], [Some(1)], {F2}, S2.mapping[Page(2) := Location(1, 0)], 2, 3, 0, 0)
  const S4 := State(2, 2, [Full(0, 1, 2, true, true), Full(2, 3, 2, true, true), ERASED], [None], {F2},
                    S3.mapping[Page(3) := Location(1, 1)], 2, 4, 0, 0)
  const S5 := State(2, 2, [Full(0, 1, 2, true, true), Full(2, 3, 2, true, true), Half(4)], [Some(2)], {},
                    S4.mapping[Page(4) := Location(2, 0)], 3, 5, 0, 0)
  const S6 := State(2, 2, [Full(0, 1, 1, false, true), Full(2, 3, 2, true, true), Half(4)], [Some(2)], {},
                    S5.mapping - {Page(0)}, 3, 5, 0, 0)
  const S7 := State(2, 2, [Full(0, 1, 1, false, true), Full(2, 3, 2, true, true), Full(4, 5, 2, true, true)], [None], {},
                    S6.mapping[Page(5) := Location(2, 1)], 3, 6, 0, 0)
  const S8 := State(2, 2, [Full(0, 1, 1, false, true), Full(2, 3, 1, false, true), Full(4, 5, 2, true, true)], [None], {},
                    S7.mapping - {Page(2)}, 3, 6, 0, 0)

  function W(i: nat): HostOp { HostWrite(Page(i), 0) }
  function T(i: nat): HostOp { HostTrim(Page(i)) }

  /** A write of an unmapped page that needs no collection. */
  function Grown(s: Pool, i: nat): Pool
    requires s.open[0].Some? || s.free != {}
  {
    var ready := if s.open[0].Some? then s else OpenBlock(s, 0, 0);
    Place(ready, ready.open[0].value, Page(i), 0, false)
  }

  lemma WriteGrows(s: Pool, i: nat)
    requires Valid(s) && Page(i) !in s.mapping
    requires s.open[0].Some? || (s.free != {} && (s.active < s.limit || Victim(s).None?))
    ensures Write(s, Page(i), 0) == Ok(Grown(s, i))
  {
    assert Trim(s, Page(i)) == s;
    if s.open[0].None? && s.active >= s.limit {
      assert Collect(s, 0) == Ok(Collection(s, false));
      assert Reclaim(s, 0, 0) == Ok(s);
    }
  }

  /** The operations end in the exhaustion error. */
  ghost predicate Over(s: Pool, ops: seq<HostOp>) { Valid(s) && InStreams(s, ops) && Run(s, ops).Exhausted? }

  lemma WriteStep(s: Pool, i: nat, r: Pool, rest: seq<HostOp>)
    requires Valid(s) && |s.open| == |r.open| && Page(i) !in s.mapping
    requires s.open[0].Some? || (s.free != {} && (s.active < s.limit || Victim(s).None?))
    requires r == Grown(s, i)
    ensures Valid(r) && (Over(r, rest) ==> Over(s, [W(i)] + rest))
  {
    var ops := [W(i)] + rest;
    assert ops[1..] == rest && ops[0] == W(i);
    WriteGrows(s, i);
    WriteKeeps(s, Page(i), 0);
  }

  lemma TrimStep(s: Pool, i: nat, r: Pool, rest: seq<HostOp>)
    requires Valid(s) && |s.open| == |r.open| && r == Trim(s, Page(i))
    ensures Valid(r) && (Over(r, rest) ==> Over(s, [T(i)] + rest))
  {
    var ops := [T(i)] + rest;
    assert ops[1..] == rest && ops[0] == T(i);
    TrimKeeps(s, Page(i));
  }

  lemma GrowHalf(s: Pool, b: nat, i: nat, j: nat)
    requires b < |s.blocks| && s.open[0] == Some(b) && s.blocks[b] == Half(i) && s.ppb == 2
    ensures Grown(s, j) == s.(blocks := s.blocks[b := Full(i, j, 2, true, true)], open := s.open[0 := None],
                              host := s.host + 1, mapping := s.mapping[Page(j) := Location(b, 1)])
  {
    assert Half(i).slots + [Slot(Page(j), true)] == Full(i, j, 2, true, true).slots;
  }

  lemma GrowErased(s: Pool, b: nat, j: nat)
    requires b < |s.blocks| && s.open[0].None? && s.free != {} && LeastFree(s.free) == FreeEntry(0, b)
    requires s.blocks[b] == ERASED && s.ppb == 2
    ensures Grown(s, j) == s.(blocks := s.blocks[b := Half(j)], open := s.open[0 := Some(b)],
                              free := s.free - {FreeEntry(0, b)}, active := s.active + 1, host := s.host + 1,
                              mapping := s.mapping[Page(j) := Location(b, 0)])
  {
    assert [] + [Slot(Page(j), true)] == Half(j).slots;
    var ready := OpenBlock(s, 0, 0);
    assert ready.blocks[b := Half(j)] == s.blocks[b := Half(j)];
  }

  lemma FirstBlock()
    ensures Grown(Fresh(3, 1, 2, 2), 0) == S1
  {
    var s := Fresh(3, 1, 2, 2);
    assert s.free == {FreeEntry(0, 0), F1, F2};
    assert FreeLess(LeastFree(s.free), FreeEntry(0, 0));
    assert s.free - {FreeEntry(0, 0)} == {F1, F2};
    GrowErased(s, 0, 0);
    assert s.blocks[0 := Half(0)] == S1.blocks && s.open[0 := Some(0)] == S1.open;
  }

  lemma FirstFull()
    ensures Grown(S1, 1) == S2
  {
    GrowHalf(S1, 0, 0, 1);
    assert S1.blocks[0 := Full(0, 1, 2, true, true)] == S2.blocks && S1.open[0 := None] == S2.open;
  }

  lemma SecondBlock()
    ensures Grown(S2, 2) == S3 && Grown(S3, 3) == S4
  {
    assert FreeLess(LeastFree(S2.free), F1);
    assert S2.free - {F1} == {F2};
    GrowErased(S2, 1, 2);
    assert S2.blocks[1 := Half(2)] == S3.blocks && S2.open[0 := Some(1)] == S3.open;
    GrowHalf(S3, 1, 2, 3);
    assert S3.blocks[1 := Full(2, 3, 2, true, true)] == S4.blocks && S3.open[0 := None] == S4.open;
  }

  lemma ThirdBlock()
    ensures Grown(S4, 4) == S5 && Victim(S4).None?
  {
    assert LeastFree(S4.free) == F2;
    assert S4.free - {F2} == {};
    GrowErased(S4, 2, 4);
    assert S4.blocks[2 := Half(4)] == S5.blocks && S4.open[0 := Some(2)] == S5.open;
  }

  lemma ThirdFull()
    ensures Grown(S6, 5) == S7
  {
    GrowHalf(S6, 2, 4, 5);
    assert S6.blocks[2 := Full(4, 5, 2, true, true)] == S7.blocks && S6.open[0 := None] == S7.open;
  }

  lemma TrimFirst(s: Pool, b: nat, i: nat, j: nat)
    requires Valid(s) && b < |s.blocks| && s.blocks[b] == Full(i, j, 2, true, true)
    requires Page(i) in s.mapping && s.mapping[Page(i)] == Location(b, 0)
    ensures Trim(s, Page(i)) == s.(blocks := s.blocks[b := Full(i, j, 1, false, true)], mapping := s.mapping - {Page(i)})
  {
    var slots := Full(i, j, 2, true, true).slots;
    assert slots[0 := slots[0].(valid := false)] == Full(i, j, 1, false, true).slots;
  }

  const OPS8 := [W(6)]
  const OPS7 := [T(2)] + OPS8
  const OPS6 := [W(5)] + OPS7
  const OPS5 := [T(0)] + OPS6
  const OPS4 := [W(4)] + OPS5
  const OPS3 := [W(3)] + OPS4
  const OPS2 := [W(2)] + OPS3
  const OPS1 := [W(1)] + OPS2
  const OPS := [W(0)] + OPS1

  /** A write of page `i` leads from `s` to `r` without a collection. */
  ghost predicate Writes(s: Pool, i: nat, r: Pool) {
    && |s.open| == 1 && |r.open| == 1 && Page(i) !in s.mapping
    && (s.open[0].Some? || (s.free != {} && (s.active < s.limit || Victim(s).None?))) && r == Grown(s, i)
  }

  /** A trim of page `i`, the first slot of a full block, leads from `s` to `r`. */
  ghost predicate Trims(s: Pool, b: nat, i: nat, j: nat, r: Pool) {
    && |s.open| == 1 && |r.open| == 1 && b < |s.blocks| && s.blocks[b] == Full(i, j, 2, true, true)
    && Page(i) in s.mapping && s.mapping[Page(i)] == Location(b, 0)
    && r.blocks == s.blocks[b := Full(i, j, 1, false, true)]
    && r == s.(blocks := r.blocks, mapping := s.mapping - {Page(i)})
  }

  /** Four pages fill two blocks. */
  ghost predicate Filling(s: Pool, s1: Pool, s2: Pool, s3: Pool, s4: Pool) {
    Writes(s, 0, s1) && Writes(s1, 1, s2) && Writes(s2, 2, s3) && Writes(s3, 3, s4)
  }

  /** Two more with a trim before and after leave a stale slot in each of them, a full third block, and no room. */
  ghost predicate Wearing(s4: Pool, s5: Pool, s6: Pool, s7: Pool, s8: Pool) {
    && Writes(s4, 4, s5) && Trims(s5, 0, 0, 1, s6) && Writes(s6, 5, s7) && Trims(s7, 1, 2, 3, s8)
    && Page(6) !in s8.mapping && Cornered(s8, 0)
  }

  lemma Fills(s: Pool)
    requires |s.open| == 1 && s.open[0].None? && s.free != {} && s.active < s.limit && Page(0) !in s.mapping && Grown(s, 0) == S1
    ensures Filling(s, S1, S2, S3, S4) == true
  {
    FirstFull();
    SecondBlock();
  }

  lemma Wears()
    ensures Wearing(S4, S5, S6, S7, S8) == true
  {
    WearsWrites();
    WearsTrims();
    WearsOut();
  }

  lemma WearsWrites()
    ensures Writes(S4, 4, S5) == true && Writes(S6, 5, S7) == true
  {
    ThirdBlock();
    ThirdFull();
  }

  lemma WearsTrims()
    ensures Trims(S5, 0, 0, 1, S6) == true && Trims(S7, 1, 2, 3, S8) == true
  {}

  lemma WearsOut()
    ensures Page(6) !in S8.mapping && Cornered(S8, 0) == true
  {}

  lemma WriteFails(s: Pool, i: nat)
    requires Valid(s) && |s.open| == 1 && Page(i) !in s.mapping && Cornered(s, 0)
    ensures Over(s, [W(i)])
  {
    assert [W(i)][1..] == [] && Trim(s, Page(i)) == s;
    WriteKeeps(s, Page(i), 0);
  }

  lemma WriteOn(s: Pool, i: nat, r: Pool, rest: seq<HostOp>)
    requires Writes(s, i, r) && Valid(s) && (Valid(r) ==> Over(r, rest))
    ensures Over(s, [W(i)] + rest)
  {
    WriteStep(s, i, r, rest);
  }

  lemma TrimOn(s: Pool, b: nat, i: nat, j: nat, r: Pool, rest: seq<HostOp>)
    requires Trims(s, b, i, j, r) && Valid(s) && (Valid(r) ==> Over(r, rest))
    ensures Over(s, [T(i)] + rest)
  {
    TrimFirst(s, b, i, j);
    TrimStep(s, i, r, rest);
  }

  lemma EndsInCorner(s4: Pool, s5: Pool, s6: Pool, s7: Pool, s8: Pool)
    requires Valid(s4) && Wearing(s4, s5, s6, s7, s8)
    ensures Over(s4, OPS4)
  {
    if Valid(s8) { WriteFails(s8, 6); }
    if Valid(s7) { TrimOn(s7, 1, 2, 3, s8, OPS8); }
    if Valid(s6) { WriteOn(s6, 5, s7, OPS7); }
    if Valid(s5) { TrimOn(s5, 0, 0, 1, s6, OPS6); }
    WriteOn(s4, 4, s5, OPS5);
  }

  lemma NineOperations(s: Pool, s1: Pool, s2: Pool, s3: Pool, s4: Pool, s5: Pool, s6: Pool, s7: Pool, s8: Pool)
    requires Valid(s) && Filling(s, s1, s2, s3, s4) && Wearing(s4, s5, s6, s7, s8)
    ensures Over(s, OPS) == true
  {
    if Valid(s4) { EndsInCorner(s4, s5, s6, s7, s8); }
    if Valid(s3) { WriteOn(s3, 3, s4, OPS4); }
    if Valid(s2) { WriteOn(s2, 2, s3, OPS3); }
    if Valid(s1) { WriteOn(s1, 1, s2, OPS2); }
    WriteOn(s, 0, s1, OPS1);
  }

  lemma States(s: Pool) returns (s1: Pool, s2: Pool, s3: Pool, s4: Pool, s5: Pool, s6: Pool, s7: Pool, s8: Pool)
    requires |s.open| == 1 && s.open[0].None? && s.free != {} && s.active < s.limit && Page(0) !in s.mapping && Grown(s, 0) == S1
    ensures Filling(s, s1, s2, s3, s4) == Wearing(s4, s5, s6, s7, s8) == true
  {
    Fills(s);
    Wears();
    s1, s2, s3, s4, s5, s6, s7, s8 := S1, S2, S3, S4, S5, S6, S7, S8;
  }

  lemma FreshRun(s: Pool)
    requires s == Fresh(3, 1, 2, 2) && Valid(s)
    ensures Over(s, OPS) == true
  {
    FirstBlock();
    var s1, s2, s3, s4, s5, s6, s7, s8 := States(s);
    NineOperations(s, s1, s2, s3, s4, s5, s6, s7, s8);
  }

  /** The host never holds more than `n` pages. */
  predicate Within(pages: set<Key>, ops: seq<HostOp>, n: nat)
    decreases ops
  {
    |pages| <= n && (ops == [] || Within(After(pages, ops[0]), ops[1..], n))
  }

  /** Within so many pages a run is modest if they fit beside one frontier per stream. */
  lemma {:induction false} WithinModest(s: State, pages: set<Key>, ops: seq<HostOp>, nominal: nat)
    requires nominal <= (|s.blocks| - |s.open|) * s.ppb && Within(pages, ops, nominal)
    ensures Modest(s, pages, ops)
    decreases ops
  {
    if ops != [] {
      WithinModest(s, After(pages, ops[0]), ops[1..], nominal);
      if ops[0].HostWrite? {
        var key := ops[0].key;
        assert After(pages, ops[0]) == (pages - {key}) + {key};
        assert |After(pages, ops[0])| <= nominal;
      }
    }
  }

  /** A nominal capacity is enough if it fits into the blocks beyond one frontier per stream: then no run that keeps to
      it ever fails, and the pool always maps exactly the host's pages. */
  lemma NominalEnough(n: nat, streams: nat, ppb: nat, limit: nat, nominal: nat, ops: seq<HostOp>)
    requires 0 < streams < n && 0 < ppb && 0 < limit < n && nominal <= (n - streams) * ppb
    requires (forall op <- ops :: op.key.stream < streams) && Within({}, ops, nominal)
    ensures Valid(Fresh(n, streams, ppb, limit))
    ensures var r := Run(Fresh(n, streams, ppb, limit), ops);
      r.Ok? && r.value.free != {} && r.value.mapping.Keys == HostPages({}, ops)
  {
    WithinModest(Fresh(n, streams, ppb, limit), {}, ops, nominal);
    NeverOutOfSpace(n, streams, ppb, limit, ops);
  }

  lemma FivePages()
    ensures Within({}, OPS, 5)
  {
    var p5 := {Page(0), Page(1), Page(2), Page(3), Page(4)};
    var p7 := {Page(1), Page(2), Page(3), Page(4), Page(5)};
    assert Within(p7 - {Page(2)} + {Page(6)}, [], 5);
    assert Within(p7, OPS7, 5);
    assert p5 - {Page(0)} + {Page(5)} == p7;
    assert Within(p5, OPS5, 5);
    var p3 := {Page(0), Page(1), Page(2)};
    assert p3 + {Page(3)} + {Page(4)} == p5;
    assert Within(p3 + {Page(3)}, OPS4, 5);
    assert Within(p3, OPS3, 5);
    assert {} + {Page(0)} + {Page(1)} + {Page(2)} == p3;
    assert Within({} + {Page(0)} + {Page(1)}, OPS2, 5);
  }

  /** Three blocks of two pages for one stream are accepted for five nominal pages. Nine operations that never
      hold more than five pages end in the exhaustion error: two full blocks each hold one stale slot, but
      there is no erased block and no frontier to copy their live pages to. */
  lemma GuardAloneIsNotEnough()
    ensures GeometryAccepted(3, 1, 2, 5)
    ensures Valid(Fresh(3, 1, 2, 2)) && InStreams(Fresh(3, 1, 2, 2), OPS)
    ensures Within({}, OPS, 5) && Run(Fresh(3, 1, 2, 2), OPS).Exhausted?
  {
    FivePages();
    FreshValid(3, 1, 2, 2);
    var s := Fresh(3, 1, 2, 2);
    FreshRun(s);
  }
}
