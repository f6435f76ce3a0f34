/**
 Host operations on the shadow pool and what holds over whole runs of them: the pool keeps exactly the pages
 the host expects, and it never runs out of erased blocks while enough of its pages are stale.
 */
module ShadowHost {
  import opened Prelude
  import opened ShadowPool
  import opened ShadowInvariant

  /** Collects while too many blocks are in use; stops early when collection itself opens a frontier. */
  function Reclaim(s: Pool, stream: nat, now: nat): (r: Outcome<Pool>)
    requires Valid(s) && stream < |s.open|
    ensures r.Ok? ==> Valid(r.value) && |r.value.open| == |s.open|
    decreases Stale(s)
  {
    if s.active < s.limit then Ok(s)
    else
      CollectKeeps(s, now);
      StaleNonnegative(s);
      match Collect(s, now)
      case Exhausted => Exhausted
      case Ok(c) =>
        if !c.done || c.pool.open[stream].Some? then Ok(c.pool) else Reclaim(c.pool, stream, now)
  }

  /** A frontier for a host write to `stream`; the second collection is the one the code attempts when the
      loop leaves no erased block. */
  function Allocate(s: Pool, stream: nat, now: nat): Outcome<Pool>
    requires Valid(s) && stream < |s.open| && s.open[stream].None?
  {
    match Reclaim(s, stream, now)
    case Exhausted => Exhausted
    case Ok(r) =>
      if r.open[stream].Some? then Ok(r)
      else
        CollectKeeps(r, now);
        match (if r.free == {} then Collect(r, now) else Ok(Collection(r, false)))
        case Exhausted => Exhausted
        case Ok(c) => if c.pool.free == {} then Exhausted else Ok(OpenBlock(c.pool, stream, now))
  }

  lemma {:induction false} ReclaimKeeps(s: Pool, stream: nat, now: nat)
    requires Valid(s) && stream < |s.open| && s.open[stream].None?
    ensures var r := Reclaim(s, stream, now);
      && r.Ok?
      && r.value.mapping.Keys == s.mapping.Keys && r.value.host == s.host
      && r.value.ppb == s.ppb && r.value.limit == s.limit && |r.value.blocks| == |s.blocks|
      && (s.free != {} ==> r.value.free != {})
      && (r.value.open[stream].Some? ==> r.value.free != {})
      && (r.value.open[stream].None? ==>
            r.value.active < s.limit || (Victim(r.value).Some? ==> Stuck(r.value, Victim(r.value).value)))
      && (r.value.free == {} ==> r.value == s)
    decreases Stale(s)
  {
    if s.active >= s.limit {
      CollectKeeps(s, now);
      StaleNonnegative(s);
      var c := Collect(s, now).value;
      if c.done && c.pool.open[stream].None? { ReclaimKeeps(c.pool, stream, now); }
    }
  }

  /** The collection attempted after the loop never succeeds, so it cannot orphan a frontier. */
  lemma SecondCollectionFutile(s: Pool, stream: nat, now: nat)
    requires Valid(s) && stream < |s.open| && s.open[stream].None?
    ensures var r := Reclaim(s, stream, now);
      r.Ok? && (r.value.open[stream].None? && r.value.free == {} ==> Collect(r.value, now) == Ok(Collection(r.value, false)))
  {
    ReclaimKeeps(s, stream, now);
    CollectKeeps(Reclaim(s, stream, now).value, now);
  }

  function FullOf(ppb: nat): Block -> int { (b: Block) => ppb * (ActiveOf(b) - FrontierOf(ppb)(b)) }

  lemma {:induction false} FullSum(ppb: nat, blocks: seq<Block>)
    ensures Sum(FullOf(ppb), blocks) == ppb * (Sum(ActiveOf, blocks) - Sum(FrontierOf(ppb), blocks))
  {
    if blocks != [] { FullSum(ppb, blocks[1..]); }
  }

  lemma {:induction false} SomeBound(open: seq<Option<nat>>)
    ensures Sum(SomeOf, open) <= |open|
  {
    if open != [] { SomeBound(open[1..]); }
  }

  lemma {:induction false} NoneLeavesRoom(open: seq<Option<nat>>, t: nat)
    requires t < |open| && open[t].None?
    ensures Sum(SomeOf, open) <= |open| - 1
  {
    SomeBound(open[1..]);
    if t > 0 { NoneLeavesRoom(open[1..], t - 1); }
  }

  lemma LessFactor(ppb: nat, a: int, b: int)
    requires ppb > 0 && ppb * a < b * ppb
    ensures a < b
  {}

  lemma FullBlocksLive(s: Pool)
    requires Valid(s) && Victim(s).None?
    ensures s.ppb * (s.active - Sum(SomeOf, s.open)) <= |s.mapping|
  {
    forall b | b in s.blocks ensures FullOf(s.ppb)(b) <= LiveOf(b) {
      var i :| 0 <= i < |s.blocks| && s.blocks[i] == b;
      assert BlockOk(s, i) && !Collectible(s, i);
    }
    SumMonotone(FullOf(s.ppb), LiveOf, s.blocks);
    FullSum(s.ppb, s.blocks);
  }

  /** Fewer live pages than the blocks beyond one frontier per stream can hold. */
  predicate Fits(live: nat, blocks: nat, streams: nat, ppb: nat) { live < (blocks - streams) * ppb }

  predicate Roomy(s: State, live: nat) { Fits(live, |s.blocks|, |s.open|, s.ppb) }

  /** When nothing is collectible every full block is wholly live, so few enough live pages leave two erased
      blocks beside the frontiers of the other streams. */
  lemma NothingToCollect(s: Pool, stream: nat)
    requires Valid(s) && Victim(s).None?
    requires stream < |s.open| && s.open[stream].None?
    requires Roomy(s, |s.mapping|)
    ensures |s.free| >= 2
  {
    FullBlocksLive(s);
    NoneLeavesRoom(s.open, stream);
    LessFactor(s.ppb, s.active - Sum(SomeOf, s.open), |s.blocks| - |s.open|);
  }

  /** What the loop leaves is enough for the next frontier, with one erased block to spare. */
  lemma ReserveKept(s: Pool, stream: nat, now: nat)
    requires Valid(s) && stream < |s.open| && s.open[stream].None? && s.free != {} && Roomy(s, |s.mapping|)
    ensures var r := Reclaim(s, stream, now);
      r.Ok? && (r.value.open[stream].None? ==> |r.value.free| >= 2)
  {
    ReclaimKeeps(s, stream, now);
    var r := Reclaim(s, stream, now).value;
    assert |r.mapping| == |r.mapping.Keys| == |s.mapping.Keys| == |s.mapping|;
    if r.open[stream].None? && r.active >= r.limit {
      assert Victim(r).None?;
      NothingToCollect(r, stream);
    }
  }

  /** Allocation fails exactly when no block is erased and the best victim cannot be moved; and while the live
      pages leave room, it leaves an erased block behind. */
  lemma AllocateKeeps(s: Pool, stream: nat, now: nat)
    requires Valid(s) && stream < |s.open| && s.open[stream].None?
    ensures var r := Allocate(s, stream, now);
      && (r.Exhausted? <==> s.free == {} && (Victim(s).Some? ==> Stuck(s, Victim(s).value)))
      && (r.Ok? ==>
            && Valid(r.value) && |r.value.open| == |s.open| && r.value.open[stream].Some?
            && r.value.mapping.Keys == s.mapping.Keys && r.value.host == s.host
            && r.value.ppb == s.ppb && |r.value.blocks| == |s.blocks|
            && (s.free != {} && Roomy(s, |s.mapping|) ==> r.value.free != {}))
  {
    ReclaimKeeps(s, stream, now);
    SecondCollectionFutile(s, stream, now);
    CollectKeeps(s, now);
    var r := Reclaim(s, stream, now).value;
    if r.open[stream].None? && r.free != {} {
      OpenKeeps(r, |r.blocks|, 0, stream, now);
      if s.free != {} && Roomy(s, |s.mapping|) {
        ReserveKept(s, stream, now);
        assert |r.free - {LeastFree(r.free)}| >= 1;
      }
    }
  }

  /** Appends the host's copy of a page that is not mapped, allocating a frontier first if need be. */
  function Append(s: Pool, key: Key, now: nat): Outcome<Pool>
    requires Valid(s) && key.stream < |s.open|
  {
    if s.open[key.stream].Some? then
      Ok(Place(s, s.open[key.stream].value, key, now, false))
    else
      AllocateKeeps(s, key.stream, now);
      match Allocate(s, key.stream, now)
      case Exhausted => Exhausted
      case Ok(ready) => Ok(Place(ready, ready.open[key.stream].value, key, now, false))
  }

  /** A host write first drops the old copy of the page, then appends the new one. */
  function Write(s: Pool, key: Key, now: nat): Outcome<Pool>
    requires Valid(s) && key.stream < |s.open|
  {
    TrimKeeps(s, key);
    Append(Trim(s, key), key, now)
  }

  /** A host write has nowhere to go: its stream has no frontier, no block is erased, and the pages of the
      best victim do not fit on that victim's own frontier. */
  predicate Cornered(s: Pool, stream: nat)
    requires stream < |s.open|
  {
    s.open[stream].None? && s.free == {} && (Victim(s).Some? ==> Stuck(s, Victim(s).value))
  }

  /** The effect of appending the host's copy of a page that is not mapped. */
  lemma HostPlace(s: Pool, key: Key, now: nat)
    requires Valid(s) && key.stream < |s.open| && s.open[key.stream].Some? && key !in s.mapping
    ensures var r := Place(s, s.open[key.stream].value, key, now, false);
      Valid(r) && r.mapping.Keys == s.mapping.Keys + {key} && r.free == s.free
  {
    PlaceKeeps(s, |s.blocks|, 0, s.open[key.stream].value, key, now, false);
  }

  lemma AppendKeeps(s: Pool, key: Key, now: nat)
    requires Valid(s) && key.stream < |s.open| && key !in s.mapping
    ensures var r := Append(s, key, now);
      && (r.Exhausted? <==> Cornered(s, key.stream))
      && (r.Ok? ==>
            && Valid(r.value) && |r.value.open| == |s.open| && |r.value.blocks| == |s.blocks| && r.value.ppb == s.ppb
            && r.value.mapping.Keys == s.mapping.Keys + {key} && r.value.host == s.host + 1)
      && (s.free != {} && Roomy(s, |s.mapping|) ==> r.Ok? && r.value.free != {})
  {
    if s.open[key.stream].Some? {
      HostPlace(s, key, now);
    } else {
      AllocateKeeps(s, key.stream, now);
      var ready := Allocate(s, key.stream, now);
      if ready.Ok? {
        assert key !in ready.value.mapping.Keys;
        HostPlace(ready.value, key, now);
      }
    }
  }

  lemma TrimRoom(s: Pool, key: Key)
    requires Valid(s)
    ensures Roomy(Trim(s, key), |Trim(s, key).mapping|) == Roomy(s, |s.mapping.Keys - {key}|)
  {
    TrimKeeps(s, key);
    var trimmed := Trim(s, key);
    assert trimmed.mapping.Keys == s.mapping.Keys - {key};
    assert |trimmed.mapping| == |trimmed.mapping.Keys|;
  }

  /** A write fails exactly when the pool is cornered once the old copy is dropped; otherwise it maps exactly
      one more page, and it keeps an erased block in reserve while the live pages leave room. */
  lemma WriteKeeps(s: Pool, key: Key, now: nat)
    requires Valid(s) && key.stream < |s.open|
    ensures var r := Write(s, key, now);
      && (r.Exhausted? <==> Cornered(Trim(s, key), key.stream))
      && (r.Ok? ==>
            && Valid(r.value) && |r.value.open| == |s.open| && |r.value.blocks| == |s.blocks| && r.value.ppb == s.ppb
            && r.value.mapping.Keys == s.mapping.Keys + {key} && r.value.host == s.host + 1)
      && (s.free != {} && Roomy(s, |s.mapping.Keys - {key}|) ==> r.Ok? && r.value.free != {})
  {
    TrimKeeps(s, key);
    TrimRoom(s, key);
    AppendKeeps(Trim(s, key), key, now);
  }

  // ---- Whole runs ----

  datatype HostOp = HostWrite(key: Key, now: nat) | HostTrim(key: Key)

  ghost predicate InStreams(s: State, ops: seq<HostOp>) { forall op <- ops :: op.key.stream < |s.open| }

  function Run(s: Pool, ops: seq<HostOp>): Outcome<Pool>
    requires Valid(s) && InStreams(s, ops)
    decreases ops
  {
    if ops == [] then Ok(s)
    else
      match ops[0]
      case HostTrim(key) => TrimKeeps(s, key); Run(Trim(s, key), ops[1..])
      case HostWrite(key, now) =>
        WriteKeeps(s, key, now);
        match Write(s, key, now)
        case Exhausted => Exhausted
        case Ok(r) => Run(r, ops[1..])
  }

  function After(pages: set<Key>, op: HostOp): set<Key> {
    if op.HostWrite? then pages + {op.key} else pages - {op.key}
  }

  /** The pages a host holds after a run, with no notion of blocks, streams' frontiers or collection. */
  function HostPages(pages: set<Key>, ops: seq<HostOp>): set<Key>
    decreases ops
  {
    if ops == [] then pages
    else HostPages(After(pages, ops[0]), ops[1..])
  }

  function Writes(ops: seq<HostOp>): nat {
    if ops == [] then 0 else (if ops[0].HostWrite? then 1 else 0) + Writes(ops[1..])
  }

  /** At every write the other pages of the host leave room in the pool. */
  predicate Modest(s: State, pages: set<Key>, ops: seq<HostOp>)
    decreases ops
  {
    if ops == [] then true
    else (ops[0].HostWrite? ==> Roomy(s, |pages - {ops[0].key}|)) && Modest(s, After(pages, ops[0]), ops[1..])
  }

  lemma {:induction false} SameRoom(s: State, r: State, pages: set<Key>, ops: seq<HostOp>)
    requires |s.blocks| == |r.blocks| && |s.open| == |r.open| && s.ppb == r.ppb
    ensures Modest(s, pages, ops) == Modest(r, pages, ops)
    decreases ops
  {
    if ops != [] { SameRoom(s, r, After(pages, ops[0]), ops[1..]); }
  }

  /** Over any run that does not fail, the pool maps exactly the host's pages, whatever was collected on the
      way; and from a pool with an erased block a modest run never fails. */
  lemma {:induction false} RunKeeps(s: Pool, ops: seq<HostOp>)
    requires Valid(s) && InStreams(s, ops)
    ensures var r := Run(s, ops);
      && (r.Ok? ==>
            && Valid(r.value)
            && r.value.mapping.Keys == HostPages(s.mapping.Keys, ops)
            && r.value.host == s.host + Writes(ops))
      && (s.free != {} && Modest(s, s.mapping.Keys, ops) ==> r.Ok? && r.value.free != {})
    decreases ops
  {
    if ops != [] {
      match ops[0]
      case HostTrim(key) =>
        TrimKeeps(s, key);
        var next := Trim(s, key);
        assert next.mapping.Keys == s.mapping.Keys - {key};
        SameRoom(s, next, next.mapping.Keys, ops[1..]);
        RunKeeps(next, ops[1..]);
      case HostWrite(key, now) =>
        WriteKeeps(s, key, now);
        var next := Write(s, key, now);
        if next.Ok? {
          SameRoom(s, next.value, next.value.mapping.Keys, ops[1..]);
          RunKeeps(next.value, ops[1..]);
        }
    }
  }

  // ---- The pool as constructed ----

  const ERASED := Block([], 0, 0, 0, 0, false)

  function Fresh(n: nat, streams: nat, ppb: nat, limit: nat): Pool
    requires 0 < streams
  {
    State(ppb, limit, seq(n, _ => ERASED), seq(streams, _ => None), set i | 0 <= i < n :: FreeEntry(0, i),
          map[], 0, 0, 0, 0)
  }

  lemma {:induction false} ZeroSum<T>(weight: T -> int, s: seq<T>)
    requires forall x <- s :: weight(x) == 0
    ensures Sum(weight, s) == 0
  {
    if s != [] {
      assert s[0] in s;
      ZeroSum(weight, s[1..]);
    }
  }

  lemma {:induction false} HeapSize(n: nat)
    ensures |set i | 0 <= i < n :: FreeEntry(0, i)| == n
  {
    if n > 0 {
      HeapSize(n - 1);
      assert (set i | 0 <= i < n :: FreeEntry(0, i)) == (set i | 0 <= i < n - 1 :: FreeEntry(0, i)) + {FreeEntry(0, n - 1)};
    }
  }

  lemma FreshValid(n: nat, streams: nat, ppb: nat, limit: nat)
    requires 0 < streams && 0 < ppb && 0 < limit < n
    ensures Valid(Fresh(n, streams, ppb, limit)) && Fresh(n, streams, ppb, limit).free != {}
  {
    var s := Fresh(n, streams, ppb, limit);
    HeapSize(n);
    ZeroSum(ActiveOf, s.blocks);
    ZeroSum(LiveOf, s.blocks);
    ZeroSum(HeldOf, s.blocks);
    ZeroSum(ErasesOf, s.blocks);
    ZeroSum(FrontierOf(ppb), s.blocks);
    ZeroSum(SomeOf, s.open);
    forall e ensures EntryOk(s, e) {}
  }

  /** From construction, a run whose other live pages always stay below (blocks - streams) * pages per block
      succeeds, and an erased block is always left. */
  lemma NeverOutOfSpace(n: nat, streams: nat, ppb: nat, limit: nat, ops: seq<HostOp>)
    requires 0 < streams && 0 < ppb && 0 < limit < n
    requires forall op <- ops :: op.key.stream < streams
    requires Modest(Fresh(n, streams, ppb, limit), {}, ops)
    ensures Valid(Fresh(n, streams, ppb, limit))
    ensures var r := Run(Fresh(n, streams, ppb, limit), ops);
      r.Ok? && r.value.free != {} && r.value.mapping.Keys == HostPages({}, ops)
  {
    FreshValid(n, streams, ppb, limit);
    var s := Fresh(n, streams, ppb, limit);
    assert s.mapping.Keys == {};
    RunKeeps(s, ops);
  }
}
