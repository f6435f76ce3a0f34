/** The shadow pool of a tier over a whole trace: it maps exactly the pages of the blocks that are stored. */
module ShadowTrace {
  import opened Prelude
  import opened Tiers
  import opened Forest
  import T = Trace
  import opened ShadowPool
  import opened ShadowInvariant
  import opened ShadowConsume
  import ShadowDevice
  import SimulatorState

  /** The page belongs to the block in this slot of a tier. */
  ghost predicate PageOf(d: T.Device, tier: Tier, size: nat, k: Key, s: T.Slot) {
    s in d && s.tier == tier && k in Pages(s.address, size, d[s].stream, size)
  }

  ghost predicate Stored(d: T.Device, tier: Tier, size: nat, k: Key) { exists s :: PageOf(d, tier, size, k, s) }

  /** The keys are exactly the pages of the blocks that a device holds in a tier. */
  ghost predicate Mirrors(keys: set<Key>, d: T.Device, tier: Tier, size: nat) {
    forall k :: k in keys <==> Stored(d, tier, size, k)
  }

  lemma WriteMirrors(keys: set<Key>, d: T.Device, tier: Tier, size: nat, s: T.Slot, h: T.Held)
    requires Mirrors(keys, d, tier, size) && s !in d && s.tier == tier
    ensures Mirrors(keys + Pages(s.address, size, h.stream, size), d[s := h], tier, size)
  {
    var e := d[s := h];
    forall k ensures k in keys + Pages(s.address, size, h.stream, size) <==> Stored(e, tier, size, k) {
      if k in keys {
        var r :| PageOf(d, tier, size, k, r);
        assert PageOf(e, tier, size, k, r);
      }
      if k in Pages(s.address, size, h.stream, size) { assert PageOf(e, tier, size, k, s); }
      if Stored(e, tier, size, k) {
        var r :| PageOf(e, tier, size, k, r);
        if r != s { assert PageOf(d, tier, size, k, r); }
      }
    }
  }

  /** A page belongs to one block at most. */
  lemma OneBlock(d: T.Device, tier: Tier, size: nat, k: Key, r: T.Slot, s: T.Slot)
    requires PageOf(d, tier, size, k, r) && PageOf(d, tier, size, k, s)
    ensures r == s
  {
    if r.address != s.address { PagesDisjoint(r.address, s.address, size, k.stream); }
  }

  lemma TrimMirrors(keys: set<Key>, d: T.Device, tier: Tier, size: nat, s: T.Slot)
    requires Mirrors(keys, d, tier, size) && s in d && s.tier == tier
    ensures Mirrors(keys - Pages(s.address, size, d[s].stream, size), d - {s}, tier, size)
  {
    var e := d - {s};
    forall k ensures k in keys - Pages(s.address, size, d[s].stream, size) <==> Stored(e, tier, size, k) {
      if k in keys && k !in Pages(s.address, size, d[s].stream, size) {
        var r :| PageOf(d, tier, size, k, r);
        assert PageOf(e, tier, size, k, r);
      }
      if Stored(e, tier, size, k) {
        var r :| PageOf(e, tier, size, k, r);
        assert PageOf(d, tier, size, k, r);
        if k in Pages(s.address, size, d[s].stream, size) {
          assert PageOf(d, tier, size, k, s);
          OneBlock(d, tier, size, k, r, s);
        }
      }
    }
  }

  /** The slots of another tier do not matter. */
  lemma OtherMirrors(keys: set<Key>, d: T.Device, e: T.Device, tier: Tier, size: nat)
    requires Mirrors(keys, d, tier, size)
    requires forall s: T.Slot :: s.tier == tier ==> (s in d <==> s in e) && (s in d ==> d[s] == e[s])
    ensures Mirrors(keys, e, tier, size)
  {
    forall k ensures k in keys <==> Stored(e, tier, size, k) {
      if k in keys {
        var r :| PageOf(d, tier, size, k, r);
        assert PageOf(e, tier, size, k, r);
      }
      if Stored(e, tier, size, k) {
        var r :| PageOf(e, tier, size, k, r);
        assert PageOf(d, tier, size, k, r);
      }
    }
  }

  /** What an accepted event does to the keys of its tier. */
  function KeysAfter(keys: set<Key>, ev: T.IoEvent, size: nat): set<Key> {
    var pages := Pages(ev.location.address, size, ev.location.stream, size);
    match ev.op
    case Read => keys
    case Write => keys + pages
    case Trim => keys - pages
  }

  lemma EventMirrors(keys: set<Key>, d: T.Device, ev: T.IoEvent, tier: Tier, size: nat)
    requires Mirrors(keys, d, tier, size) && T.Apply(d, ev).Some?
    ensures Mirrors(if ev.location.tier == tier then KeysAfter(keys, ev, size) else keys, T.Apply(d, ev).value, tier, size)
  {
    var s := T.SlotOf(ev.location);
    if ev.location.tier != tier {
      OtherMirrors(keys, d, T.Apply(d, ev).value, tier, size);
    } else {
      match ev.op
      case Read =>
      case Write => WriteMirrors(keys, d, tier, size, s, T.Held(ev.node, ev.location.stream));
      case Trim => TrimMirrors(keys, d, tier, size, s);
    }
  }

  lemma ReplayPrefix(trace: seq<T.IoEvent>, i: nat)
    requires i < |trace| && T.Replay(trace[..i + 1]).Some?
    ensures T.Replay(trace[..i]).Some? && T.Replay(trace[..i + 1]) == T.Apply(T.Replay(trace[..i]).value, trace[i])
  {
    assert trace[..i + 1][..i] == trace[..i] && trace[..i + 1][i] == trace[i];
  }

  lemma {:induction false} PrefixReplays(trace: seq<T.IoEvent>, i: nat)
    requires T.Replay(trace).Some? && i <= |trace|
    ensures T.Replay(trace[..i]).Some?
    decreases |trace| - i
  {
    if i == |trace| {
      assert trace[..i] == trace;
    } else {
      PrefixReplays(trace, i + 1);
      ReplayPrefix(trace, i);
    }
  }

  ghost predicate StreamsOpen(trace: seq<T.IoEvent>, tier: Tier, streams: nat) {
    forall i | 0 <= i < |trace| && trace[i].location.tier == tier :: trace[i].location.stream < streams
  }

  /** The pool has followed the first events of a trace. */
  ghost predicate Following(d: ShadowDevice.Device, trace: seq<T.IoEvent>, tier: Tier, size: nat, streams: nat, i: nat)
    reads d
  {
    && i <= |trace| && Valid(d.View()) && |d.open| == streams
    && T.Replay(trace[..i]).Some? && Mirrors(d.mapping.Keys, T.Replay(trace[..i]).value, tier, size)
  }

  lemma FollowStart(d: ShadowDevice.Device, trace: seq<T.IoEvent>, tier: Tier, size: nat, streams: nat)
    requires Valid(d.View()) && |d.open| == streams && d.mapping.Keys == {}
    ensures Following(d, trace, tier, size, streams, 0)
  {
    assert trace[..0] == [];
  }

  /** Follows one event, if it is on this tier. */
  method FollowEvent(d: ShadowDevice.Device, trace: seq<T.IoEvent>, tier: Tier, size: nat, ghost streams: nat, i: nat, now: nat)
    returns (ok: bool)
    requires i < |trace| && Following(d, trace, tier, size, streams, i) && T.Replay(trace).Some? && StreamsOpen(trace,
             tier, streams)
    modifies d
    ensures ok ==> Following(d, trace, tier, size, streams, i + 1)
  {
    ghost var keys := d.mapping.Keys;
    var ev := trace[i];
    PrefixReplays(trace, i + 1);
    ReplayPrefix(trace, i);
    EventMirrors(keys, T.Replay(trace[..i]).value, ev, tier, size);
    ok := true;
    if ev.location.tier == tier {
      ok := Consume(d, ev.op, ev.location.address, size, ev.location.stream, now);
      assert ok ==> d.mapping.Keys == KeysAfter(keys, ev, size);
    }
  }

  /** Follows a whole trace from an empty pool. Unless the pool runs out of space, it maps in the end exactly the pages
      of the blocks that a device holds after replaying the trace. */
  method FollowTrace(d: ShadowDevice.Device, trace: seq<T.IoEvent>, times: seq<nat>, tier: Tier, size: nat) returns (ok: bool)
    requires Valid(d.View()) && d.mapping.Keys == {} && |times| == |trace|
    requires T.Replay(trace).Some? && StreamsOpen(trace, tier, |d.open|)
    modifies d
    ensures ok ==> Valid(d.View()) && Mirrors(d.mapping.Keys, T.Replay(trace).value, tier, size)
  {
    ghost var streams := |d.open|;
    FollowStart(d, trace, tier, size, streams);
    for i := 0 to |trace|
      invariant Following(d, trace, tier, size, streams, i)
    {
      ok := FollowEvent(d, trace, tier, size, streams, i, times[i]);
      if !ok { return; }
    }
    assert trace[..|trace|] == trace;
    ok := true;
  }

  /** The page belongs to the storage copy of a node. */
  ghost predicate PageOfCopy(store: map<Id, T.Location>, tier: Tier, size: nat, k: Key, n: Id) {
    n in store && store[n].tier == tier && k in Pages(store[n].address, size, store[n].stream, size)
  }

  /** In any state of the simulator those are exactly the pages of the tree's storage copies. */
  lemma MirrorsStore(v: SimulatorState.State, keys: set<Key>, tier: Tier, size: nat)
    requires SimulatorState.Sound(v) && Mirrors(keys, v.device, tier, size)
    ensures T.Replay(v.trace) == Some(v.device)
    ensures forall k :: k in keys <==> exists n :: PageOfCopy(v.store, tier, size, k, n)
  {
    forall k ensures k in keys <==> exists n :: PageOfCopy(v.store, tier, size, k, n) {
      if k in keys {
        var s :| PageOf(v.device, tier, size, k, s);
        assert T.SlotExplained(v.device, v.store, {}, s);
        assert T.CopyHeld(v.device, v.store, {}, v.device[s].node);
        assert PageOfCopy(v.store, tier, size, k, v.device[s].node);
      }
      if n :| PageOfCopy(v.store, tier, size, k, n) {
        assert T.CopyHeld(v.device, v.store, {}, n);
        assert PageOf(v.device, tier, size, k, T.SlotOf(v.store[n]));
      }
    }
  }

  /** The shadow pool of a tier that has followed a simulator's trace maps exactly the pages of the blocks stored there. */
  method FollowSimulator(d: ShadowDevice.Device, ghost v: SimulatorState.State, trace: seq<T.IoEvent>, times: seq<nat>,
      tier: Tier,
                         size: nat) returns (ok: bool)
    requires SimulatorState.Sound(v) && trace == v.trace && |times| == |trace|
    requires Valid(d.View()) && d.mapping.Keys == {} && StreamsOpen(trace, tier, |d.open|)
    modifies d
    ensures ok ==> Valid(d.View()) && forall k :: k in d.mapping.Keys <==> exists n :: PageOfCopy(v.store, tier, size, k, n)
  {
    ok := FollowTrace(d, trace, times, tier, size);
    if ok { MirrorsStore(v, d.mapping.Keys, tier, size); }
  }
}
