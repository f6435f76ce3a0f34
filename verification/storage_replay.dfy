/** Every history of the tree and the storage leads the three victim searches to the same segment and time. */
module StorageReplay {
  import opened Prelude
  import opened Forest
  import opened Tiers
  import opened SubtreeCounts
  import opened StorageIndex
  import opened StorageVictim
  import opened StoragePolicy
  import opened StorageScan

  datatype Event =
    | Created(node: Id, parent: Option<Id>)
    | Pruned(node: Id)
    | Dumped(endpoint: Id, nodes: seq<Id>, tier: Tier, now: nat)
    | Trimmed(endpoint: Id, nodes: seq<Id>)
    | Touched(endpoint: Id, nodes: seq<Id>, now: nat)

  datatype World = World(tree: Tree, store: map<Id, Copy>)

  const START := World(EMPTY, map[])

  /** The blocks of one tier in a segment, top first. */
  function ResidentNodes(w: World, e: Id, tier: Tier): (nodes: seq<Id>)
    requires Grown(w.tree) && e in w.tree.parent
    ensures forall n :: n in nodes <==> n in Segment(w.tree, e) && n in w.store && w.store[n].tier == tier
  {
    Kept(Segment(w.tree, e), w.store, tier)
  }

  function Kept(nodes: seq<Id>, store: map<Id, Copy>, tier: Tier): (kept: seq<Id>)
    ensures forall n :: n in kept <==> n in nodes && n in store && store[n].tier == tier
  {
    if nodes == [] then []
    else (if nodes[0] in store && store[nodes[0]].tier == tier then [nodes[0]] else []) + Kept(nodes[1..], store, tier)
  }

  lemma {:induction false} KeptDistinct(nodes: seq<Id>, store: map<Id, Copy>, tier: Tier)
    requires Distinct(nodes)
    ensures Distinct(Kept(nodes, store, tier))
  {
    if nodes != [] {
      KeptDistinct(nodes[1..], store, tier);
      var rest := Kept(nodes[1..], store, tier);
      forall i | 0 <= i < |rest| ensures rest[i] != nodes[0] { assert rest[i] in nodes[1..]; }
    }
  }

  ghost predicate WorldOk(w: World) { Grown(w.tree) && w.store.Keys <= w.tree.parent.Keys }

  /** The notifications that the policy is proved for. A dump may come after its segment has been
      merged with the chain below it; trims and hits name the blocks of one tier in one segment. */
  ghost predicate Allowed(w: World, ev: Event) {
    WorldOk(w) &&
    match ev
    case Created(n, parent) => n !in w.tree.parent && (parent.Some? ==> parent.value in w.tree.parent)
    case Pruned(n) => n in w.tree.parent && n !in w.store && Children(w.tree, n) == {}
    case Dumped(e, nodes, _, _) =>
      && e in w.tree.parent && Distinct(nodes)
      && forall n <- nodes :: n in w.tree.parent && n !in w.store && Leaf(w.tree, n) == Leaf(w.tree, e)
    case Trimmed(e, nodes) =>
      e in w.tree.parent && ChildCount(w.tree, e) != 1 && exists tier :: nodes == ResidentNodes(w, e, tier)
    case Touched(e, nodes, _) =>
      e in w.tree.parent && ChildCount(w.tree, e) != 1 && exists tier :: nodes == ResidentNodes(w, e, tier)
  }

  function Next(w: World, ev: Event): World {
    match ev
    case Created(n, parent) => w.(tree := Add(w.tree, n, parent))
    case Pruned(n) => w.(tree := Remove(w.tree, n))
    case Dumped(_, nodes, tier, now) =>
      w.(store := map n | n in w.store.Keys + Elems(nodes) :: if n in nodes then Copy(tier, now) else w.store[n])
    case Trimmed(_, nodes) => w.(store := w.store - Elems(nodes))
    case Touched(_, nodes, now) =>
      w.(store := map n | n in w.store :: if n in nodes then w.store[n].(last := now) else w.store[n])
  }

  function After(events: seq<Event>): World {
    if events == [] then START else Next(After(events[..|events| - 1]), events[|events| - 1])
  }

  ghost predicate History(events: seq<Event>) {
    events == [] || (History(events[..|events| - 1]) && Allowed(After(events[..|events| - 1]), events[|events| - 1]))
  }

  lemma {:induction false} PrefixHistory(events: seq<Event>, i: nat)
    requires History(events) && i <= |events|
    ensures History(events[..i])
  {
    if i < |events| {
      PrefixHistory(events[..|events| - 1], i);
      assert events[..|events| - 1][..i] == events[..i];
    } else {
      assert events[..i] == events;
    }
  }

  lemma OneMoreEvent(events: seq<Event>, i: nat)
    requires History(events) && i < |events|
    ensures Allowed(After(events[..i]), events[i]) && After(events[..i + 1]) == Next(After(events[..i]), events[i])
  {
    PrefixHistory(events, i + 1);
    assert events[..i + 1][..i] == events[..i] && events[..i + 1][i] == events[i];
  }

  lemma NextOk(w: World, ev: Event)
    requires Allowed(w, ev)
    ensures WorldOk(Next(w, ev))
    ensures ev.Created? ==> Grows(w.tree, Next(w, ev).tree, ev.node)
    ensures ev.Pruned? ==> Grows(Next(w, ev).tree, w.tree, ev.node)
  {
    match ev
    case Created(n, parent) => AddGrows(w.tree, n, parent);
    case Pruned(n) => RemoveGrows(w.tree, n);
    case _ =>
  }

  /** Dumps, trims and hits stay inside one segment. */
  lemma NextConfined(w: World, ev: Event)
    requires Allowed(w, ev) && !ev.Created? && !ev.Pruned?
    ensures Confined(w.tree, w.store, Next(w, ev).store, Leaf(w.tree, ev.endpoint))
    ensures Distinct(ev.nodes) && (!ev.Dumped? ==> forall n <- ev.nodes :: n in w.store)
  {
    if !ev.Dumped? {
      var tier :| ev.nodes == ResidentNodes(w, ev.endpoint, tier);
      SegmentDistinct(w.tree, ev.endpoint);
      KeptDistinct(Segment(w.tree, ev.endpoint), w.store, tier);
      forall n | n in ev.nodes ensures Leaf(w.tree, n) == ev.endpoint { SegmentShares(w.tree, ev.endpoint, n); }
    }
  }

  /** The index, its counts and the block table all describe the world. */
  ghost predicate Follow(p: RoundRobin, s: PolicyState, w: World)
    reads p, s
  {
    && WorldOk(w)
    && Indexes(w.tree, w.store, p.View()) && Counted(w.tree, w.store.Keys, p.subtree)
    && Mirrors(s.entries, w.store)
  }

  method NotifyIndex(p: RoundRobin, w: World, ev: Event)
    requires Allowed(w, ev)
    requires Indexes(w.tree, w.store, p.View()) && Counted(w.tree, w.store.Keys, p.subtree)
    modifies p
    ensures var v := Next(w, ev); WorldOk(v) && Indexes(v.tree, v.store, p.View()) && Counted(v.tree, v.store.Keys, p.subtree)
  {
    NextOk(w, ev);
    var v := Next(w, ev);
    match ev
    case Created(n, _) =>
      GrowCounted(w.tree, v.tree, n, w.store.Keys, p.subtree);
      p.NodeCreated(w.tree, v.tree, w.store, n);
    case Pruned(n) =>
      GrowCounted(v.tree, w.tree, n, w.store.Keys, p.subtree);
      p.NodePruned(v.tree, w.tree, w.store, n, w.tree.parent[n]);
    case Dumped(e, nodes, _, _) =>
      NextConfined(w, ev);
      p.Dumped(w.tree, w.store, v.store, e, nodes);
    case Trimmed(e, nodes) =>
      NextConfined(w, ev);
      p.Trimmed(w.tree, w.store, v.store, e, nodes);
    case Touched(e, _, _) =>
      NextConfined(w, ev);
      assert v.store.Keys == w.store.Keys;
      p.Commit(w.tree, w.store, v.store, Leaf(w.tree, e));
  }

  method NotifyTable(s: PolicyState, ghost w: World, ev: Event)
    requires Allowed(w, ev) && Mirrors(s.entries, w.store)
    modifies s
    ensures Mirrors(s.entries, Next(w, ev).store)
  {
    match ev
    case Created(_, _) =>
    case Pruned(n) => s.Erased([n]);
    case Dumped(_, nodes, tier, now) => s.Dumped(nodes, tier, now);
    case Trimmed(_, nodes) => s.Erased(nodes);
    case Touched(_, nodes, now) => s.Touched(nodes, now);
  }

  method Notify(p: RoundRobin, s: PolicyState, w: World, ev: Event)
    requires Follow(p, s, w) && Allowed(w, ev) && p as object != s as object
    modifies p, s
    ensures Follow(p, s, Next(w, ev))
  {
    NotifyIndex(p, w, ev);
    NotifyTable(s, w, ev);
  }

  /** For any history, tier and protected set, the original scan, the fused scan and the ordered index, with or
      without subtree counts, choose the same segment and report the same time: the least recently used segment
      of the tier with nothing stored below it and nothing protected in it. */
  method Victims(events: seq<Event>, shielded: set<Id>, tier: Tier)
    returns (scan: Option<Time>, fused: Option<Time>, walked: Option<Time>, counted: Option<Time>)
    requires History(events)
    ensures scan == fused == walked == counted
    ensures WorldOk(After(events)) && LruLeaf(After(events).tree, After(events).store, shielded, tier, scan)
  {
    var p := new RoundRobin();
    var s := new PolicyState();
    var w := START;
    forall a: Id ensures CountOk(EMPTY, {}, map[], a) {}
    for i := 0 to |events|
      invariant w == After(events[..i]) && Follow(p, s, w) && fresh(p) && fresh(s)
    {
      OneMoreEvent(events, i);
      Notify(p, s, w, events[i]);
      w := Next(w, events[i]);
    }
    assert events[..|events|] == events;
    scan := s.LruLeafScan(w.tree, w.store, shielded, tier);
    fused := s.LruLeafFused(w.tree, w.store, shielded, tier);
    walked := p.Victim(w.tree, w.store, shielded, tier, false);
    counted := p.Victim(w.tree, w.store, shielded, tier, true);
    LruLeafUnique(w.tree, w.store, shielded, tier, scan, fused);
    LruLeafUnique(w.tree, w.store, shielded, tier, scan, walked);
    LruLeafUnique(w.tree, w.store, shielded, tier, scan, counted);
  }
}
