/** Every history of the tree and the DRAM leads the indexed and the baseline policy to the same victim. */
module MemoryReplay {
  import opened Prelude
  import opened Forest
  import opened MemoryIndex
  import opened MemoryHistory
  import opened MemoryVictim
  import opened MemoryPolicy
  import opened BaselinePolicy

  method NotifyIndexed(p: Indexed, w: World, ev: Event)
    requires WorldOk(w) && Allowed(w, ev)
    requires Indexes(w.tree, p.View()) && Recencies(p.View()) == w.rec && p.nextRecency == w.clock
    modifies p
    ensures var v := Next(w, ev);
      Indexes(v.tree, p.View()) && Recencies(p.View()) == v.rec && p.nextRecency == v.clock
    ensures |p.groups| == |old(p.groups)|
  {
    NextOk(w, ev);
    assert Recencies(p.View()).Keys == p.residents.Keys;
    var tree := Next(w, ev).tree;
    match ev
    case Created(n, _) => p.NodeCreated(w.tree, tree, n);
    case Pruned(n) => p.NodePruned(tree, w.tree, n, w.tree.parent[n]);
    case Inserted(n) => p.Insert(tree, n);
    case Accessed(n) => p.Access(tree, n);
    case Removed(n) => p.Remove(tree, n);
  }

  method BaselineAccessed(p: Baseline, ghost rec: map<Id, nat>, n: Id, ghost m: nat)
    requires p.Valid() && Orders(p.order, rec) && n in rec && forall r <- rec :: rec[r] < m
    modifies p
    ensures p.Valid() && Orders(p.order, rec[n := m])
  {
    ghost var k :| 0 <= k < |p.order| && p.order[k] == n;
    OrdersTouch(p.order, rec, k, m);
    p.Touch(n, k);
  }

  method BaselineRemoved(p: Baseline, ghost rec: map<Id, nat>, n: Id)
    requires p.Valid() && Orders(p.order, rec) && n in rec
    modifies p
    ensures p.Valid() && Orders(p.order, rec - {n})
  {
    ghost var k :| 0 <= k < |p.order| && p.order[k] == n;
    OrdersRemove(p.order, rec, k);
    p.Detach(n, k);
  }

  method NotifyBaseline(p: Baseline, ghost w: World, ev: Event)
    requires WorldOk(w) && Allowed(w, ev)
    requires p.Valid() && Orders(p.order, w.rec)
    modifies p
    ensures p.Valid() && Orders(p.order, Next(w, ev).rec)
  {
    match ev
    case Inserted(n) =>
      OrdersInsert(p.order, w.rec, n, w.clock + 1);
      p.AttachFront(n);
    case Accessed(n) => BaselineAccessed(p, w.rec, n, w.clock + 1);
    case Removed(n) => BaselineRemoved(p, w.rec, n);
    case Created(_, _) =>
    case Pruned(_) =>
  }

  /** Both policies describe the same world. */
  ghost predicate Follow(a: Indexed, b: Baseline, w: World)
    reads a, b
  {
    && WorldOk(w)
    && Indexes(w.tree, a.View()) && Recencies(a.View()) == w.rec && a.nextRecency == w.clock
    && b.Valid() && Orders(b.order, w.rec)
  }

  method Notify(a: Indexed, b: Baseline, w: World, ev: Event)
    requires Follow(a, b, w) && Allowed(w, ev)
    modifies a, b
    ensures Follow(a, b, Next(w, ev)) && |a.groups| == |old(a.groups)|
  {
    NextOk(w, ev);
    NotifyIndexed(a, w, ev);
    NotifyBaseline(b, w, ev);
  }

  method Choose(a: Indexed, b: Baseline, w: World, start: nat, workers: nat) returns (victim: Id, scanned: Id)
    requires Follow(a, b, w) && w.rec != map[] && start < |a.groups| && 0 < workers
    ensures victim == scanned && LruVictim(w.tree, w.rec, victim)
  {
    assert Recencies(a.View()).Keys == a.residents.Keys;
    victim := a.SelectVictim(w.tree, 0, start, workers);
    scanned := b.Evict(w.tree, w.rec);
    DistinctInIndex(w.tree, a.View());
    VictimUnique(w.tree, w.rec, victim, scanned);
  }

  /** For any history, any number of groups and workers and any grouping of endpoints, the search of the index
      and the scan of the recency list find the same victim, and it is the least recently used segment with no
      resident below it. */
  method Victims(events: seq<Event>, groups: nat, spread: Id -> nat, start: nat, workers: nat)
    returns (indexed: Option<Id>, scanned: Option<Id>)
    requires History(events) && start < groups && 0 < workers
    ensures indexed == scanned
    ensures indexed.Some? <==> After(events).rec != map[]
    ensures WorldOk(After(events))
    ensures indexed.Some? ==> LruVictim(After(events).tree, After(events).rec, indexed.value)
  {
    var a := new Indexed(groups, spread);
    var b := new Baseline();
    var w := START;
    assert Recencies(a.View()) == map[];
    for i := 0 to |events|
      invariant w == After(events[..i]) && Follow(a, b, w)
      invariant |a.groups| == groups
      invariant fresh(a) && fresh(b)
    {
      OneMoreEvent(events, i);
      Notify(a, b, w, events[i]);
      w := Next(w, events[i]);
    }
    assert events[..|events|] == events;
    if w.rec == map[] { return None, None; }
    var v, s := Choose(a, b, w, start, workers);
    return Some(v), Some(s);
  }
}
