/** Histories of the tree and of the DRAM, as memory policies are told of them. */
module MemoryHistory {
  import opened Prelude
  import opened Forest

  datatype Event =
    | Created(node: Id, parent: Option<Id>)
    | Pruned(node: Id)
    | Inserted(node: Id)
    | Accessed(node: Id)
    | Removed(node: Id)

  /** A tree, the recency of every node in DRAM, and the last recency handed out. */
  datatype World = World(tree: Tree, rec: map<Id, nat>, clock: nat)

  const START := World(EMPTY, map[], 0)

  /** What the simulator guarantees of the notifications it sends. */
  ghost predicate Allowed(w: World, ev: Event) {
    match ev
    case Created(n, parent) => n !in w.tree.parent && (parent.Some? ==> parent.value in w.tree.parent)
    case Pruned(n) => n in w.tree.parent && n !in w.rec && Children(w.tree, n) == {}
    case Inserted(n) => n in w.tree.parent && n !in w.rec
    case Accessed(n) => n in w.rec
    case Removed(n) => n in w.rec
  }

  function Next(w: World, ev: Event): World {
    match ev
    case Created(n, parent) => w.(tree := Add(w.tree, n, parent))
    case Pruned(n) => w.(tree := Remove(w.tree, n))
    case Inserted(n) => w.(rec := w.rec[n := w.clock + 1], clock := w.clock + 1)
    case Accessed(n) => w.(rec := w.rec[n := w.clock + 1], clock := w.clock + 1)
    case Removed(n) => w.(rec := w.rec - {n})
  }

  function After(events: seq<Event>): World {
    if events == [] then START else Next(After(events[..|events| - 1]), events[|events| - 1])
  }

  ghost predicate History(events: seq<Event>) {
    events == [] || (History(events[..|events| - 1]) && Allowed(After(events[..|events| - 1]), events[|events| - 1]))
  }

  ghost predicate WorldOk(w: World) {
    Grown(w.tree) && w.rec.Keys <= w.tree.parent.Keys && forall r <- w.rec :: w.rec[r] <= w.clock
  }

  lemma NextOk(w: World, ev: Event)
    requires WorldOk(w) && Allowed(w, ev)
    ensures WorldOk(Next(w, ev))
    ensures ev.Created? ==> Grows(w.tree, Next(w, ev).tree, ev.node)
    ensures ev.Pruned? ==> Grows(Next(w, ev).tree, w.tree, ev.node)
  {
    match ev
    case Created(n, parent) => AddGrows(w.tree, n, parent);
    case Pruned(n) => RemoveGrows(w.tree, n);
    case _ =>
  }

  lemma {:induction false} HistoryOk(events: seq<Event>)
    requires History(events)
    ensures WorldOk(After(events))
  {
    if events != [] {
      HistoryOk(events[..|events| - 1]);
      NextOk(After(events[..|events| - 1]), events[|events| - 1]);
    }
  }

  lemma {:induction false} PrefixHistory(events: seq<Event>, i: nat)
    requires History(events) && i <= |events|
    ensures History(events[..i])
  {
    if i < |events| {
      PrefixHistory(events[..|events| - 1], i);
      assert events[..|events| - 1][..i] == events[..i];
    } else {
      assert events[..i] == events;
    }
  }

  lemma OneMoreEvent(events: seq<Event>, i: nat)
    requires History(events) && i < |events|
    ensures Allowed(After(events[..i]), events[i]) && After(events[..i + 1]) == Next(After(events[..i]), events[i])
  {
    PrefixHistory(events, i + 1);
    assert events[..i + 1][..i] == events[..i] && events[..i + 1][i] == events[i];
  }

  /** A history that leads to this tree and these memory blocks, whoever reads it; the quantifier keeps the verifier
      from unrolling histories where they are only carried along. */
  ghost predicate Tells(events: seq<Event>, t: Tree, memory: set<Id>) {
    forall i {:trigger Reader(i)} :: Reader(i) ==> History(events) && After(events).tree == t && After(events).rec.Keys == memory
  }

  lemma TellsHistory(events: seq<Event>, t: Tree, memory: set<Id>)
    ensures Tells(events, t, memory) <==> History(events) && After(events).tree == t && After(events).rec.Keys == memory
  {
    assert Reader(0);
  }

  lemma TellsNext(events: seq<Event>, t: Tree, memory: set<Id>, ev: Event)
    requires Tells(events, t, memory) && Allowed(After(events), ev)
    ensures var w := Next(After(events), ev); Tells(events + [ev], w.tree, w.rec.Keys)
  {
    TellsHistory(events, t, memory);
    var w := Next(After(events), ev);
    TellsHistory(events + [ev], w.tree, w.rec.Keys);
    assert (events + [ev])[..|events|] == events;
  }

  lemma TellsPruned(events: seq<Event>, t: Tree, memory: set<Id>, n: Id)
    requires Tells(events, t, memory) && n in t.parent && n !in memory && Grown(t) && Children(t, n) == {}
    ensures Tells(events + [Pruned(n)], Remove(t, n), memory)
  {
    TellsHistory(events, t, memory);
    TellsNext(events, t, memory, Pruned(n));
  }

  lemma TellsCreated(events: seq<Event>, t: Tree, memory: set<Id>, n: Id, parent: Option<Id>)
    requires Tells(events, t, memory) && n !in t.parent && (parent.Some? ==> parent.value in t.parent)
    ensures Tells(events + [Created(n, parent)], Add(t, n, parent), memory)
  {
    TellsHistory(events, t, memory);
    TellsNext(events, t, memory, Created(n, parent));
  }

  lemma TellsInserted(events: seq<Event>, t: Tree, memory: set<Id>, n: Id)
    requires Tells(events, t, memory) && n in t.parent && n !in memory
    ensures Tells(events + [Inserted(n)], t, memory + {n})
  {
    TellsHistory(events, t, memory);
    TellsNext(events, t, memory, Inserted(n));
  }

  lemma TellsAccessed(events: seq<Event>, t: Tree, memory: set<Id>, n: Id)
    requires Tells(events, t, memory) && n in memory
    ensures Tells(events + [Accessed(n)], t, memory)
  {
    TellsHistory(events, t, memory);
    TellsNext(events, t, memory, Accessed(n));
    assert memory + {n} == memory;
  }

  lemma TellsRemoved(events: seq<Event>, t: Tree, memory: set<Id>, n: Id)
    requires Tells(events, t, memory) && n in memory
    ensures Tells(events + [Removed(n)], t, memory - {n})
  {
    TellsHistory(events, t, memory);
    TellsNext(events, t, memory, Removed(n));
  }
}
