/** What a memory policy decides to evict: the victim's segment, and whether its blocks are dropped or dumped. */
module MemoryDecision {
  import opened Prelude
  import opened Forest
  import opened MemoryIndex
  import opened MemoryVictim
  import opened MemoryPolicy
  import opened SubtreeCounts
  import opened MemoryHistory
  import opened MemoryReplay
  import opened SimulatorEviction
  import opened Pruning

  // ---- Timestamps ----

  /** Recency order is time order: the residents' last accesses happened in order of recency, none after `now`. */
  ghost predicate Timely(rec: map<Id, nat>, times: map<Id, nat>, now: nat) {
    && (forall r <- rec :: r in times && times[r] <= now)
    && (forall r, s | r in rec && s in rec && rec[r] <= rec[s] :: times[r] <= times[s])
  }

  datatype Stamped = Stamped(event: Event, time: nat)

  /** The node of an access carries its time; the timestamps of nodes outside memory are set anew before they
      enter it. */
  function Stamp(times: map<Id, nat>, s: Stamped): map<Id, nat> {
    if s.event.Inserted? || s.event.Accessed? then times[s.event.node := s.time] else times
  }

  lemma StampTimely(w: World, times: map<Id, nat>, now: nat, s: Stamped)
    requires WorldOk(w) && Allowed(w, s.event) && Timely(w.rec, times, now) && now <= s.time
    ensures Timely(Next(w, s.event).rec, Stamp(times, s), s.time)
  {}

  function Plain(log: seq<Stamped>): (events: seq<Event>)
    ensures |events| == |log| && forall i | 0 <= i < |log| :: events[i] == log[i].event
  {
    if log == [] then [] else Plain(log[..|log| - 1]) + [log[|log| - 1].event]
  }

  function Times(log: seq<Stamped>): map<Id, nat> {
    if log == [] then map[] else Stamp(Times(log[..|log| - 1]), log[|log| - 1])
  }

  function Now(log: seq<Stamped>): nat { if log == [] then 0 else log[|log| - 1].time }

  ghost predicate OnTime(log: seq<Stamped>) {
    forall i, j | 0 <= i < j < |log| :: log[i].time <= log[j].time
  }

  /** On a timeline that never moves backwards, memory recency orders the times of the last accesses. */
  lemma {:induction false} RecencyOrdersTimes(log: seq<Stamped>)
    requires History(Plain(log)) && OnTime(log)
    ensures WorldOk(After(Plain(log))) && Timely(After(Plain(log)).rec, Times(log), Now(log))
  {
    if log != [] {
      var before, s := log[..|log| - 1], log[|log| - 1];
      assert Plain(log)[..|log| - 1] == Plain(before);
      RecencyOrdersTimes(before);
      HistoryOk(Plain(log));
      StampTimely(After(Plain(before)), Times(before), Now(before), s);
    } else {
      HistoryOk(Plain(log));
    }
  }

  // ---- Decisions ----

  /** Every memory block of the segment that ends at `e` was last accessed more than `limit` before `now`. */
  ghost predicate Stale(t: Tree, residents: set<Id>, times: map<Id, nat>, now: nat, limit: real, e: Id)
    requires Grown(t) && residents <= times.Keys
  {
    forall r | r in residents && r in t.parent && Leaf(t, r) == e :: (now - times[r]) as real > limit
  }

  /** A segment with a block in memory is one the simulator can evict from. */
  lemma VictimDecides(t: Tree, residents: set<Id>, e: Id, r: Id, d: Eviction)
    requires Grown(t) && r in residents && r in t.parent && Leaf(t, r) == e && d.endpoint == e && d.most > 0
    ensures EvictionOk(t, residents, d)
  {
    SegmentsPartition(t, e, r);
  }

  /** Every memory block of the segment that ends at the decision's endpoint is among those that its first round takes. */
  ghost predicate TakesAll(t: Tree, residents: set<Id>, d: Eviction)
    requires Grown(t) && d.endpoint in t.parent
  {
    forall r | r in residents && r in t.parent && Leaf(t, r) == d.endpoint ::
      r in Deepest(Segment(t, d.endpoint), residents, d.most)
  }

  /** A decision that allows for as many blocks as there are in memory leaves none of the segment. */
  lemma UnlimitedTakesAll(t: Tree, residents: set<Id>, d: Eviction)
    requires Grown(t) && d.endpoint in t.parent && Leaf(t, d.endpoint) == d.endpoint && |residents| <= d.most
    ensures TakesAll(t, residents, d)
  {
    var nodes := Segment(t, d.endpoint);
    var kept := Deepest(nodes, residents, d.most);
    SegmentDistinct(t, d.endpoint);
    DeepestDistinct(nodes, residents, d.most);
    DistinctSize(kept);
    forall r | r in residents && r in t.parent && Leaf(t, r) == d.endpoint ensures r in kept {
      SegmentsPartition(t, d.endpoint, r);
      if r !in kept { SubsetSize(Elems(kept) + {r}, residents); }
    }
  }

  /** The newest resident of a segment speaks for all of them. */
  lemma NewestDecides(t: Tree, x: Index, times: map<Id, nat>, now: nat, limit: real, e: Id, k: Key)
    requires Indexes(t, x) && Timely(Recencies(x), times, now) && NewestOf(t, Recencies(x), e, k.recency)
    requires k.node in x.residents && x.residents[k.node].recency == k.recency
    requires k.node in t.parent && Leaf(t, k.node) == e
    ensures x.residents.Keys <= times.Keys
    ensures Stale(t, x.residents.Keys, times, now, limit, e) <==> (now - times[k.node]) as real > limit
  {
    assert Recencies(x).Keys == x.residents.Keys;
    forall r | r in x.residents && r in t.parent && Leaf(t, r) == e ensures times[r] <= times[k.node] {
      assert Recencies(x)[r] <= Recencies(x)[k.node];
    }
  }

  /** The newest member of a victim's segment. */
  method NewestMember(p: Indexed, t: Tree, e: Id) returns (k: Key)
    requires Indexes(t, p.View()) && (exists r :: r in p.residents && r in t.parent && Leaf(t, r) == e)
    ensures k.node in p.residents && p.residents[k.node].recency == k.recency
    ensures k.node in t.parent && Leaf(t, k.node) == e && NewestOf(t, Recencies(p.View()), e, k.recency)
  {
    ghost var x := p.View();
    ghost var r :| r in p.residents && r in t.parent && Leaf(t, r) == e;
    assert PlaceOk(t, x, r) && HandleOk(x, x.residents[r].segment);
    assert FileOk(x, x.residents[r].segment, Key(x.residents[r].recency, r));
    var h := p.endpoints[e];
    k := Newest(p.segments[h].members);
    assert FileOk(x, h, k) && PlaceOk(t, x, k.node);
    forall s | s in x.residents && s in t.parent && Leaf(t, s) == e ensures x.residents[s].recency <= k.recency {
      assert PlaceOk(t, x, s) && HandleOk(x, x.residents[s].segment);
      assert FileOk(x, h, Key(x.residents[s].recency, s));
    }
  }

  /** All blocks of a victim's segment are evicted. They are dropped exactly if none of them was accessed within the
      retention time; only the newest block is looked at. */
  method Evict(p: Indexed, t: Tree, times: map<Id, nat>, now: nat, retention: Option<nat>,
               sampled: nat, start: nat, workers: nat) returns (d: Eviction)
    requires Indexes(t, p.View()) && Timely(Recencies(p.View()), times, now) && p.residents != map[]
    requires workers > 0 && sampled <= |p.groups| && start < |p.groups|
    ensures p.residents.Keys <= times.Keys
    ensures EvictionOk(t, p.residents.Keys, d) && Bare(t, p.residents.Keys, d.endpoint) && d.reclaimParent
    ensures TakesAll(t, p.residents.Keys, d)
    ensures d.drop <==> retention.Some? && Stale(t, p.residents.Keys, times, now, retention.value as real, d.endpoint)
    ensures sampled == 0 ==> LruVictim(t, Recencies(p.View()), d.endpoint)
  {
    var victim := p.SelectVictim(t, sampled, start, workers);
    var k := NewestMember(p, t, victim);
    var limit: real := if retention.Some? then retention.value as real else 0.0;
    NewestDecides(t, p.View(), times, now, limit, victim, k);
    d := Eviction(victim, retention.Some? && now - times[k.node] > retention.value, true, |p.residents|);
    assert p.residents.Keys != {} by { assert k.node in p.residents.Keys; }
    VictimDecides(t, p.residents.Keys, victim, k.node, d);
    UnlimitedTakesAll(t, p.residents.Keys, d);
  }

  /** After any history on a timeline the unsampled policy evicts all blocks of the least recently used segment
      without residents below it, and drops them exactly if they are all past the retention time. */
  method Decide(log: seq<Stamped>, now: nat, retention: Option<nat>, groups: nat, spread: Id -> nat, start: nat, workers: nat)
    returns (d: Eviction)
    requires History(Plain(log)) && OnTime(log) && Now(log) <= now && start < groups && workers > 0
    requires After(Plain(log)).rec != map[]
    ensures var w := After(Plain(log));
      && WorldOk(w) && EvictionOk(w.tree, w.rec.Keys, d) && LruVictim(w.tree, w.rec, d.endpoint)
      && w.rec.Keys <= Times(log).Keys && TakesAll(w.tree, w.rec.Keys, d)
      && (d.drop <==> retention.Some? && Stale(w.tree, w.rec.Keys, Times(log), now, retention.value as real, d.endpoint))
  {
    var p := new Indexed(groups, spread);
    var w, times, events := START, Times(log), Plain(log);
    assert Recencies(p.View()) == map[];
    for i := 0 to |events|
      invariant w == After(events[..i]) && WorldOk(w)
      invariant Indexes(w.tree, p.View()) && Recencies(p.View()) == w.rec && p.nextRecency == w.clock
      invariant |p.groups| == groups && fresh(p)
    {
      OneMoreEvent(events, i);
      NotifyIndexed(p, w, events[i]);
      NextOk(w, events[i]);
      w := Next(w, events[i]);
    }
    assert events[..|events|] == events;
    RecencyOrdersTimes(log);
    assert Recencies(p.View()).Keys == p.residents.Keys;
    d := Evict(p, w.tree, times, now, retention, 0, start, workers);
  }
}
