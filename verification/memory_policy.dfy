/** The indexed DRAM policy: the segment index edited in place by tree and residency notifications. */
module MemoryPolicy {
  import opened Prelude
  import opened Forest
  import opened MemoryIndex
  import opened MemoryEdits
  import opened SubtreeCounts
  import opened MemoryVictim

  class Indexed {
    const mix: Id -> nat
    var residents: map<Id, Resident>
    var segments: map<Handle, Entry>
    var endpoints: map<Id, Handle>
    var groups: seq<set<Key>>
    var subtree: map<Id, nat>
    var nextRecency: nat
    var nextHandle: nat

    ghost function View(): Index
      reads this
    {
      Index(residents, segments, endpoints, groups, subtree, nextRecency, nextHandle)
    }

    constructor (count: nat, spread: Id -> nat)
      requires count > 0
      ensures Indexes(EMPTY, View()) && |groups| == count && residents == map[] && nextRecency == 0
    {
      mix := spread;
      residents, segments, endpoints, subtree, nextRecency, nextHandle := map[], map[], map[], map[], 0, 0;
      groups := seq(count, _ => {});
    }

    method EnsureSegment(e: Id) returns (h: Handle)
      requires Linked(View())
      modifies this
      ensures e in old(endpoints) ==> h == old(endpoints)[e] && View() == old(View())
      ensures e !in old(endpoints) ==>
        h == old(nextHandle) + 1 && View() == NewSegment(old(View()), e, mix(e) % |old(groups)|)
    {
      if e in endpoints { return endpoints[e]; }
      nextHandle := nextHandle + 1;
      h := nextHandle;
      segments := segments[h := Entry(e, mix(e) % |groups|, {})];
      endpoints := endpoints[e := h];
    }

    method Withdraw(h: Handle)
      requires h in segments && segments[h].group < |groups|
      modifies this
      ensures View() == Unpublish(old(View()), h)
    {
      var e := segments[h];
      if e.members != {} {
        groups := groups[e.group := groups[e.group] - {Key(Newest(e.members).recency, e.endpoint)}];
      }
    }

    method Announce(h: Handle)
      requires h in segments && segments[h].group < |groups|
      modifies this
      ensures View() == Publish(old(View()), h)
    {
      var e := segments[h];
      if e.members == {} {
        endpoints := endpoints - {e.endpoint};
        segments := segments - {h};
      } else {
        groups := groups[e.group := groups[e.group] + {Key(Newest(e.members).recency, e.endpoint)}];
      }
    }

    /** Keeps a published segment's members and moves its endpoint. */
    method MoveEndpoint(h: Handle, e: Id)
      requires Core(View(), {}) && h in segments && e !in endpoints
      modifies this
      ensures Core(View(), {}) && residents == old(residents) && subtree == old(subtree) && nextRecency == old(nextRecency)
      ensures segments.Keys == old(segments).Keys && |groups| == |old(groups)|
      ensures forall j <- segments :: segments[j].endpoint == if j == h then e else old(segments)[j].endpoint
    {
      assert HandleOk(View(), h) && NonEmpty(View(), {}, h);
      UnpublishCore(View(), {}, h);
      Withdraw(h);
      assert {} + {h} == {h};
      RetargetCore(View(), {h}, h, e);
      endpoints := (endpoints - {segments[h].endpoint})[e := h];
      segments := segments[h := segments[h].(endpoint := e)];
      PublishCore(View(), {h}, h);
      Announce(h);
      assert {h} - {h} == {};
    }

    /** The segment that ends at `e`, created if need be, and withdrawn from its group for editing. */
    method OpenSegment(e: Id) returns (h: Handle)
      requires Core(View(), {})
      modifies this
      ensures Core(View(), {h}) && h in segments && segments[h].endpoint == e
      ensures residents == old(residents) && subtree == old(subtree) && nextRecency == old(nextRecency)
      ensures |groups| == |old(groups)|
      ensures forall j <- old(segments) :: j in segments && segments[j] == old(segments)[j]
    {
      ghost var x := View();
      if e !in endpoints { NewSegmentCore(x, {}, e, mix(e) % |groups|); }
      assert EndpointOk(x, e) && HandleOk(x, nextHandle + 1);
      h := EnsureSegment(e);
      assert {} + {h} == {h};
      assert HandleOk(View(), h);
      if e in x.endpoints { UnpublishCore(x, {}, h); }
      Withdraw(h);
    }

    /** Publishes an edited segment; afterwards the index describes the tree again. */
    method CloseSegment(ghost t: Tree, h: Handle)
      requires Grown(t) && Core(View(), {h}) && h in segments && (forall r :: PlaceOk(t, View(), r))
      requires Counted(t, residents.Keys, subtree)
      modifies this
      ensures Indexes(t, View()) && residents == old(residents)
      ensures nextRecency == old(nextRecency) && |groups| == |old(groups)|
    {
      PublishCore(View(), {h}, h);
      PublishPlaces(t, View(), h);
      Announce(h);
      assert {h} - {h} == {};
    }

    /** Withdraws the segment of a resident for editing. */
    method OpenResident(ghost t: Tree, id: Id) returns (h: Handle)
      requires Indexes(t, View()) && id in residents
      modifies this
      ensures h in segments && residents == old(residents) && residents[id].segment == h
      ensures Core(View(), {h}) && (forall r :: PlaceOk(t, View(), r))
      ensures subtree == old(subtree) && nextRecency == old(nextRecency) && |groups| == |old(groups)|
    {
      ghost var x := View();
      ResidentFiled(x, id);
      h := residents[id].segment;
      assert HandleOk(x, h);
      UnpublishCore(x, {}, h);
      assert {} + {h} == {h};
      Withdraw(h);
      PlacesOfResidents(t, x, View());
    }

    method Join(h: Handle, id: Id)
      requires h in segments
      modifies this
      ensures View() == AddMember(old(View()), h, id)
    {
      nextRecency := nextRecency + 1;
      residents := residents[id := Resident(nextRecency, h)];
      segments := segments[h := segments[h].(members := segments[h].members + {Key(nextRecency, id)})];
    }

    method Leave(id: Id)
      requires id in residents && residents[id].segment in segments
      modifies this
      ensures View() == DropMember(old(View()), id)
    {
      var r := residents[id];
      segments := segments[r.segment := segments[r.segment].(members := segments[r.segment].members - {Key(r.recency, id)})];
      residents := residents - {id};
    }

    /** A node gained its DRAM copy: it becomes the newest member of its segment. */
    method Insert(t: Tree, id: Id)
      requires Indexes(t, View()) && id in t.parent && id !in residents
      modifies this
      ensures Indexes(t, View()) && |groups| == |old(groups)| && nextRecency == old(nextRecency) + 1
      ensures Recencies(View()) == Recencies(old(View()))[id := nextRecency]
    {
      ghost var x := View();
      var h := OpenSegment(Leaf(t, id));
      AddMemberCore(View(), {h}, h, id);
      Join(h, id);
      JoinPlaces(t, x, View(), h, id);
      ghost var y := View();
      CountsPositive(t, x.residents.Keys, subtree);
      subtree := CountPath(t, id, true, subtree);
      InsertCounted(t, x.residents.Keys, x.subtree, subtree, id);
      assert residents.Keys == x.residents.Keys + {id};
      SubtreeCore(y, View(), {h});
      PlacesOfResidents(t, y, View());
      CloseSegment(t, h);
    }

    /** A node was accessed in DRAM: it becomes the newest member of the same segment. */
    method Access(t: Tree, id: Id)
      requires Indexes(t, View()) && id in residents
      modifies this
      ensures Indexes(t, View()) && |groups| == |old(groups)| && nextRecency == old(nextRecency) + 1
      ensures Recencies(View()) == Recencies(old(View()))[id := nextRecency]
    {
      ghost var x := View();
      assert PlaceOk(t, x, id);
      var h := OpenResident(t, id);
      ghost var y := View();
      DropMemberCore(y, {h}, id);
      Leave(id);
      AddMemberCore(View(), {h}, h, id);
      Join(h, id);
      assert residents == y.residents[id := Resident(nextRecency, h)];
      assert PlaceOk(t, y, id);
      JoinPlaces(t, y, View(), h, id);
      assert residents.Keys == x.residents.Keys;
      CloseSegment(t, h);
    }

    /** A node lost its DRAM copy. */
    method Remove(t: Tree, id: Id)
      requires Indexes(t, View()) && id in residents
      modifies this
      ensures Indexes(t, View()) && |groups| == |old(groups)| && nextRecency == old(nextRecency)
      ensures Recencies(View()) == Recencies(old(View())) - {id}
    {
      ghost var x := View();
      assert PlaceOk(t, x, id);
      var h := OpenResident(t, id);
      ghost var y := View();
      DropMemberCore(y, {h}, id);
      Leave(id);
      ghost var z := View();
      CountsOnPath(t, x.residents.Keys, subtree, id);
      CountsPositive(t, x.residents.Keys, subtree);
      subtree := CountPath(t, id, false, subtree);
      RemoveCounted(t, x.residents.Keys, x.subtree, subtree, id);
      assert residents.Keys == x.residents.Keys - {id};
      SubtreeCore(z, View(), {h});
      forall s: Id ensures PlaceOk(t, View(), s) { assert PlaceOk(t, y, s); }
      CloseSegment(t, h);
    }

    /** A leaf `n` was created: the segment above it is extended, or cut where a second child appears. */
    method NodeCreated(ghost t: Tree, u: Tree, n: Id)
      requires Grows(t, u, n) && Indexes(t, View())
      modifies this
      ensures Indexes(u, View()) && |groups| == |old(groups)| && nextRecency == old(nextRecency)
      ensures Recencies(View()) == Recencies(old(View()))
    {
      ghost var x := View();
      ChildrenGrow(t, u, n, n);
      if u.parent[n].Some? {
        var p := u.parent[n].value;
        ChildrenGrow(t, u, n, p);
        if ChildCount(u, p) == 1 {
          if p in endpoints {
            if n in endpoints { var _ := EndpointReal(t, x, n); }
            assert EndpointOk(x, p);
            MoveEndpoint(endpoints[p], n);
          }
        } else if ChildCount(u, p) == 2 {
          CutSegment(t, u, n, p);
        }
      }
      forall r: Id ensures PlaceOk(u, View(), r) {
        assert PlaceOk(t, x, r);
        if r in x.residents {
          LeafGrows(t, u, n, r);
          assert HandleOk(x, x.residents[r].segment);
        }
      }
      ResidentsInTree(t, x);
      SameResidents(t, u, n, x, View());
    }

    /** Moves the residents above the new branch, from `p` up, to a segment of their own. */
    method CutSegment(ghost t: Tree, u: Tree, n: Id, p: Id)
      requires Grows(t, u, n) && Indexes(t, View()) && u.parent[n] == Some(p) && p in t.parent
      requires ChildCount(t, p) == 1 && ChildCount(u, p) == 2
      modifies this
      ensures Core(View(), {}) && residents.Keys == old(residents).Keys && Recencies(View()) == Recencies(old(View()))
      ensures subtree == old(subtree) && |groups| == |old(groups)| && nextRecency == old(nextRecency)
      ensures forall r :: PlaceOk(u, View(), r)
    {
      ghost var x := View();
      var scratch := Segment(u, p);
      SegmentDistinct(u, p);
      var ends: Option<(Handle, Handle)> := None;
      for i := 0 to |scratch|
        invariant CutState(x, View(), ends, Leaf(t, p), p, ResidentsAmong(x, scratch[..i]))
        invariant residents.Keys == x.residents.Keys
      {
        OneMoreNode(x, scratch, i);
        if scratch[i] in residents {
          ends := CutOne(t, u, n, p, x, ends, scratch[i], ResidentsAmong(x, scratch[..i]));
        }
      }
      assert scratch[..|scratch|] == scratch;
      CloseCut(t, u, n, p, x, ends);
    }

    method CloseCut(ghost t: Tree, ghost u: Tree, ghost n: Id, p: Id, ghost x: Index, ends: Option<(Handle, Handle)>)
      requires Grows(t, u, n) && u.parent[n] == Some(p) && p in t.parent && ChildCount(t, p) == 1
      requires Core(x, {}) && (forall r :: PlaceOk(t, x, r))
      requires CutState(x, View(), ends, Leaf(t, p), p, ResidentsAmong(x, Segment(u, p)))
      modifies this
      ensures Core(View(), {}) && residents.Keys == x.residents.Keys && Recencies(View()) == Recencies(x)
      ensures subtree == x.subtree && |groups| == |x.groups| && nextRecency == x.nextRecency
      ensures forall r :: PlaceOk(u, View(), r)
    {
      ghost var moved := ResidentsAmong(x, Segment(u, p));
      if ends.None? {
        forall r | r in Segment(u, p) ensures r !in x.residents { assert r !in moved; }
        NothingToCut(t, u, n, x, p);
      } else {
        CutPlaces(t, u, n, x, View(), ends.value.0, ends.value.1, p, moved);
        FinishCut(u, ends.value.0, ends.value.1);
      }
    }

    /** Moves one resident of the prefix, starting the cut if it is the first. */
    method CutOne(ghost t: Tree, ghost u: Tree, ghost n: Id, p: Id, ghost x: Index,
                  ends: Option<(Handle, Handle)>, id: Id, ghost moved: set<Id>) returns (r: Option<(Handle, Handle)>)
      requires Grows(t, u, n) && u.parent[n] == Some(p) && p in t.parent && ChildCount(t, p) == 1
      requires Indexes(t, x) && CutState(x, View(), ends, Leaf(t, p), p, moved)
      requires id in x.residents && id in residents && id in Segment(u, p) && id !in moved
      modifies this
      ensures r.Some? && CutState(x, View(), r, Leaf(t, p), p, moved + {id})
      ensures residents.Keys == old(residents).Keys
    {
      PrefixSegment(t, u, n, x, p, id);
      r := ends;
      if r.None? {
        var s, f := BeginCut(t, id, p);
        r := Some((s, f));
      }
      CutStep(x, View(), r.value.0, r.value.1, p, moved, id);
      ShiftResident(id, r.value.0, r.value.1);
    }

    /** Withdraws the segment of `id` and creates the one that is to end at `p`. */
    method BeginCut(ghost t: Tree, id: Id, p: Id) returns (s: Handle, f: Handle)
      requires Grown(t) && Core(View(), {}) && (forall r :: PlaceOk(t, View(), r))
      requires id in residents && p in t.parent && ChildCount(t, p) == 1
      modifies this
      ensures s == old(residents)[id].segment && Cutting(old(View()), View(), s, f, p, {})
    {
      ghost var x := View();
      s := residents[id].segment;
      ResidentFiled(x, id);
      UnpublishCore(x, {}, s);
      assert {} + {s} == {s};
      Withdraw(s);
      if p in endpoints { var _ := EndpointReal(t, x, p); }
      NewSegmentCore(View(), {s}, p, mix(p) % |groups|);
      assert HandleOk(x, nextHandle + 1);
      f := EnsureSegment(p);
      assert {s} + {f} == {s, f};
    }

    method FinishCut(ghost u: Tree, s: Handle, f: Handle)
      requires Grown(u) && Core(View(), {s, f}) && s in segments && f in segments && s != f
      requires forall r :: PlaceOk(u, View(), r)
      modifies this
      ensures Core(View(), {}) && residents == old(residents) && subtree == old(subtree)
      ensures |groups| == |old(groups)| && nextRecency == old(nextRecency)
      ensures forall r :: PlaceOk(u, View(), r)
    {
      PublishCore(View(), {s, f}, s);
      PublishPlaces(u, View(), s);
      Announce(s);
      assert {s, f} - {s} == {f};
      PublishCore(View(), {f}, f);
      PublishPlaces(u, View(), f);
      Announce(f);
      assert {f} - {f} == {};
    }

    method ShiftResident(id: Id, from: Handle, to: Handle)
      requires id in residents && residents[id].segment == from && from in segments && to in segments
      modifies this
      ensures View() == Shift(old(View()), id, to)
    {
      var r := residents[id];
      var k := Key(r.recency, id);
      segments := segments[from := segments[from].(members := segments[from].members - {k})];
      segments := segments[to := segments[to].(members := segments[to].members + {k})];
      residents := residents[id := r.(segment := to)];
    }

    /** A childless node `n` without a DRAM copy was pruned: the segment above it ends earlier, or the two
        segments around the vanished branch become one. */
    method NodePruned(t: Tree, ghost u: Tree, n: Id, parent: Option<Id>)
      requires Grows(t, u, n) && Indexes(u, View()) && n !in residents && parent == u.parent[n]
      modifies this
      ensures Indexes(t, View()) && |groups| == |old(groups)| && nextRecency == old(nextRecency)
      ensures Recencies(View()) == Recencies(old(View()))
    {
      ghost var x := View();
      ChildrenGrow(t, u, n, n);
      if parent.Some? && ChildCount(t, parent.value) == 1 {
        ChildrenGrow(t, u, n, parent.value);
        Merge(t, u, n, parent.value, Leaf(t, parent.value));
      } else {
        if parent.Some? && ChildCount(t, parent.value) == 0 {
          var p := parent.value;
          ChildrenGrow(t, u, n, p);
          if n in endpoints {
            if p in endpoints { var _ := EndpointReal(u, x, p); }
            assert EndpointOk(x, n);
            MoveEndpoint(endpoints[n], p);
          }
        }
        forall r: Id ensures PlaceOk(t, View(), r) {
          assert PlaceOk(u, x, r);
          if r in x.residents {
            LeafGrows(t, u, n, r);
            assert HandleOk(x, x.residents[r].segment);
          }
        }
      }
      ResidentsInTree(t, View());
      SameResidents(t, u, n, x, View());
    }

    /** The segments that ended at `p` and at `suffix` are one segment now. */
    method Merge(ghost t: Tree, ghost u: Tree, ghost n: Id, p: Id, suffix: Id)
      requires Grows(t, u, n) && u.parent[n] == Some(p) && p in t.parent && ChildCount(t, p) == 1
      requires Core(View(), {}) && (forall r :: PlaceOk(u, View(), r)) && n !in residents && suffix == Leaf(t, p)
      modifies this
      ensures Core(View(), {}) && residents.Keys == old(residents).Keys && Recencies(View()) == Recencies(old(View()))
      ensures subtree == old(subtree) && |groups| == |old(groups)| && nextRecency == old(nextRecency)
      ensures forall r :: PlaceOk(t, View(), r)
    {
      ghost var x := View();
      assert EndpointOk(x, p) && EndpointOk(x, suffix);
      if p in endpoints && suffix in endpoints {
        var a, b := endpoints[p], endpoints[suffix];
        assert HandleOk(x, a) && HandleOk(x, b);
        MergeInto(a, b);
        AbsorbPlaces(t, u, n, x, View(), a, b, p);
      } else {
        if p in endpoints { MoveEndpoint(endpoints[p], suffix); }
        forall r: Id ensures PlaceOk(t, View(), r) {
          assert PlaceOk(u, x, r);
          if r in x.residents {
            LeafGrows(t, u, n, r);
            assert HandleOk(x, x.residents[r].segment);
          }
        }
      }
    }

    method MergeInto(a: Handle, b: Handle)
      requires Core(View(), {}) && a in segments && b in segments && a != b
      modifies this
      ensures Core(View(), {}) && residents == Absorb(old(View()), a, b).residents
      ensures subtree == old(subtree) && |groups| == |old(groups)| && nextRecency == old(nextRecency)
      ensures forall j <- old(segments) :: j != a ==> j in segments && segments[j].endpoint == old(segments)[j].endpoint
    {
      ghost var x := View();
      assert HandleOk(x, a) && HandleOk(x, b);
      UnpublishCore(x, {}, a);
      assert {} + {a} == {a};
      Withdraw(a);
      UnpublishCore(View(), {a}, b);
      assert {a} + {b} == {a, b};
      Withdraw(b);
      AbsorbCore(View(), {a, b}, a, b);
      Reassign(a, b);
      assert {a, b} - {a} == {b};
      PublishCore(View(), {b}, b);
      assert NonEmpty(x, {}, b);
      Announce(b);
      assert {b} - {b} == {};
    }

    /** Points every member of `a` at `b`, moves the members over and forgets `a`. */
    method Reassign(a: Handle, b: Handle)
      requires Filed(View()) && a in segments && b in segments && a != b
      modifies this
      ensures View() == Absorb(old(View()), a, b)
    {
      ghost var x := View();
      var left := segments[a].members;
      while left != {}
        invariant left <= x.segments[a].members && residents.Keys == x.residents.Keys
        invariant forall r <- residents ::
          residents[r] == if Key(x.residents[r].recency, r) in x.segments[a].members - left
                          then x.residents[r].(segment := b) else x.residents[r]
        invariant View() == x.(residents := residents)
        decreases left
      {
        var k :| k in left;
        assert FileOk(x, a, k);
        residents := residents[k.node := residents[k.node].(segment := b)];
        left := left - {k};
      }
      forall r | r in residents ensures residents[r] == Absorb(x, a, b).residents[r] {
        assert FileOk(x, a, Key(x.residents[r].recency, r));
      }
      segments := segments[b := segments[b].(members := segments[b].members + segments[a].members)];
      endpoints := endpoints - {segments[a].endpoint};
      segments := segments - {a};
    }

    // ---- Choosing a victim ----

    /** The first key of one ordered group whose segment has no resident below it. */
    method SearchGroup(t: Tree, g: nat) returns (best: Option<Key>)
      requires Indexes(t, View()) && g < |groups|
      ensures LeastOpen(t, View(), {g}, best)
    {
      var rest := groups[g];
      while rest != {}
        invariant rest <= groups[g]
        invariant forall k <- groups[g] - rest :: !Open(t, View(), k)
        decreases rest
      {
        LeastKeyExists(rest);
        var k :| k in rest && forall j <- rest :: KeyAtMost(k, j);
        PublishedIsNewest(t, View(), g, k);
        CountDecidesBare(t, residents.Keys, subtree, k.node);
        if Count(subtree, k.node) == (if k.node in residents then 1 else 0) {
          return Some(k);
        }
        rest := rest - {k};
      }
      return None;
    }

    /** One worker's share of the selected groups: every `workers`-th of them. */
    method Search(t: Tree, selected: seq<nat>, worker: nat, workers: nat) returns (best: Option<Key>)
      requires Indexes(t, View()) && worker < workers && forall g <- selected :: g < |groups|
      ensures LeastOpen(t, View(), Share(selected, worker, workers, |selected|), best)
    {
      best := None;
      var i := worker;
      ShareStart(selected, worker, workers);
      while i < |selected|
        invariant i % workers == worker
        invariant LeastOpen(t, View(), Share(selected, worker, workers, i), best)
      {
        assert selected[i] in selected;
        var found := SearchGroup(t, selected[i]);
        LeastOfUnion(t, View(), Share(selected, worker, workers, i), {selected[i]}, best, found);
        ShareStep(selected, worker, workers, i);
        best := Lesser(best, found);
        i := i + workers;
      }
      assert Share(selected, worker, workers, i) == Share(selected, worker, workers, |selected|);
    }

    /** Every worker searches its share; the least of their answers is the answer for all selected groups. */
    method SearchGroups(t: Tree, selected: seq<nat>, workers: nat) returns (best: Option<Key>)
      requires Indexes(t, View()) && workers > 0 && forall g <- selected :: g < |groups|
      ensures LeastOpen(t, View(), (set g | g in selected), best)
    {
      best := None;
      ghost var covered: set<nat> := {};
      for worker := 0 to workers
        invariant covered <= set g | g in selected
        invariant LeastOpen(t, View(), covered, best)
        invariant forall j | 0 <= j < |selected| && j % workers < worker :: selected[j] in covered
      {
        var part := Search(t, selected, worker, workers);
        LeastOfUnion(t, View(), covered, Share(selected, worker, workers, |selected|), best, part);
        covered := covered + Share(selected, worker, workers, |selected|);
        best := Lesser(best, part);
      }
      forall g | g in selected ensures g in covered {
        var j :| 0 <= j < |selected| && selected[j] == g;
        assert j % workers < workers;
      }
      assert covered == set g | g in selected;
    }

    /** Searches all groups, or a window of `sampled` groups from `start` on and then, if it holds no victim,
        the others. */
    method SelectVictim(t: Tree, sampled: nat, start: nat, workers: nat) returns (victim: Id)
      requires Indexes(t, View()) && workers > 0 && sampled <= |groups| && start < |groups| && residents != map[]
      ensures victim in t.parent && Bare(t, residents.Keys, victim)
      ensures exists r :: r in residents && r in t.parent && Leaf(t, r) == victim
      ensures sampled == 0 ==> LruVictim(t, Recencies(View()), victim)
    {
      var n := |groups|;
      var count := if sampled == 0 then n else sampled;
      var selected := Window(start, 0, count, n);
      var best := SearchGroups(t, selected, workers);
      ghost var seen := set g | g in selected;
      if best.None? && count < n {
        selected := Window(start, count, n, n);
        var other := SearchGroups(t, selected, workers);
        LeastOfUnion(t, View(), seen, (set g | g in selected), best, other);
        best := Lesser(best, other);
        seen := seen + set g | g in selected;
      }
      if best.None? || sampled == 0 {
        forall g: nat | g < n ensures g in seen { WindowsCover(start, count, n, g); }
        LeastIsVictim(t, View(), seen, best);
      }
      ghost var g :| g in seen && best.value in groups[g];
      PublishedIsNewest(t, View(), g, best.value);
      return best.value.node;
    }
  }
}
