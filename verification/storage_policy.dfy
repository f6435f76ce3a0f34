/** The round-robin storage policy's index, edited in place by tree and storage notifications. */
module StoragePolicy {
  import opened Prelude
  import opened Forest
  import opened Tiers
  import opened StorageIndex
  import opened StorageVictim
  import opened SubtreeCounts

  ghost predicate Tallies(store: map<Id, Copy>, nodes: seq<Id>, s: Summary, tier: Tier) {
    s.blocks.At(tier) == |StoredAmong(store, nodes, tier)| && Latest(store, StoredAmong(store, nodes, tier), s.last.At(tier))
  }

  /** One more node of a segment scan. */
  function Tally(store: map<Id, Copy>, s: Summary, n: Id): Summary {
    if n !in store then s
    else
      var tier, last := store[n].tier, store[n].last;
      Summary(s.blocks.With(tier, s.blocks.At(tier) + 1),
              s.last.With(tier, if last > s.last.At(tier) then last else s.last.At(tier)))
  }

  lemma TallyStep(store: map<Id, Copy>, nodes: seq<Id>, i: nat, s: Summary, tier: Tier)
    requires i < |nodes| && forall a, b | 0 <= a < b < |nodes| :: nodes[a] != nodes[b]
    requires Tallies(store, nodes[..i], s, tier)
    ensures Tallies(store, nodes[..i + 1], Tally(store, s, nodes[i]), tier)
  {
    OneMoreStored(store, nodes, i, tier, s.last.At(tier));
  }

  class RoundRobin {
    var segments: map<Id, Summary>
    var candidates: Pair<set<Time>>
    var subtree: map<Id, nat>

    ghost function View(): Index
      reads this
    {
      Index(segments, candidates)
    }

    constructor ()
      ensures Indexes(EMPTY, map[], View()) && subtree == map[]
    {
      segments, candidates, subtree := map[], Pair({}, {}), map[];
      new;
      forall e: Id ensures Right(EMPTY, map[], View(), e) {}
      forall tier: Tier, k ensures OrderedOk(View(), tier, k) {}
    }

    method EraseSegment(e: Id)
      modifies this`segments, this`candidates
      ensures View() == Erase(old(View()), e)
    {
      if e in segments {
        var s := segments[e];
        if s.blocks.slc > 0 { candidates := candidates.(slc := candidates.slc - {Time(s.last.slc, e)}); }
        if s.blocks.tlc > 0 { candidates := candidates.(tlc := candidates.tlc - {Time(s.last.tlc, e)}); }
        segments := segments - {e};
      }
    }

    /** Scans the segment that ends at `e` and records it anew. */
    method RefreshSegment(t: Tree, store: map<Id, Copy>, e: Id)
      requires Grown(t) && e in t.parent && ChildCount(t, e) != 1 && Ordered(View())
      modifies this`segments, this`candidates
      ensures Ordered(View()) && Right(t, store, View(), e)
      ensures AgreeBut(old(View()), View(), {e})
    {
      ghost var x0 := View();
      EraseOrdered(x0, e);
      EraseSegment(e);
      var s := Scan(t, store, e);
      if s.blocks.slc == 0 && s.blocks.tlc == 0 { return; }
      EnterSegment(e, s);
      AgreeThrough(x0, Erase(x0, e), View(), {e}, {e});
      assert {e} + {e} == {e};
    }

    method EnterSegment(e: Id, s: Summary)
      requires Ordered(View()) && e !in segments
      modifies this`segments, this`candidates
      ensures View() == Enter(old(View()), e, s) && Ordered(View()) && AgreeBut(old(View()), View(), {e})
    {
      EnterOrdered(View(), e, s);
      segments := segments[e := s];
      if s.blocks.slc > 0 { candidates := candidates.(slc := candidates.slc + {Time(s.last.slc, e)}); }
      if s.blocks.tlc > 0 { candidates := candidates.(tlc := candidates.tlc + {Time(s.last.tlc, e)}); }
    }

    /** Counts the stored blocks of a segment and finds their latest use, tier by tier. */
    method Scan(t: Tree, store: map<Id, Copy>, e: Id) returns (s: Summary)
      requires Grown(t) && e in t.parent && ChildCount(t, e) != 1
      ensures Summarizes(t, store, e, s)
    {
      var scratch := Segment(t, e);
      SegmentDistinct(t, e);
      s := Summary(Pair(0, 0), Pair(0, 0));
      for i := 0 to |scratch|
        invariant Tallies(store, scratch[..i], s, Slc) && Tallies(store, scratch[..i], s, Tlc)
      {
        TallyStep(store, scratch, i, s, Slc);
        TallyStep(store, scratch, i, s, Tlc);
        s := Tally(store, s, scratch[i]);
      }
      assert scratch[..|scratch|] == scratch;
      StoredInSegment(t, store, e, Slc);
      StoredInSegment(t, store, e, Tlc);
      forall tier: Tier ensures Tallies(store, scratch, s, tier) {}
    }

    /** A leaf `n` without copies was created. */
    method NodeCreated(ghost t: Tree, u: Tree, store: map<Id, Copy>, n: Id)
      requires Grows(t, u, n) && Indexes(t, store, View()) && n !in store
      modifies this`segments, this`candidates
      ensures Indexes(u, store, View())
    {
      ChildrenGrow(t, u, n, n);
      if u.parent[n].Some? {
        var p := u.parent[n].value;
        ChildrenGrow(t, u, n, p);
        if ChildCount(u, p) == 1 {
          Extend(t, u, store, n, p);
          return;
        } else if ChildCount(u, p) == 2 {
          Fork(t, u, store, n, p);
          return;
        }
      }
      ElsewhereRight(t, u, n, store, View());
    }

    /** The segment that ended at `p` now ends at its only child `n`. */
    method Extend(ghost t: Tree, u: Tree, store: map<Id, Copy>, n: Id, p: Id)
      requires Grows(t, u, n) && Indexes(t, store, View()) && n !in store
      requires u.parent[n] == Some(p) && p in t.parent && ChildCount(t, p) == 0 && ChildCount(u, n) == 0
      modifies this`segments, this`candidates
      ensures Indexes(u, store, View())
    {
      ghost var x := View();
      if p in segments {
        EraseOrdered(x, p);
        EraseSegment(p);
        ghost var y := View();
        RefreshSegment(u, store, n);
        AgreeThrough(x, y, View(), {p}, {n});
        assert {p} + {n} == {p, n} && AgreeAt(y, View(), p);
      }
      forall e: Id ensures Right(u, store, View(), e) { ExtendRight(t, u, n, p, store, x, View(), e); }
    }

    /** `p` has a second child: the old segment keeps its endpoint, and its upper part ends at `p`. */
    method Fork(ghost t: Tree, u: Tree, store: map<Id, Copy>, n: Id, p: Id)
      requires Grows(t, u, n) && Indexes(t, store, View()) && n !in store
      requires u.parent[n] == Some(p) && p in t.parent && ChildCount(t, p) == 1 && ChildCount(u, p) == 2
      modifies this`segments, this`candidates
      ensures Indexes(u, store, View())
    {
      ghost var x := View();
      assert Children(u, p) - {n} != {} by { assert |Children(u, p) - {n}| >= 1; }
      var sibling :| sibling in Children(u, p) - {n};
      SiblingLeaf(t, u, n, p, sibling);
      var suffix := Leaf(u, sibling);
      if suffix in segments {
        RefreshSegment(u, store, p);
        ghost var y := View();
        RefreshSegment(u, store, suffix);
        assert AgreeAt(y, View(), p);
        RightSame(u, store, y, View(), p);
        AgreeThrough(x, y, View(), {p}, {suffix});
        assert {p} + {suffix} == {p, suffix};
      }
      forall e: Id ensures Right(u, store, View(), e) { ForkRight(t, u, n, p, store, x, View(), e); }
    }

    /** A childless node `n` without copies was pruned. */
    method NodePruned(t: Tree, ghost u: Tree, store: map<Id, Copy>, n: Id, parent: Option<Id>)
      requires Grows(t, u, n) && Indexes(u, store, View()) && n !in store && parent == u.parent[n]
      modifies this`segments, this`candidates
      ensures Indexes(t, store, View())
    {
      ChildrenGrow(t, u, n, n);
      if parent.Some? {
        ChildrenGrow(t, u, n, parent.value);
        if ChildCount(t, parent.value) == 0 {
          Retract(t, u, store, n, parent.value);
          return;
        } else if ChildCount(t, parent.value) == 1 {
          Merge(t, u, store, n, parent.value);
          return;
        }
      }
      ghost var x := View();
      EraseOrdered(x, n);
      EraseSegment(n);
      NoStoredLeaf(t, u, n, store, x);
      ElsewherePruned(t, u, n, store, x);
    }

    /** The segment that ended at `n` now ends at `p`. */
    method Retract(t: Tree, ghost u: Tree, store: map<Id, Copy>, n: Id, p: Id)
      requires Grows(t, u, n) && Indexes(u, store, View()) && n !in store
      requires u.parent[n] == Some(p) && p in t.parent && ChildCount(t, p) == 0
      modifies this`segments, this`candidates
      ensures Indexes(t, store, View())
    {
      ghost var x := View();
      var had := n in segments;
      EraseOrdered(x, n);
      EraseSegment(n);
      ghost var y := View();
      if had {
        RefreshSegment(t, store, p);
        AgreeThrough(x, y, View(), {n}, {p});
        assert {n} + {p} == {p, n} && AgreeAt(y, View(), n);
      }
      StoredSurvive(t, u, n, store);
      forall e: Id ensures Right(t, store, View(), e) { RetractRight(t, u, n, p, store, x, View(), e); }
    }

    /** With `n` gone the segment that ended at `p` continues to where its last branch ends. */
    method Merge(t: Tree, ghost u: Tree, store: map<Id, Copy>, n: Id, p: Id)
      requires Grows(t, u, n) && Indexes(u, store, View()) && n !in store
      requires u.parent[n] == Some(p) && p in t.parent && ChildCount(t, p) == 1
      modifies this`segments, this`candidates
      ensures Indexes(t, store, View())
    {
      ghost var x := View();
      EraseOrdered(x, n);
      EraseSegment(n);
      NoStoredLeaf(t, u, n, store, x);
      var suffix := Leaf(t, p);
      if p in segments || suffix in segments {
        EraseOrdered(x, p);
        EraseSegment(p);
        ghost var y := View();
        RefreshSegment(t, store, suffix);
        AgreeThrough(x, y, View(), {p}, {suffix});
        assert {p} + {suffix} == {p, suffix} && AgreeAt(y, View(), p);
      }
      StoredSurvive(t, u, n, store);
      forall e: Id ensures Right(t, store, View(), e) { MergeRight(t, u, n, p, store, x, View(), e); }
    }

    /** Blocks of the segment that ends at `e` were written, trimmed or hit, and nothing else changed. */
    method Commit(t: Tree, ghost before: map<Id, Copy>, store: map<Id, Copy>, e: Id)
      requires Indexes(t, before, View()) && store.Keys <= t.parent.Keys
      requires e in t.parent && ChildCount(t, e) != 1 && Confined(t, before, store, e)
      modifies this`segments, this`candidates
      ensures Indexes(t, store, View())
    {
      ghost var x := View();
      RefreshSegment(t, store, e);
      forall f: Id ensures Right(t, store, View(), f) { ConfinedRight(t, before, store, e, x, View(), f); }
    }

    /** A dump was written: the segment is the one that holds the dumped endpoint now. */
    method Dumped(t: Tree, ghost before: map<Id, Copy>, store: map<Id, Copy>, endpoint: Id, nodes: seq<Id>)
      requires Indexes(t, before, View()) && Counted(t, before.Keys, subtree) && endpoint in t.parent
      requires store.Keys == before.Keys + Elems(nodes) && forall n <- nodes :: n in t.parent && n !in before
      requires Distinct(nodes)
      requires Confined(t, before, store, Leaf(t, endpoint))
      modifies this
      ensures Indexes(t, store, View()) && Counted(t, store.Keys, subtree)
    {
      assert before.Keys + Elems(nodes[..0]) == before.Keys;
      for i := 0 to |nodes|
        invariant Counted(t, before.Keys + Elems(nodes[..i]), subtree)
        invariant View() == old(View())
      {
        ghost var done, counted := before.Keys + Elems(nodes[..i]), subtree;
        CountsPositive(t, done, subtree);
        subtree := CountPath(t, nodes[i], true, subtree);
        InsertCounted(t, done, counted, subtree, nodes[i]);
        ElemsStep(nodes, i);
        assert before.Keys + Elems(nodes[..i + 1]) == done + {nodes[i]};
      }
      assert nodes[..|nodes|] == nodes;
      Commit(t, before, store, Leaf(t, endpoint));
    }

    /** A segment's blocks of one tier were trimmed. */
    method Trimmed(t: Tree, ghost before: map<Id, Copy>, store: map<Id, Copy>, endpoint: Id, nodes: seq<Id>)
      requires Indexes(t, before, View()) && Counted(t, before.Keys, subtree) && endpoint in t.parent
      requires store.Keys == before.Keys - Elems(nodes) && forall n <- nodes :: n in before
      requires Distinct(nodes)
      requires Confined(t, before, store, Leaf(t, endpoint))
      modifies this
      ensures Indexes(t, store, View()) && Counted(t, store.Keys, subtree)
    {
      assert before.Keys - Elems(nodes[..0]) == before.Keys;
      for i := 0 to |nodes|
        invariant Counted(t, before.Keys - Elems(nodes[..i]), subtree)
        invariant View() == old(View())
      {
        ghost var left, counted := before.Keys - Elems(nodes[..i]), subtree;
        assert nodes[i] in left;
        CountsPositive(t, left, subtree);
        CountsOnPath(t, left, subtree, nodes[i]);
        subtree := CountPath(t, nodes[i], false, subtree);
        RemoveCounted(t, left, counted, subtree, nodes[i]);
        ElemsStep(nodes, i);
        assert before.Keys - Elems(nodes[..i + 1]) == left - {nodes[i]};
      }
      assert nodes[..|nodes|] == nodes;
      Commit(t, before, store, Leaf(t, endpoint));
    }

    /** Takes the first ordered segment that has nothing stored below it and is not protected. The test for
        stored descendants is the subtree count or the walk of the subtree, as configured. */
    method Victim(t: Tree, store: map<Id, Copy>, shielded: set<Id>, tier: Tier, counts: bool) returns (v: Option<Time>)
      requires Indexes(t, store, View()) && Counted(t, store.Keys, subtree)
      ensures LruLeaf(t, store, shielded, tier, v)
    {
      var rest := candidates.At(tier);
      while rest != {}
        invariant rest <= candidates.At(tier)
        invariant forall k <- candidates.At(tier) - rest :: !Trimmable(t, store, shielded, tier, k.endpoint, k.last)
        decreases rest
      {
        EarliestExists(rest);
        var k :| k in rest && forall j <- rest :: Earlier(k, j);
        OrderedMeaning(t, store, View(), tier, k);
        CountDecidesBare(t, store.Keys, subtree, k.endpoint);
        var bare := if counts then Count(subtree, k.endpoint) == (if k.endpoint in store then 1 else 0)
                    else Bare(t, store.Keys, k.endpoint);
        if bare && !Intersects(t, k.endpoint, shielded) {
          FirstIsBest(t, store, View(), shielded, tier, rest, k);
          return Some(k);
        }
        rest := rest - {k};
      }
      forall e, last ensures !Trimmable(t, store, shielded, tier, e, last) {
        OrderedMeaning(t, store, View(), tier, Time(last, e));
        assert Time(last, e) in candidates.At(tier) ==> Time(last, e) in candidates.At(tier) - rest;
      }
      return None;
    }
  }

  lemma FirstIsBest(t: Tree, store: map<Id, Copy>, x: Index, shielded: set<Id>, tier: Tier, rest: set<Time>, k: Time)
    requires Indexes(t, store, x) && k in rest && rest <= x.candidates.At(tier) && forall j <- rest :: Earlier(k, j)
    requires Trimmable(t, store, shielded, tier, k.endpoint, k.last)
    requires forall j <- x.candidates.At(tier) - rest :: !Trimmable(t, store, shielded, tier, j.endpoint, j.last)
    ensures LruLeaf(t, store, shielded, tier, Some(k))
  {
    forall e, last | Trimmable(t, store, shielded, tier, e, last) ensures Earlier(k, Time(last, e)) {
      OrderedMeaning(t, store, x, tier, Time(last, e));
      assert Time(last, e) in rest || Time(last, e) in x.candidates.At(tier) - rest;
    }
  }

  /** Stored copies differ at most inside the segment that ends at `e`. */
  ghost predicate Confined(t: Tree, before: map<Id, Copy>, after: map<Id, Copy>, e: Id)
    requires Grown(t)
  {
    forall n :: n in t.parent && Leaf(t, n) != e ==>
      (n in before <==> n in after) && (n in before ==> before[n] == after[n])
  }

  lemma ConfinedRight(t: Tree, before: map<Id, Copy>, after: map<Id, Copy>, e: Id, x: Index, y: Index, f: Id)
    requires Indexes(t, before, x) && after.Keys <= t.parent.Keys && Confined(t, before, after, e)
    requires AgreeBut(x, y, {e}) && Right(t, after, y, e)
    ensures Right(t, after, y, f)
  {
    if f != e {
      assert Right(t, before, x, f) && AgreeAt(x, y, f);
      forall tier: Tier ensures Stored(t, after, f, tier) == Stored(t, before, f, tier) {}
      RightFrame(t, before, x, t, after, y, f);
    }
  }

  lemma RightSame(t: Tree, store: map<Id, Copy>, x: Index, y: Index, e: Id)
    requires Grown(t) && Right(t, store, x, e)
    requires AgreeAt(x, y, e)
    ensures Right(t, store, y, e)
  {
    RightFrame(t, store, x, t, store, y, e);
  }

  /** An endpoint whose stored blocks did not change stays right if its record did not change either. */
  lemma Elsewhere(t: Tree, u: Tree, store: map<Id, Copy>, x: Index, y: Index, changed: set<Id>, e: Id)
    requires Grown(t) && Grown(u) && Right(t, store, x, e) && AgreeBut(x, y, changed) && e !in changed
    requires Stored(u, store, e, Slc) == Stored(t, store, e, Slc) && Stored(u, store, e, Tlc) == Stored(t, store, e, Tlc)
    ensures Right(u, store, y, e)
  {
    assert AgreeAt(x, y, e);
    forall tier: Tier ensures Stored(u, store, e, tier) == Stored(t, store, e, tier) {}
    RightFrame(t, store, x, u, store, y, e);
  }

  /** An unrecorded endpoint is right if nothing is stored in its segment. */
  lemma Unrecorded(t: Tree, store: map<Id, Copy>, y: Index, e: Id)
    requires Grown(t) && e !in y.segments && Stored(t, store, e, Slc) == {} && Stored(t, store, e, Tlc) == {}
    ensures Right(t, store, y, e)
  {}

  lemma NothingStored(t: Tree, store: map<Id, Copy>, x: Index, e: Id)
    requires Grown(t) && Right(t, store, x, e) && e !in x.segments
    ensures Stored(t, store, e, Slc) == {} && Stored(t, store, e, Tlc) == {}
  {}

  lemma ExtendRight(t: Tree, u: Tree, n: Id, p: Id, store: map<Id, Copy>, x: Index, y: Index, e: Id)
    requires Grows(t, u, n) && Indexes(t, store, x) && n !in store
    requires u.parent[n] == Some(p) && p in t.parent && ChildCount(t, p) == 0
    requires AgreeBut(x, y, {p, n})
    requires if p in x.segments then Right(u, store, y, n) && p !in y.segments else y == x
    ensures Right(u, store, y, e)
  {
    StoredGrows(t, u, n, store, e, Slc);
    StoredGrows(t, u, n, store, e, Tlc);
    if e != p && e != n {
      assert Right(t, store, x, e);
      Elsewhere(t, u, store, x, y, {p, n}, e);
    } else if e == p {
      Unrecorded(u, store, y, p);
    } else if p !in x.segments {
      assert Right(t, store, x, p);
      NothingStored(t, store, x, p);
      NoNewLeaf(t, u, n, store, x);
      Unrecorded(u, store, y, n);
    }
  }

  lemma NoNewLeaf(t: Tree, u: Tree, n: Id, store: map<Id, Copy>, x: Index)
    requires Grows(t, u, n) && Indexes(t, store, x)
    ensures n !in x.segments
  {
    assert Right(t, store, x, n);
  }

  lemma ForkRight(t: Tree, u: Tree, n: Id, p: Id, store: map<Id, Copy>, x: Index, y: Index, e: Id)
    requires Grows(t, u, n) && Indexes(t, store, x) && n !in store
    requires u.parent[n] == Some(p) && p in t.parent && ChildCount(t, p) == 1
    requires AgreeBut(x, y, {p, Leaf(t, p)})
    requires if Leaf(t, p) in x.segments then Right(u, store, y, p) && Right(u, store, y, Leaf(t, p)) else y == x
    ensures Right(u, store, y, e)
  {
    var suffix := Leaf(t, p);
    StoredGrows(t, u, n, store, e, Slc);
    StoredGrows(t, u, n, store, e, Tlc);
    if e != p && e != suffix {
      assert Right(t, store, x, e);
      Elsewhere(t, u, store, x, y, {p, suffix}, e);
    } else if suffix !in x.segments {
      assert Right(t, store, x, suffix) && Right(t, store, x, p);
      NothingStored(t, store, x, suffix);
      Unrecorded(u, store, y, e);
    }
  }

  lemma RetractRight(t: Tree, u: Tree, n: Id, p: Id, store: map<Id, Copy>, x: Index, y: Index, e: Id)
    requires Grows(t, u, n) && Indexes(u, store, x) && n !in store && store.Keys <= t.parent.Keys
    requires u.parent[n] == Some(p) && p in t.parent && ChildCount(t, p) == 0
    requires AgreeBut(x, y, {p, n}) && n !in y.segments
    requires if n in x.segments then Right(t, store, y, p) else y == x
    ensures Right(t, store, y, e)
  {
    if e != p && e != n {
      StoredGrows(t, u, n, store, e, Slc);
      StoredGrows(t, u, n, store, e, Tlc);
      assert Right(u, store, x, e);
      Elsewhere(u, t, store, x, y, {p, n}, e);
    } else if e == n {
      assert Stored(t, store, n, Slc) == {} && Stored(t, store, n, Tlc) == {};
      Unrecorded(t, store, y, n);
    } else if n !in x.segments {
      RetractNothing(t, u, n, p, store, x);
    }
  }

  lemma RetractNothing(t: Tree, u: Tree, n: Id, p: Id, store: map<Id, Copy>, x: Index)
    requires Grows(t, u, n) && Indexes(u, store, x) && n !in store && store.Keys <= t.parent.Keys
    requires u.parent[n] == Some(p) && p in t.parent && ChildCount(t, p) == 0 && n !in x.segments
    ensures Right(t, store, x, p) && Right(t, store, x, n)
  {
    StoredGrows(t, u, n, store, p, Slc);
    StoredGrows(t, u, n, store, p, Tlc);
    StoredGrows(t, u, n, store, n, Slc);
    StoredGrows(t, u, n, store, n, Tlc);
    assert Right(u, store, x, p) && Right(u, store, x, n);
  }

  lemma MergeRight(t: Tree, u: Tree, n: Id, p: Id, store: map<Id, Copy>, x: Index, y: Index, e: Id)
    requires Grows(t, u, n) && Indexes(u, store, x) && n !in store && store.Keys <= t.parent.Keys
    requires u.parent[n] == Some(p) && p in t.parent && ChildCount(t, p) == 1
    requires AgreeBut(x, y, {p, Leaf(t, p)})
    requires if p in x.segments || Leaf(t, p) in x.segments then p !in y.segments && Right(t, store, y, Leaf(t, p)) else y == x
    ensures Right(t, store, y, e)
  {
    var suffix := Leaf(t, p);
    StoredGrows(t, u, n, store, e, Slc);
    StoredGrows(t, u, n, store, e, Tlc);
    if e != p && e != suffix {
      assert Right(u, store, x, e);
      Elsewhere(u, t, store, x, y, {p, suffix}, e);
    } else if e == p {
      Unrecorded(t, store, y, p);
    } else if p !in x.segments && suffix !in x.segments {
      assert Right(u, store, x, suffix) && Right(u, store, x, p);
      NothingStored(u, store, x, suffix);
      NothingStored(u, store, x, p);
      Unrecorded(t, store, y, suffix);
    }
  }

  /** A new root child or a third branch changes no segment. */
  lemma ElsewhereRight(t: Tree, u: Tree, n: Id, store: map<Id, Copy>, x: Index)
    requires Grows(t, u, n) && Indexes(t, store, x) && n !in store
    requires u.parent[n].Some? ==> u.parent[n].value in t.parent && ChildCount(t, u.parent[n].value) >= 2
    ensures Indexes(u, store, x)
  {
    forall e: Id ensures Right(u, store, x, e) {
      StoredGrows(t, u, n, store, e, Slc);
      StoredGrows(t, u, n, store, e, Tlc);
      RightFrame(t, store, x, u, store, x, e);
    }
  }

  lemma ElsewherePruned(t: Tree, u: Tree, n: Id, store: map<Id, Copy>, x: Index)
    requires Grows(t, u, n) && Indexes(u, store, x) && n !in store
    requires u.parent[n].Some? ==> u.parent[n].value in t.parent && ChildCount(t, u.parent[n].value) >= 2
    ensures Indexes(t, store, x)
  {
    StoredSurvive(t, u, n, store);
    forall e: Id ensures Right(t, store, x, e) {
      StoredGrows(t, u, n, store, e, Slc);
      StoredGrows(t, u, n, store, e, Tlc);
      RightFrame(u, store, x, t, store, x, e);
    }
  }

  lemma StoredSurvive(t: Tree, u: Tree, n: Id, store: map<Id, Copy>)
    requires Grows(t, u, n) && store.Keys <= u.parent.Keys && n !in store
    ensures store.Keys <= t.parent.Keys
  {}

  /** A fork's extra leaf without copies ends no recorded segment. */
  lemma NoStoredLeaf(t: Tree, u: Tree, n: Id, store: map<Id, Copy>, x: Index)
    requires Grows(t, u, n) && Indexes(u, store, x) && n !in store
    requires u.parent[n].Some? ==> u.parent[n].value in t.parent && ChildCount(t, u.parent[n].value) >= 1
    ensures n !in x.segments && Erase(x, n) == x
  {
    StoredSurvive(t, u, n, store);
    assert Right(u, store, x, n);
    forall m | m in store ensures Leaf(u, m) != n {
      LeafGrows(t, u, n, m);
      ChildrenGrow(t, u, n, n);
    }
  }

  /** The other branch below a new fork still ends where the whole chain ended. */
  lemma SiblingLeaf(t: Tree, u: Tree, n: Id, p: Id, sibling: Id)
    requires Grows(t, u, n) && u.parent[n] == Some(p) && p in t.parent && ChildCount(t, p) == 1
    requires sibling in Children(u, p) && sibling != n
    ensures sibling in t.parent && Leaf(u, sibling) == Leaf(t, p) && Leaf(t, p) != p
  {
    ChildrenGrow(t, u, n, p);
    assert sibling in Children(t, p) && OnlyChild(t, p) == sibling;
    LeafGrows(t, u, n, sibling);
    if sibling in Segment(u, p) {
      SegmentShares(u, p, sibling);
      assert NodeOk(u, sibling);
      PathRank(u, sibling, p);
    }
  }
}
