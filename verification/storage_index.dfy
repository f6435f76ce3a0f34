/**
 The segment index of the round-robin storage policy: for every segment with stored blocks, how many blocks it
 has per tier and when they were last used, ordered per tier by that time.
 */
module StorageIndex {
  import opened Prelude
  import opened Forest
  import opened Tiers

  /** The stored copy of a node: its tier and when it was last dumped or hit. */
  datatype Copy = Copy(tier: Tier, last: nat)
  datatype Time = Time(last: nat, endpoint: Id)
  datatype Summary = Summary(blocks: Pair<nat>, last: Pair<nat>)
  datatype Index = Index(segments: map<Id, Summary>, candidates: Pair<set<Time>>)

  predicate Earlier(a: Time, b: Time) {
    a.last < b.last || (a.last == b.last && a.endpoint <= b.endpoint)
  }

  /** The stored blocks of one tier in the segment that ends at `e`. */
  function Stored(t: Tree, store: map<Id, Copy>, e: Id, tier: Tier): set<Id>
    requires Grown(t)
  {
    set n | n in store && n in t.parent && store[n].tier == tier && Leaf(t, n) == e
  }

  /** `last` is the latest use among `nodes`, and 0 without nodes. */
  ghost predicate Latest(store: map<Id, Copy>, nodes: set<Id>, last: nat)
    requires nodes <= store.Keys
  {
    (forall n <- nodes :: store[n].last <= last) && (if nodes == {} then last == 0 else exists n <- nodes :: store[n].last == last)
  }

  ghost predicate Summarizes(t: Tree, store: map<Id, Copy>, e: Id, s: Summary)
    requires Grown(t)
  {
    forall tier: Tier ::
      s.blocks.At(tier) == |Stored(t, store, e, tier)| && Latest(store, Stored(t, store, e, tier), s.last.At(tier))
  }

  /** The index is right about the endpoint `e`. */
  ghost predicate Right(t: Tree, store: map<Id, Copy>, x: Index, e: Id)
    requires Grown(t)
  {
    && (e in x.segments <==> Stored(t, store, e, Slc) + Stored(t, store, e, Tlc) != {})
    && (e in x.segments ==> Summarizes(t, store, e, x.segments[e]))
  }

  ghost predicate OrderedOk(x: Index, tier: Tier, k: Time) {
    k in x.candidates.At(tier)
    <==> (k.endpoint in x.segments && x.segments[k.endpoint].blocks.At(tier) > 0
          && k.last == x.segments[k.endpoint].last.At(tier))
  }

  /** Every summary is ordered in the tiers where it has blocks, under its latest use. */
  ghost predicate Ordered(x: Index) { forall tier, k :: OrderedOk(x, tier, k) }

  ghost predicate Indexes(t: Tree, store: map<Id, Copy>, x: Index) {
    && Grown(t)
    && store.Keys <= t.parent.Keys
    && Ordered(x)
    && forall e :: Right(t, store, x, e)
  }

  function Erase(x: Index, e: Id): Index {
    if e !in x.segments then x
    else
      var s := x.segments[e];
      Index(x.segments - {e},
            Pair(if s.blocks.slc > 0 then x.candidates.slc - {Time(s.last.slc, e)} else x.candidates.slc,
                 if s.blocks.tlc > 0 then x.candidates.tlc - {Time(s.last.tlc, e)} else x.candidates.tlc))
  }

  function Enter(x: Index, e: Id, s: Summary): Index {
    Index(x.segments[e := s],
          Pair(if s.blocks.slc > 0 then x.candidates.slc + {Time(s.last.slc, e)} else x.candidates.slc,
               if s.blocks.tlc > 0 then x.candidates.tlc + {Time(s.last.tlc, e)} else x.candidates.tlc))
  }

  /** The two indexes record the same about `e`. */
  ghost predicate AgreeAt(x: Index, y: Index, e: Id) {
    (e in x.segments <==> e in y.segments) && (e in x.segments ==> x.segments[e] == y.segments[e])
  }

  ghost predicate AgreeBut(x: Index, y: Index, changed: set<Id>) {
    forall e :: e !in changed ==> AgreeAt(x, y, e)
  }

  lemma AgreeThrough(x: Index, y: Index, z: Index, a: set<Id>, b: set<Id>)
    requires AgreeBut(x, y, a) && AgreeBut(y, z, b)
    ensures AgreeBut(x, z, a + b)
  {
    forall e: Id | e !in a + b ensures AgreeAt(x, z, e) { assert AgreeAt(x, y, e) && AgreeAt(y, z, e); }
  }

  lemma EraseOrdered(x: Index, e: Id)
    requires Ordered(x)
    ensures Ordered(Erase(x, e)) && e !in Erase(x, e).segments
    ensures AgreeBut(x, Erase(x, e), {e})
  {
    var y := Erase(x, e);
    forall tier: Tier, k ensures OrderedOk(y, tier, k) { assert OrderedOk(x, tier, k); }
  }

  lemma EnterOrdered(x: Index, e: Id, s: Summary)
    requires Ordered(x) && e !in x.segments
    ensures Ordered(Enter(x, e, s)) && AgreeBut(x, Enter(x, e, s), {e})
  {
    var y := Enter(x, e, s);
    forall tier: Tier, k ensures OrderedOk(y, tier, k) { assert OrderedOk(x, tier, k); }
  }

  // ---- Scanning the nodes of a segment ----

  function StoredAmong(store: map<Id, Copy>, nodes: seq<Id>, tier: Tier): set<Id> {
    set n | n in nodes && n in store && store[n].tier == tier
  }

  lemma OneMoreStored(store: map<Id, Copy>, nodes: seq<Id>, i: nat, tier: Tier, last: nat)
    requires i < |nodes| && forall a, b | 0 <= a < b < |nodes| :: nodes[a] != nodes[b]
    requires Latest(store, StoredAmong(store, nodes[..i], tier), last)
    ensures var more := nodes[i] in store && store[nodes[i]].tier == tier;
      && |StoredAmong(store, nodes[..i + 1], tier)| == |StoredAmong(store, nodes[..i], tier)| + (if more then 1 else 0)
      && Latest(store, StoredAmong(store, nodes[..i + 1], tier),
                if more && store[nodes[i]].last > last then store[nodes[i]].last else last)
  {
    var before, after := StoredAmong(store, nodes[..i], tier), StoredAmong(store, nodes[..i + 1], tier);
    assert nodes[..i + 1] == nodes[..i] + [nodes[i]];
    if nodes[i] in store && store[nodes[i]].tier == tier {
      assert after == before + {nodes[i]};
      assert nodes[i] !in before;
    } else {
      assert after == before;
    }
  }

  lemma StoredInSegment(t: Tree, store: map<Id, Copy>, e: Id, tier: Tier)
    requires Grown(t) && e in t.parent && ChildCount(t, e) != 1
    ensures StoredAmong(store, Segment(t, e), tier) == Stored(t, store, e, tier)
  {
    forall n: Id ensures n in Segment(t, e) <==> n in t.parent && Leaf(t, n) == e { SegmentsPartition(t, e, n); }
  }

  // ---- What tree changes do to the stored blocks of a segment ----

  lemma StoredGrows(t: Tree, u: Tree, n: Id, store: map<Id, Copy>, e: Id, tier: Tier)
    requires Grows(t, u, n) && n !in store && store.Keys <= t.parent.Keys
    ensures u.parent[n].None? ==> Stored(u, store, e, tier) == Stored(t, store, e, tier)
    ensures u.parent[n].Some? ==>
      var p := u.parent[n].value;
      && p in t.parent
      && (ChildCount(t, p) == 0 ==>
            Stored(u, store, e, tier) == if e == n then Stored(t, store, p, tier)
                                         else if e == p then {} else Stored(t, store, e, tier))
      && (ChildCount(t, p) == 1 ==>
            && Stored(u, store, p, tier) + Stored(u, store, Leaf(t, p), tier) == Stored(t, store, Leaf(t, p), tier)
            && Stored(t, store, p, tier) == {}
            && (e != p && e != Leaf(t, p) ==> Stored(u, store, e, tier) == Stored(t, store, e, tier)))
      && (ChildCount(t, p) >= 2 ==> Stored(u, store, e, tier) == Stored(t, store, e, tier))
  {
    ChildrenGrow(t, u, n, n);
    forall m | m in store
      ensures u.parent[n].None? ==> Leaf(u, m) == Leaf(t, m)
      ensures u.parent[n].Some? ==>
        var p := u.parent[n].value;
        && (ChildCount(t, p) == 0 ==> Leaf(u, m) == if Leaf(t, m) == p then n else Leaf(t, m))
        && (ChildCount(t, p) == 1 ==>
              (Leaf(u, m) == p && Leaf(t, m) == Leaf(t, p)) || (Leaf(u, m) == Leaf(t, m) && Leaf(u, m) != p))
        && (ChildCount(t, p) >= 2 ==> Leaf(u, m) == Leaf(t, m))
    {
      LeafGrows(t, u, n, m);
    }
  }

  /** Where nothing stored changed, the index stays right. */
  lemma RightFrame(t: Tree, store: map<Id, Copy>, x: Index, u: Tree, after: map<Id, Copy>, y: Index, e: Id)
    requires Grown(t) && Grown(u) && Right(t, store, x, e)
    requires forall tier: Tier :: Stored(u, after, e, tier) == Stored(t, store, e, tier)
    requires forall tier: Tier, n :: n in Stored(t, store, e, tier) ==> n in after && after[n] == store[n]
    requires AgreeAt(x, y, e)
    ensures Right(u, after, y, e)
  {
    if e in x.segments {
      forall tier: Tier
        ensures y.segments[e].blocks.At(tier) == |Stored(u, after, e, tier)|
        ensures Latest(after, Stored(u, after, e, tier), y.segments[e].last.At(tier))
      {
        assert Latest(store, Stored(t, store, e, tier), x.segments[e].last.At(tier));
        assert forall n <- Stored(t, store, e, tier) :: after[n] == store[n];
      }
    }
  }
}
