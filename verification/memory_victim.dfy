/** What a DRAM policy should evict, stated on the tree and the recencies alone. */
module MemoryVictim {
  import opened Prelude
  import opened Forest
  import opened MemoryIndex
  import opened MemoryEdits
  import opened SubtreeCounts

  /** `m` is the newest recency among the residents of the segment that ends at `e`. */
  ghost predicate NewestOf(t: Tree, rec: map<Id, nat>, e: Id, m: nat)
    requires Grown(t)
  {
    && (exists r :: r in rec && r in t.parent && Leaf(t, r) == e && rec[r] == m)
    && (forall r :: r in rec && r in t.parent && Leaf(t, r) == e ==> rec[r] <= m)
  }

  /** `e` ends a segment with a resident, and no resident lies strictly below it. */
  ghost predicate Candidate(t: Tree, rec: map<Id, nat>, e: Id, m: nat)
    requires Grown(t)
  {
    NewestOf(t, rec, e, m) && Bare(t, rec.Keys, e)
  }

  /** The least recently used segment without resident descendants. */
  ghost predicate LruVictim(t: Tree, rec: map<Id, nat>, e: Id)
    requires Grown(t)
  {
    exists m :: Candidate(t, rec, e, m) && forall f, l :: Candidate(t, rec, f, l) ==> m <= l
  }

  ghost predicate DistinctRecencies(rec: map<Id, nat>) {
    forall a, b :: a in rec && b in rec && rec[a] == rec[b] ==> a == b
  }

  lemma VictimUnique(t: Tree, rec: map<Id, nat>, e: Id, f: Id)
    requires Grown(t) && DistinctRecencies(rec) && LruVictim(t, rec, e) && LruVictim(t, rec, f)
    ensures e == f
  {}

  lemma {:induction false} HighestLeaf(t: Tree, residents: set<Id>) returns (d: Id)
    requires Grown(t) && residents != {} && residents <= t.parent.Keys
    ensures d in residents && forall r <- residents :: Rank(t, Leaf(t, r)) <= Rank(t, Leaf(t, d))
  {
    d :| d in residents;
    if residents != {d} {
      var f := HighestLeaf(t, residents - {d});
      assert forall r <- residents :: r == d || r in residents - {d};
      if Rank(t, Leaf(t, d)) < Rank(t, Leaf(t, f)) { d := f; }
    }
  }

  /** Whenever some node is resident, a segment without resident descendants exists. */
  lemma CandidateExists(t: Tree, residents: set<Id>) returns (d: Id)
    requires Grown(t) && residents != {} && residents <= t.parent.Keys
    ensures d in residents && Bare(t, residents, Leaf(t, d))
  {
    d := HighestLeaf(t, residents);
    var e := Leaf(t, d);
    forall r | r in Below(t, residents, e) ensures r == e {
      PathRank(t, e, r);
      LeafBelow(t, r);
      PathRank(t, r, Leaf(t, r));
    }
  }

  lemma {:induction false} NewestExists(t: Tree, rec: map<Id, nat>, e: Id, nodes: set<Id>) returns (m: nat)
    requires Grown(t) && nodes <= rec.Keys && nodes <= t.parent.Keys
    requires exists r :: r in nodes && Leaf(t, r) == e
    ensures exists r :: r in nodes && Leaf(t, r) == e && rec[r] == m
    ensures forall r <- nodes :: Leaf(t, r) == e ==> rec[r] <= m
    decreases nodes
  {
    var r :| r in nodes && Leaf(t, r) == e;
    m := rec[r];
    if exists s :: s in nodes - {r} && Leaf(t, s) == e {
      var l := NewestExists(t, rec, e, nodes - {r});
      assert forall s <- nodes :: s == r || s in nodes - {r};
      if m < l { m := l; }
    }
  }

  // ---- Published keys are the segments' newest recencies ----

  lemma PublishedIsNewest(t: Tree, x: Index, g: nat, k: Key)
    requires Indexes(t, x) && g < |x.groups| && k in x.groups[g]
    ensures k.node in t.parent && NewestOf(t, Recencies(x), k.node, k.recency)
  {
    assert PublishedOk(x, {}, g, k);
    var h := x.endpoints[k.node];
    var e := x.segments[h];
    var top := Newest(e.members);
    assert FileOk(x, h, top) && PlaceOk(t, x, top.node) && EndpointOk(x, k.node);
    forall r | r in x.residents && r in t.parent && Leaf(t, r) == k.node ensures x.residents[r].recency <= k.recency {
      assert PlaceOk(t, x, r) && HandleOk(x, x.residents[r].segment);
      ResidentFiled(x, r);
    }
    assert Recencies(x)[top.node] == k.recency;
  }

  lemma NewestIsPublished(t: Tree, x: Index, e: Id, m: nat) returns (g: nat)
    requires Indexes(t, x) && NewestOf(t, Recencies(x), e, m)
    ensures g < |x.groups| && Key(m, e) in x.groups[g]
  {
    var r :| r in x.residents && r in t.parent && Leaf(t, r) == e && x.residents[r].recency == m;
    assert PlaceOk(t, x, r);
    ResidentFiled(x, r);
    var h := x.residents[r].segment;
    assert HandleOk(x, h);
    g := x.segments[h].group;
    var top := Newest(x.segments[h].members);
    assert FileOk(x, h, top) && PlaceOk(t, x, top.node);
    assert Recencies(x)[top.node] == top.recency;
    assert PublishedOk(x, {}, g, Key(m, e));
  }

  lemma DistinctInIndex(t: Tree, x: Index)
    requires Indexes(t, x)
    ensures DistinctRecencies(Recencies(x))
  {
    forall a, b | a in x.residents && b in x.residents && x.residents[a].recency == x.residents[b].recency ensures a == b {
      assert RecencyOk(x, a);
    }
  }

  // ---- Combining searches of groups ----

  /** A published key whose segment has no resident below it. */
  ghost predicate Open(t: Tree, x: Index, k: Key)
    requires Grown(t)
  {
    Bare(t, x.residents.Keys, k.node)
  }

  /** `best` is the least open key published in the groups `gs`. */
  ghost predicate LeastOpen(t: Tree, x: Index, gs: set<nat>, best: Option<Key>)
    requires Grown(t) && forall g <- gs :: g < |x.groups|
  {
    && (best.Some? ==> Open(t, x, best.value) && exists g :: g in gs && best.value in x.groups[g])
    && (forall g, k :: g in gs && k in x.groups[g] && Open(t, x, k) ==> best.Some? && KeyAtMost(best.value, k))
  }

  function Lesser(a: Option<Key>, b: Option<Key>): Option<Key> {
    if b.Some? && (a.None? || (b.value != a.value && KeyAtMost(b.value, a.value))) then b else a
  }

  lemma LeastOfUnion(t: Tree, x: Index, gs: set<nat>, hs: set<nat>, a: Option<Key>, b: Option<Key>)
    requires Grown(t) && (forall g <- gs :: g < |x.groups|) && (forall g <- hs :: g < |x.groups|)
    requires LeastOpen(t, x, gs, a) && LeastOpen(t, x, hs, b)
    ensures LeastOpen(t, x, gs + hs, Lesser(a, b))
  {
    forall g, k | g in gs + hs && k in x.groups[g] && Open(t, x, k)
      ensures Lesser(a, b).Some? && KeyAtMost(Lesser(a, b).value, k)
    {
      if g in gs { assert a.Some? && KeyAtMost(a.value, k); } else { assert b.Some? && KeyAtMost(b.value, k); }
    }
  }

  lemma LeastIsLru(t: Tree, x: Index, all: set<nat>, best: Key)
    requires Indexes(t, x) && (forall g <- all :: g < |x.groups|) && (forall g: nat :: g < |x.groups| ==> g in all)
    requires LeastOpen(t, x, all, Some(best))
    ensures LruVictim(t, Recencies(x), best.node)
  {
    assert Recencies(x).Keys == x.residents.Keys;
    var g :| g in all && best in x.groups[g];
    PublishedIsNewest(t, x, g, best);
    assert Candidate(t, Recencies(x), best.node, best.recency);
    forall f, l | Candidate(t, Recencies(x), f, l) ensures best.recency <= l {
      var h := NewestIsPublished(t, x, f, l);
      assert h in all && Open(t, x, Key(l, f));
    }
  }

  /** The least open key of all groups is the least recently used victim. */
  lemma LeastIsVictim(t: Tree, x: Index, all: set<nat>, best: Option<Key>)
    requires Indexes(t, x) && (forall g <- all :: g < |x.groups|) && (forall g: nat :: g < |x.groups| ==> g in all)
    requires LeastOpen(t, x, all, best)
    ensures best.Some? <==> x.residents != map[]
    ensures best.Some? ==> LruVictim(t, Recencies(x), best.value.node)
  {
    assert Recencies(x).Keys == x.residents.Keys;
    if best.Some? {
      LeastIsLru(t, x, all, best.value);
      var g :| g in all && best.value in x.groups[g];
      PublishedIsNewest(t, x, g, best.value);
      var r :| r in Recencies(x) && r in t.parent && Leaf(t, r) == best.value.node;
    }
    if x.residents != map[] {
      ResidentsInTree(t, x);
      assert x.residents.Keys != {};
      var d := CandidateExists(t, x.residents.Keys);
      var m := NewestExists(t, Recencies(x), Leaf(t, d), x.residents.Keys);
      assert NewestOf(t, Recencies(x), Leaf(t, d), m);
      var g := NewestIsPublished(t, x, Leaf(t, d), m);
      assert g in all && Open(t, x, Key(m, Leaf(t, d)));
    }
  }

  lemma {:induction false} LeastKeyExists(s: set<Key>)
    requires s != {}
    ensures exists k :: k in s && forall j <- s :: KeyAtMost(k, j)
  {
    var k :| k in s;
    assert forall j <- s :: j == k || j in s - {k};
    if s != {k} {
      LeastKeyExists(s - {k});
      var m :| m in s - {k} && forall j <- s - {k} :: KeyAtMost(m, j);
      var low := if KeyAtMost(k, m) then k else m;
      assert low in s && forall j <- s :: KeyAtMost(low, j);
    }
  }

  /** Of the first `n` selected groups, those that fall to one of `workers` workers. */
  function Share(selected: seq<nat>, worker: nat, workers: nat, n: nat): (share: set<nat>)
    requires workers > 0
    ensures forall g <- share :: g in selected
  {
    set j | 0 <= j < |selected| && j < n && j % workers == worker :: selected[j]
  }

  lemma MultipleFar(b: int, d: int)
    requires b > 0
    ensures d > 0 ==> b * d >= b
    ensures d < 0 ==> b * d <= -b
  {}

  lemma StrideSkips(i: nat, j: nat, workers: nat)
    requires workers > 0 && i < j < i + workers
    ensures j % workers != i % workers
  {
    var q := j / workers - i / workers;
    assert j - i == workers * q + (j % workers - i % workers);
    MultipleFar(workers, q);
  }

  lemma StrideStays(i: nat, workers: nat)
    requires workers > 0
    ensures (i + workers) % workers == i % workers
  {
    var q := i / workers;
    assert i + workers == workers * (q + 1) + i % workers;
    QuotientUnique(i + workers, workers, q + 1, i % workers);
  }

  lemma QuotientUnique(a: nat, b: nat, q: nat, r: nat)
    requires b > 0 && a == b * q + r && r < b
    ensures a % b == r
  {
    var d := q - a / b;
    assert b * d == a % b - r;
    MultipleFar(b, d);
  }

  lemma ShareStep(selected: seq<nat>, worker: nat, workers: nat, i: nat)
    requires workers > 0 && i < |selected| && i % workers == worker
    ensures Share(selected, worker, workers, i + workers) == Share(selected, worker, workers, i) + {selected[i]}
    ensures (i + workers) % workers == worker
  {
    StrideStays(i, workers);
    forall j | i < j < i + workers ensures j % workers != worker { StrideSkips(i, j, workers); }
  }

  lemma ShareStart(selected: seq<nat>, worker: nat, workers: nat)
    requires worker < workers
    ensures Share(selected, worker, workers, worker) == {} && worker % workers == worker
  {
    forall j | 0 <= j <= worker ensures j % workers == j { QuotientUnique(j, workers, 0, j); }
  }

  /** The groups `start + i` for `i` from `low` to `high`, wrapped around `n`. */
  function Window(start: nat, low: nat, high: nat, n: nat): (w: seq<nat>)
    requires low <= high && n > 0
    ensures forall g <- w :: g < n
  {
    seq(high - low, i requires 0 <= i => (start + low + i) % n)
  }

  /** A window and the one that starts where it ends cover every group. */
  lemma WindowsCover(start: nat, count: nat, n: nat, g: nat)
    requires start < n && count <= n && g < n
    ensures g in Window(start, 0, count, n) || g in Window(start, count, n, n)
  {
    var i := if start <= g then g - start else g + n - start;
    QuotientUnique(start + i, n, if start <= g then 0 else 1, g);
    if i < count {
      assert Window(start, 0, count, n)[i] == g;
    } else {
      assert Window(start, count, n, n)[i - count] == g;
    }
  }
}
