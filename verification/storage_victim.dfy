/** Which segment a storage policy should trim, stated on the tree and the stored copies alone. */
module StorageVictim {
  import opened Prelude
  import opened Forest
  import opened Tiers
  import opened SubtreeCounts
  import opened StorageIndex

  predicate Intersects(t: Tree, e: Id, shielded: set<Id>)
    requires Grown(t) && e in t.parent
  {
    exists n :: n in Segment(t, e) && n in shielded
  }

  /** `e` ends an unprotected segment with blocks in `tier` and nothing stored below it; `last` is its latest use. */
  ghost predicate Trimmable(t: Tree, store: map<Id, Copy>, shielded: set<Id>, tier: Tier, e: Id, last: nat)
    requires Grown(t)
  {
    && e in t.parent
    && Stored(t, store, e, tier) != {}
    && Latest(store, Stored(t, store, e, tier), last)
    && Bare(t, store.Keys, e)
    && !Intersects(t, e, shielded)
  }

  /** `v` is the least recently used trimmable segment among the endpoints in `among`. */
  ghost predicate BestAmong(t: Tree, store: map<Id, Copy>, shielded: set<Id>, tier: Tier, among: iset<Id>, v: Option<Time>)
    requires Grown(t)
  {
    && (v.Some? ==> v.value.endpoint in among && Trimmable(t, store, shielded, tier, v.value.endpoint, v.value.last))
    && (forall e, last :: e in among && Trimmable(t, store, shielded, tier, e, last) ==>
          v.Some? && Earlier(v.value, Time(last, e)))
  }

  ghost predicate LruLeaf(t: Tree, store: map<Id, Copy>, shielded: set<Id>, tier: Tier, v: Option<Time>)
    requires Grown(t)
  {
    BestAmong(t, store, shielded, tier, (iset e | e in t.parent), v)
  }

  lemma LruLeafUnique(t: Tree, store: map<Id, Copy>, shielded: set<Id>, tier: Tier, v: Option<Time>, w: Option<Time>)
    requires Grown(t) && LruLeaf(t, store, shielded, tier, v) && LruLeaf(t, store, shielded, tier, w)
    ensures v == w
  {
    if v.Some? { assert Trimmable(t, store, shielded, tier, v.value.endpoint, v.value.last); }
    if w.Some? { assert Trimmable(t, store, shielded, tier, w.value.endpoint, w.value.last); }
  }

  /** One more endpoint, with a blocked or a trimmable segment. */
  lemma BestStep(t: Tree, store: map<Id, Copy>, shielded: set<Id>, tier: Tier, among: iset<Id>, v: Option<Time>, c: Time, trimmable: bool)
    requires Grown(t) && BestAmong(t, store, shielded, tier, among, v)
    requires trimmable ==> Trimmable(t, store, shielded, tier, c.endpoint, c.last)
    requires !trimmable ==> forall last :: !Trimmable(t, store, shielded, tier, c.endpoint, last)
    ensures BestAmong(t, store, shielded, tier, among + iset{c.endpoint},
                      if trimmable && (v.None? || (Earlier(c, v.value) && c != v.value)) then Some(c) else v)
  {}

  lemma {:induction false} EarliestExists(s: set<Time>)
    requires s != {}
    ensures exists k :: k in s && forall j <- s :: Earlier(k, j)
  {
    var k :| k in s;
    assert forall j <- s :: j == k || j in s - {k};
    if s != {k} {
      EarliestExists(s - {k});
      var m :| m in s - {k} && forall j <- s - {k} :: Earlier(m, j);
      var low := if Earlier(k, m) then k else m;
      assert low in s && forall j <- s :: Earlier(low, j);
    }
  }

  /** The ordered keys of a tier are exactly the segments with blocks there, under their latest use. */
  lemma OrderedMeaning(t: Tree, store: map<Id, Copy>, x: Index, tier: Tier, k: Time)
    requires Indexes(t, store, x)
    ensures k in x.candidates.At(tier) <==>
      Stored(t, store, k.endpoint, tier) != {} && Latest(store, Stored(t, store, k.endpoint, tier), k.last)
    ensures k in x.candidates.At(tier) ==> k.endpoint in t.parent && ChildCount(t, k.endpoint) != 1
  {
    assert OrderedOk(x, tier, k) && Right(t, store, x, k.endpoint);
    if Stored(t, store, k.endpoint, tier) != {} {
      var n :| n in Stored(t, store, k.endpoint, tier);
      assert n in Stored(t, store, k.endpoint, Slc) + Stored(t, store, k.endpoint, Tlc);
      assert |Stored(t, store, k.endpoint, tier)| > 0;
    }
  }
}
