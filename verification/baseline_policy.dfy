/** The baseline DRAM policy: a doubly linked recency list, and a scan of it from newest to oldest. */
module BaselinePolicy {
  import opened Prelude
  import opened Forest
  import opened MemoryIndex
  import opened SubtreeCounts
  import opened MemoryVictim

  datatype Link = Link(previous: Option<Id>, next: Option<Id>)

  function At(order: seq<Id>, i: int): Option<Id> { if 0 <= i < |order| then Some(order[i]) else None }

  /** `order` lists the residents from newest to oldest. */
  ghost predicate Orders(order: seq<Id>, rec: map<Id, nat>) {
    && (forall i | 0 <= i < |order| :: order[i] in rec)
    && (forall r <- rec :: r in order)
    && (forall i, j | 0 <= i < j < |order| :: rec[order[i]] > rec[order[j]])
  }

  function Without(order: seq<Id>, k: nat): seq<Id>
    requires k < |order|
  {
    order[..k] + order[k + 1..]
  }

  lemma OrdersInsert(order: seq<Id>, rec: map<Id, nat>, id: Id, m: nat)
    requires Orders(order, rec) && id !in rec && forall r <- rec :: rec[r] < m
    ensures Orders([id] + order, rec[id := m])
  {
    var s, after := [id] + order, rec[id := m];
    forall r | r in after ensures r in s { if r != id { assert r in order; } }
    forall i, j | 0 <= i < j < |s| ensures after[s[i]] > after[s[j]] {
      assert s[j] == order[j - 1] && order[j - 1] in rec;
      if i > 0 { assert s[i] == order[i - 1] && order[i - 1] in rec; }
    }
  }

  lemma OrdersRemove(order: seq<Id>, rec: map<Id, nat>, k: nat)
    requires Orders(order, rec) && k < |order|
    ensures Orders(Without(order, k), rec - {order[k]})
  {
    var s, after := Without(order, k), rec - {order[k]};
    forall i | 0 <= i < |s| ensures s[i] in after && s[i] == order[if i < k then i else i + 1] {
      var j := if i < k then i else i + 1;
      assert s[i] == order[j] && rec[order[j]] != rec[order[k]];
    }
    forall r | r in after ensures r in s {
      var j :| 0 <= j < |order| && order[j] == r;
      assert s[if j < k then j else j - 1] == r;
    }
  }

  ghost predicate LinkOk(links: map<Id, Link>, order: seq<Id>, i: nat) {
    i < |order| ==> order[i] in links && links[order[i]] == Link(At(order, i - 1), At(order, i + 1))
  }

  /** The links spell out `order`, which names every linked node once. */
  ghost predicate Spells(links: map<Id, Link>, order: seq<Id>) {
    && (forall i, j | 0 <= i < j < |order| :: order[i] != order[j])
    && (forall i :: LinkOk(links, order, i))
    && (forall id <- links :: id in order)
  }

  function Pushed(links: map<Id, Link>, head: Option<Id>, id: Id): map<Id, Link>
    requires head.Some? ==> head.value in links
  {
    var added := links[id := Link(None, head)];
    if head.Some? then added[head.value := added[head.value].(previous := Some(id))] else added
  }

  function Unlinked(links: map<Id, Link>, id: Id): map<Id, Link>
    requires id in links
    requires links[id].previous.Some? ==> links[id].previous.value in links
    requires links[id].next.Some? ==> links[id].next.value in links
  {
    var link := links[id];
    var a := if link.previous.Some? then links[link.previous.value := links[link.previous.value].(next := link.next)] else links;
    var b := if link.next.Some? then a[link.next.value := a[link.next.value].(previous := link.previous)] else a;
    b - {id}
  }

  lemma PushSpells(links: map<Id, Link>, order: seq<Id>, id: Id)
    requires Spells(links, order) && id !in order
    ensures At(order, 0).Some? ==> At(order, 0).value in links
    ensures Spells(Pushed(links, At(order, 0), id), [id] + order)
  {
    assert LinkOk(links, order, 0);
    var s, after := [id] + order, Pushed(links, At(order, 0), id);
    forall i: nat ensures LinkOk(after, s, i) {
      if 0 < i < |s| {
        assert LinkOk(links, order, i - 1) && s[i] == order[i - 1];
        if i > 1 { assert s[i] != order[0]; }
      }
    }
  }

  lemma UnlinkBounds(links: map<Id, Link>, order: seq<Id>, k: nat)
    requires Spells(links, order) && k < |order|
    ensures order[k] in links && links[order[k]] == Link(At(order, k - 1), At(order, k + 1))
    ensures k > 0 ==> order[k - 1] in links
    ensures k + 1 < |order| ==> order[k + 1] in links
  {
    assert LinkOk(links, order, k) && LinkOk(links, order, k + 1);
    if k > 0 { assert LinkOk(links, order, k - 1); }
  }

  lemma UnlinkLink(links: map<Id, Link>, order: seq<Id>, k: nat, i: nat)
    requires Spells(links, order) && k < |order|
    requires order[k] in links && links[order[k]] == Link(At(order, k - 1), At(order, k + 1))
    requires (k > 0 ==> order[k - 1] in links) && (k + 1 < |order| ==> order[k + 1] in links)
    ensures LinkOk(Unlinked(links, order[k]), Without(order, k), i)
  {
    if i < |order| - 1 {
      var j := if i < k then i else i + 1;
      assert LinkOk(links, order, j) && Without(order, k)[i] == order[j];
    }
  }

  lemma UnlinkSpells(links: map<Id, Link>, order: seq<Id>, k: nat)
    requires Spells(links, order) && k < |order|
    ensures order[k] in links && links[order[k]] == Link(At(order, k - 1), At(order, k + 1))
    ensures k > 0 ==> order[k - 1] in links
    ensures k + 1 < |order| ==> order[k + 1] in links
    ensures Spells(Unlinked(links, order[k]), Without(order, k))
  {
    UnlinkBounds(links, order, k);
    var s, after := Without(order, k), Unlinked(links, order[k]);
    forall i: nat ensures LinkOk(after, s, i) { UnlinkLink(links, order, k, i); }
    forall id | id in after ensures id in s {
      var j :| 0 <= j < |order| && order[j] == id;
      assert s[if j < k then j else j - 1] == id;
    }
  }

  lemma UniqueGone(order: seq<Id>, k: nat)
    requires k < |order| && forall i, j | 0 <= i < j < |order| :: order[i] != order[j]
    ensures order[k] !in Without(order, k)
  {}

  lemma OrdersTouch(order: seq<Id>, rec: map<Id, nat>, k: nat, m: nat)
    requires Orders(order, rec) && k < |order| && forall r <- rec :: rec[r] < m
    ensures Orders([order[k]] + Without(order, k), rec[order[k] := m])
  {
    OrdersRemove(order, rec, k);
    OrdersInsert(Without(order, k), rec - {order[k]}, order[k], m);
    assert (rec - {order[k]})[order[k] := m] == rec[order[k] := m];
  }

  class Baseline {
    var links: map<Id, Link>
    var head: Option<Id>
    var tail: Option<Id>
    ghost var order: seq<Id>

    ghost predicate Valid()
      reads this
    {
      Spells(links, order) && head == At(order, 0) && tail == At(order, |order| - 1)
    }

    constructor ()
      ensures Valid() && order == []
    {
      links, head, tail, order := map[], None, None, [];
    }

    method AttachFront(id: Id)
      requires Valid() && id !in order
      modifies this
      ensures Valid() && order == [id] + old(order)
    {
      PushSpells(links, order, id);
      links := links[id := Link(None, head)];
      if head.Some? {
        links := links[head.value := links[head.value].(previous := Some(id))];
      } else {
        tail := Some(id);
      }
      head := Some(id);
      order := [id] + order;
    }

    method Detach(id: Id, ghost k: nat)
      requires Valid() && k < |order| && order[k] == id
      modifies this
      ensures Valid() && order == Without(old(order), k)
    {
      UnlinkSpells(links, order, k);
      var link := links[id];
      if link.previous.Some? {
        links := links[link.previous.value := links[link.previous.value].(next := link.next)];
      } else {
        head := link.next;
      }
      if link.next.Some? {
        links := links[link.next.value := links[link.next.value].(previous := link.previous)];
      } else {
        tail := link.previous;
      }
      links := links - {id};
      order := Without(order, k);
    }

    /** An access moves a node to the front. */
    method Touch(id: Id, ghost k: nat)
      requires Valid() && k < |order| && order[k] == id
      modifies this
      ensures Valid() && order == [id] + Without(old(order), k)
    {
      Detach(id, k);
      UniqueGone(old(order), k);
      AttachFront(id);
    }

    method Evict(t: Tree, ghost rec: map<Id, nat>) returns (victim: Id)
      requires Valid() && Grown(t) && Orders(order, rec) && rec != map[] && rec.Keys <= t.parent.Keys
      ensures LruVictim(t, rec, victim)
    {
      ListedAreResident(links, order, rec);
      victim := ScanList(t, links, head, order, rec);
    }
  }

  /** Walks from newest to oldest and keeps the last segment that, when first met, has no resident below it. */
  method ScanList(t: Tree, links: map<Id, Link>, head: Option<Id>, ghost order: seq<Id>, ghost rec: map<Id, nat>) returns (victim: Id)
    requires Spells(links, order) && head == At(order, 0) && links.Keys == rec.Keys
    requires Grown(t) && Orders(order, rec) && rec != map[] && rec.Keys <= t.parent.Keys
    ensures LruVictim(t, rec, victim)
  {
    var best: Option<Id> := None;
    var current := head;
    var seen: set<Id> := {};
    ghost var i: nat, at: nat := 0, 0;
    ScanStart(t, rec, order);
    while current.Some?
      invariant i <= |order| && current == At(order, i) && Scanning(t, rec, order, i, seen, best, at) == true
      decreases |order| - i
    {
      NextListed(links, order, i);
      ScanStep(t, rec, order, i, seen, best, at);
      var endpoint := Leaf(t, current.value);
      if endpoint !in seen && Bare(t, links.Keys, endpoint) {
        best := Some(endpoint);
        at := i;
      }
      seen := seen + {endpoint};
      current := links[current.value].next;
      i := i + 1;
    }
    ScanDone(t, rec, order, best, at);
    return best.value;
  }

  lemma NextListed(links: map<Id, Link>, order: seq<Id>, i: nat)
    requires Spells(links, order) && i < |order|
    ensures order[i] in links && links[order[i]].next == At(order, i + 1)
  {
    assert LinkOk(links, order, i);
  }

  lemma ListedAreResident(links: map<Id, Link>, order: seq<Id>, rec: map<Id, nat>)
    requires Spells(links, order) && Orders(order, rec)
    ensures links.Keys == rec.Keys
  {
    forall r | r in rec ensures r in links {
      var i :| 0 <= i < |order| && order[i] == r;
      assert LinkOk(links, order, i);
    }
  }

  /** The newest resident of the segment that ends at `e` is the `j`-th of the list. */
  ghost predicate FirstMet(t: Tree, order: seq<Id>, e: Id, j: nat)
    requires Grown(t) && forall r <- order :: r in t.parent
  {
    j < |order| && Leaf(t, order[j]) == e && forall l | 0 <= l < j :: Leaf(t, order[l]) != e
  }

  /** After `i` steps `best` is the open segment first met last, at position `at`. */
  ghost predicate Scanned(t: Tree, rec: map<Id, nat>, order: seq<Id>, i: nat, best: Option<Id>, at: nat)
    requires Grown(t) && forall r <- order :: r in t.parent
  {
    && (best.Some? ==> Bare(t, rec.Keys, best.value) && at < i && FirstMet(t, order, best.value, at))
    && (forall e, j: nat :: j < i && FirstMet(t, order, e, j) && Bare(t, rec.Keys, e) ==> best.Some? && j <= at)
  }

  /** `seen` holds the endpoints of the first `i` residents. */
  ghost predicate Seen(t: Tree, order: seq<Id>, i: nat, seen: set<Id>)
    requires Grown(t) && (forall r <- order :: r in t.parent) && i <= |order|
  {
    (forall j | 0 <= j < i :: Leaf(t, order[j]) in seen)
    && (forall e <- seen :: exists j :: 0 <= j < i && Leaf(t, order[j]) == e)
  }

  /** The scan after `i` steps. */
  ghost predicate Scanning(t: Tree, rec: map<Id, nat>, order: seq<Id>, i: nat, seen: set<Id>, best: Option<Id>, at: nat) {
    && Grown(t) && (forall r <- order :: r in t.parent) && i <= |order|
    && Seen(t, order, i, seen) && Scanned(t, rec, order, i, best, at)
  }

  lemma ScanStart(t: Tree, rec: map<Id, nat>, order: seq<Id>)
    requires Grown(t) && Orders(order, rec) && rec.Keys <= t.parent.Keys
    ensures Scanning(t, rec, order, 0, {}, None, 0) == true
  {}

  lemma ScanStep(t: Tree, rec: map<Id, nat>, order: seq<Id>, i: nat, seen: set<Id>, best: Option<Id>, at: nat)
    requires i < |order| && Scanning(t, rec, order, i, seen, best, at)
    ensures Grown(t) && order[i] in t.parent
    ensures var e := Leaf(t, order[i]);
      var met := e !in seen && Bare(t, rec.Keys, e);
      Scanning(t, rec, order, i + 1, seen + {e}, if met then Some(e) else best, if met then i else at) == true
  {
    assert order[i] in order;
    var e := Leaf(t, order[i]);
    assert e !in seen <==> FirstMet(t, order, e, i);
    forall f | f in seen + {e} ensures exists j :: 0 <= j < i + 1 && Leaf(t, order[j]) == f {
      if f == e { assert Leaf(t, order[i]) == f; }
    }
  }

  lemma {:induction false} FirstMetExists(t: Tree, order: seq<Id>, e: Id, i: nat) returns (j: nat)
    requires Grown(t) && (forall r <- order :: r in t.parent) && i < |order| && Leaf(t, order[i]) == e
    ensures j <= i && FirstMet(t, order, e, j)
  {
    j := i;
    if exists l :: 0 <= l < i && Leaf(t, order[l]) == e {
      var l :| 0 <= l < i && Leaf(t, order[l]) == e;
      j := FirstMetExists(t, order, e, l);
    }
  }

  /** The resident first met is the newest of its segment. */
  lemma MetIsNewest(t: Tree, rec: map<Id, nat>, order: seq<Id>, e: Id, j: nat)
    requires Grown(t) && Orders(order, rec) && (forall r <- order :: r in t.parent) && FirstMet(t, order, e, j)
    ensures NewestOf(t, rec, e, rec[order[j]])
  {
    forall r | r in rec && r in t.parent && Leaf(t, r) == e ensures rec[r] <= rec[order[j]] {
      var i :| 0 <= i < |order| && order[i] == r;
    }
    assert order[j] in rec;
  }

  lemma ScanFinds(t: Tree, rec: map<Id, nat>, order: seq<Id>, best: Option<Id>, at: nat)
    requires Grown(t) && Orders(order, rec) && rec != map[] && rec.Keys <= t.parent.Keys
    requires (forall r <- order :: r in t.parent) && Scanned(t, rec, order, |order|, best, at)
    ensures best.Some?
  {
    assert rec.Keys != {};
    var d := CandidateExists(t, rec.Keys);
    var i :| 0 <= i < |order| && order[i] == d;
    var j := FirstMetExists(t, order, Leaf(t, d), i);
  }

  lemma NoneOlder(t: Tree, rec: map<Id, nat>, order: seq<Id>, best: Option<Id>, at: nat, f: Id, l: nat)
    requires Grown(t) && Orders(order, rec) && rec.Keys <= t.parent.Keys && at < |order|
    requires (forall r <- order :: r in t.parent) && Scanned(t, rec, order, |order|, best, at) && Candidate(t, rec, f, l)
    ensures order[at] in rec && rec[order[at]] <= l
  {
    var r :| r in rec && r in t.parent && Leaf(t, r) == f && rec[r] == l;
    var i :| 0 <= i < |order| && order[i] == r;
    var j := FirstMetExists(t, order, f, i);
    assert order[j] in rec && rec[order[j]] <= l;
  }

  lemma ScanDone(t: Tree, rec: map<Id, nat>, order: seq<Id>, best: Option<Id>, at: nat)
    requires Grown(t) && Orders(order, rec) && rec != map[] && rec.Keys <= t.parent.Keys
    requires (forall r <- order :: r in t.parent) && Scanned(t, rec, order, |order|, best, at)
    ensures best.Some? && LruVictim(t, rec, best.value)
  {
    ScanFinds(t, rec, order, best, at);
    MetIsNewest(t, rec, order, best.value, at);
    assert Candidate(t, rec, best.value, rec[order[at]]);
    forall f, l | Candidate(t, rec, f, l) ensures rec[order[at]] <= l { NoneOlder(t, rec, order, best, at, f, l); }
  }
}
