/**
 The segment index of the DRAM policies: residents grouped by segment, segments published to ordered groups
 under their newest recency, and resident counts of subtrees. Values only; `MemoryPolicy` updates them in place.
 */
module MemoryIndex {
  import opened Prelude
  import opened Forest
  import opened SubtreeCounts

  type Handle = nat
  datatype Key = Key(recency: nat, node: Id)
  datatype Resident = Resident(recency: nat, segment: Handle)
  datatype Entry = Entry(endpoint: Id, group: nat, members: set<Key>)
  datatype Index = Index(
    residents: map<Id, Resident>, segments: map<Handle, Entry>, endpoints: map<Id, Handle>,
    groups: seq<set<Key>>, subtree: map<Id, nat>, nextRecency: nat, nextHandle: nat)

  predicate KeyAtMost(a: Key, b: Key) {
    a.recency < b.recency || (a.recency == b.recency && a.node <= b.node)
  }

  lemma {:induction false} GreatestExists(s: set<Key>)
    requires s != {}
    ensures exists k :: k in s && forall j <- s :: KeyAtMost(j, k)
  {
    var k :| k in s;
    assert forall j <- s :: j == k || j in s - {k};
    if s != {k} {
      GreatestExists(s - {k});
      var m :| m in s - {k} && forall j <- s - {k} :: KeyAtMost(j, m);
      var top := if KeyAtMost(m, k) then k else m;
      assert top in s && forall j <- s :: KeyAtMost(j, top);
    }
  }

  /** The last key of an ordered member set: its newest resident. */
  function Newest(members: set<Key>): Key
    requires members != {}
  {
    GreatestExists(members);
    var k :| k in members && forall j <- members :: KeyAtMost(j, k);
    k
  }

  function PublishedKey(e: Entry): Key
    requires e.members != {}
  {
    Key(Newest(e.members).recency, e.endpoint)
  }

  // ---- The elementary updates ----

  function Unpublish(x: Index, h: Handle): Index
    requires h in x.segments && x.segments[h].group < |x.groups|
  {
    var e := x.segments[h];
    if e.members == {} then x
    else x.(groups := x.groups[e.group := x.groups[e.group] - {PublishedKey(e)}])
  }

  /** Publishes a segment under its newest recency; a segment left without members disappears. */
  function Publish(x: Index, h: Handle): Index
    requires h in x.segments && x.segments[h].group < |x.groups|
  {
    var e := x.segments[h];
    if e.members == {} then x.(endpoints := x.endpoints - {e.endpoint}, segments := x.segments - {h})
    else x.(groups := x.groups[e.group := x.groups[e.group] + {PublishedKey(e)}])
  }

  // ---- What the index means ----

  ghost predicate EndpointOk(x: Index, e: Id) {
    e in x.endpoints ==> x.endpoints[e] in x.segments && x.segments[x.endpoints[e]].endpoint == e
  }

  ghost predicate HandleOk(x: Index, h: Handle) {
    h in x.segments ==>
      && h <= x.nextHandle
      && x.segments[h].group < |x.groups|
      && x.segments[h].endpoint in x.endpoints && x.endpoints[x.segments[h].endpoint] == h
  }

  /** Endpoints and handles of segments correspond one to one. */
  ghost predicate Linked(x: Index) {
    0 < |x.groups| && (forall e :: EndpointOk(x, e)) && (forall h :: HandleOk(x, h))
  }

  ghost predicate FileOk(x: Index, h: Handle, k: Key) {
    (h in x.segments && k in x.segments[h].members)
    <==> (k.node in x.residents && x.residents[k.node] == Resident(k.recency, h))
  }

  /** Each resident is a member of exactly the segment it points at. */
  ghost predicate Filed(x: Index) { forall h, k :: FileOk(x, h, k) }

  /** Group `g` publishes `k` exactly when `k` is the newest recency and the endpoint of one of its segments,
      leaving aside the segments in `held`, which are being edited and are not published at all. */
  ghost predicate PublishedOk(x: Index, held: set<Handle>, g: nat, k: Key) {
    g < |x.groups| ==>
      (k in x.groups[g] <==>
        && k.node in x.endpoints
        && x.endpoints[k.node] in x.segments
        && x.endpoints[k.node] !in held
        && var e := x.segments[x.endpoints[k.node]];
           e.group == g && e.members != {} && k == PublishedKey(e))
  }

  ghost predicate NonEmpty(x: Index, held: set<Handle>, h: Handle) {
    h in x.segments && h !in held ==> x.segments[h].members != {}
  }

  ghost predicate Published(x: Index, held: set<Handle>) {
    (forall g, k :: PublishedOk(x, held, g, k)) && (forall h :: NonEmpty(x, held, h))
  }

  ghost predicate RecencyOk(x: Index, a: Id) {
    a in x.residents ==>
      && x.residents[a].recency <= x.nextRecency
      && forall b :: b in x.residents && x.residents[b].recency == x.residents[a].recency ==> b == a
  }

  ghost predicate PlaceOk(t: Tree, x: Index, r: Id)
    requires Grown(t)
  {
    r in x.residents ==>
      r in t.parent && x.residents[r].segment in x.segments && x.segments[x.residents[r].segment].endpoint == Leaf(t, r)
  }

  /** The index describes the residents of tree `t`. */
  ghost predicate Indexes(t: Tree, x: Index) {
    && Grown(t)
    && Linked(x) && Filed(x) && Published(x, {})
    && (forall a :: RecencyOk(x, a))
    && (forall r :: PlaceOk(t, x, r))
    && Counted(t, x.residents.Keys, x.subtree)
  }

  function Recencies(x: Index): map<Id, nat> { map r | r in x.residents :: x.residents[r].recency }

  // ---- Publication ----

  lemma UnpublishHolds(x: Index, held: set<Handle>, h: Handle)
    requires Linked(x) && Published(x, held) && h in x.segments && h !in held
    ensures HandleOk(x, h) && Linked(Unpublish(x, h)) && Published(Unpublish(x, h), held + {h})
  {
    assert HandleOk(x, h) && NonEmpty(x, held, h);
    var y, held' := Unpublish(x, h), held + {h};
    forall g: nat, k ensures PublishedOk(y, held', g, k) { assert PublishedOk(x, held, g, k); }
    forall j: nat ensures NonEmpty(y, held', j) { assert NonEmpty(x, held, j); }
    LinkSame(x, y);
  }

  lemma LinkSame(x: Index, y: Index)
    requires Linked(x) && y.endpoints == x.endpoints && x.nextHandle <= y.nextHandle && |y.groups| == |x.groups|
    requires y.segments.Keys == x.segments.Keys
    requires forall h <- x.segments :: y.segments[h].endpoint == x.segments[h].endpoint && y.segments[h].group == x.segments[h].group
    ensures Linked(y)
  {
    forall e: Id ensures EndpointOk(y, e) { assert EndpointOk(x, e); }
    forall h: nat ensures HandleOk(y, h) { assert HandleOk(x, h); }
  }

  lemma PublishHolds(x: Index, held: set<Handle>, h: Handle)
    requires Linked(x) && Published(x, held) && h in x.segments && h in held
    ensures HandleOk(x, h) && Linked(Publish(x, h)) && Published(Publish(x, h), held - {h})
  {
    assert HandleOk(x, h);
    var y, held' := Publish(x, h), held - {h};
    forall e: Id ensures EndpointOk(y, e) { assert EndpointOk(x, e); }
    forall j: nat ensures HandleOk(y, j) { assert HandleOk(x, j); }
    forall g: nat, k ensures PublishedOk(y, held', g, k) {
      assert PublishedOk(x, held, g, k) && EndpointOk(x, k.node);
    }
    forall j: nat ensures NonEmpty(y, held', j) { assert NonEmpty(x, held, j); }
  }

  /** Removing a segment without members leaves every resident filed. */
  lemma PublishFiled(x: Index, h: Handle)
    requires Filed(x) && h in x.segments && x.segments[h].group < |x.groups|
    ensures Filed(Publish(x, h))
  {
    var y := Publish(x, h);
    forall j: nat, k ensures FileOk(y, j, k) { assert FileOk(x, j, k); }
  }
}
