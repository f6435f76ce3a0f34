/** The converter's validator of relocations, and why it accepts every trace of the simulator. */
module Relocations {
  import opened Prelude
  import opened Tiers
  import opened Trace
  import opened Commands

  /** The block of a relocation: move number and node. */
  datatype Key = Key(move: nat, node: nat)

  predicate Of(e: Event, k: Key) { e.move == Some(k.move) && e.node == k.node }

  function KeysOf(events: seq<Event>): set<Key> { set e | e in events && e.move.Some? :: Key(e.move.value, e.node) }

  /** The events of one block of a relocation, in trace order. */
  function Group(events: seq<Event>, k: Key): seq<Event> {
    if events == [] then []
    else Group(events[..|events| - 1], k) + (if Of(events[|events| - 1], k) then [events[|events| - 1]] else [])
  }

  const RELOCATION_REASONS: set<Reason> := {AccessMigration, BackgroundMigration, CapacityEviction}

  /** The reason a relocation has: one that starts with a storage hit is an access migration. */
  function Expected(read: Event): Reason { if read.reason.StorageHit? then AccessMigration else read.reason }

  /** One block of a relocation: a read, a write and a trim, chained by their dependencies, from SLC to TLC. */
  predicate BlockOk(g: seq<Event>) {
    && |g| == 3 && g[0].op.Read? && g[1].op.Write? && g[2].op.Trim?
    && g[0].count == g[1].count == g[2].count
    && g[0].tier.Slc? && g[1].tier.Tlc?
    && g[2].tier == g[0].tier && g[2].stream == g[0].stream && g[2].start == g[0].start
    && g[1].depends == Some(g[0].sequence) && g[2].depends == Some(g[1].sequence)
    && Expected(g[0]) in RELOCATION_REASONS
    && g[1].reason == Expected(g[0]) && g[2].reason == Expected(g[0])
  }

  /** The blocks of a relocation whose read is a reused storage hit. */
  function Hits(events: seq<Event>, move: nat): set<Key> {
    set k | k in KeysOf(events) && k.move == move && Group(events, k) != [] && Group(events, k)[0].reason.StorageHit?
  }

  ghost predicate PlainOk(e: Event) { e.move.None? ==> e.depends.None? }

  ghost predicate KeyOk(events: seq<Event>, k: Key) {
    k in KeysOf(events) ==>
      && BlockOk(Group(events, k))
      && |Hits(events, k.move)| == if Expected(Group(events, k)[0]).AccessMigration? then 1 else 0
  }

  ghost predicate SameReason(events: seq<Event>, a: Key, b: Key) {
    a in KeysOf(events) && b in KeysOf(events) && a.move == b.move && BlockOk(Group(events, a)) && BlockOk(Group(events, b))
    ==> Expected(Group(events, a)[0]) == Expected(Group(events, b)[0])
  }

  /** What the validator demands. */
  ghost predicate Accepts(events: seq<Event>) {
    && (forall e <- events :: PlainOk(e))
    && (forall k :: KeyOk(events, k))
    && (forall a, b :: SameReason(events, a, b))
  }

  lemma {:induction false} GroupNonempty(events: seq<Event>, k: Key)
    ensures Group(events, k) != [] <==> k in KeysOf(events)
  {
    if events != [] {
      var rest, last := events[..|events| - 1], events[|events| - 1];
      GroupNonempty(rest, k);
      assert events == rest + [last];
      if k in KeysOf(rest) { var e :| e in rest && e.move.Some? && Key(e.move.value, e.node) == k; assert e in events; }
      if Of(last, k) { assert last in events; }
    }
  }

  // ---- The validator ----

  ghost predicate Gathered(events: seq<Event>, moved: map<Key, seq<Event>>, k: Key) {
    if k in moved then moved[k] == Group(events, k) != [] else Group(events, k) == []
  }

  /** The events grouped by block; nothing if an event outside a relocation declares a dependency. */
  method GroupEvents(events: seq<Event>) returns (moved: Option<map<Key, seq<Event>>>)
    ensures moved.Some? <==> forall e <- events :: PlainOk(e)
    ensures moved.Some? ==> moved.value.Keys == KeysOf(events) && forall k <- moved.value :: moved.value[k] == Group(events, k)
  {
    var groups: map<Key, seq<Event>> := map[];
    for i := 0 to |events|
      invariant forall e <- events[..i] :: PlainOk(e)
      invariant forall k :: Gathered(events[..i], groups, k)
    {
      var e := events[i];
      ghost var before := groups;
      assert events[..i + 1] == events[..i] + [e] && events[..i + 1][..i] == events[..i];
      if e.move.None? {
        if e.depends.Some? {
          assert !PlainOk(events[i]);
          return None;
        }
      } else {
        var key := Key(e.move.value, e.node);
        groups := groups[key := (if key in groups then groups[key] else []) + [e]];
      }
      ghost var done := events[..i + 1];
      forall k ensures Gathered(done, groups, k) { assert Gathered(events[..i], before, k); }
    }
    assert events[..|events|] == events;
    forall k ensures k in groups <==> k in KeysOf(events) {
      assert Gathered(events, groups, k);
      GroupNonempty(events, k);
    }
    forall k | k in groups ensures groups[k] == Group(events, k) { assert Gathered(events, groups, k); }
    moved := Some(groups);
  }

  /** The blocks seen so far, with a reused storage hit. */
  ghost function HitsAmong(moved: map<Key, seq<Event>>, seen: set<Key>, move: nat): set<Key> {
    set k | k in seen && k in moved && k.move == move && moved[k] != [] && moved[k][0].reason.StorageHit?
  }

  function CountOf(hits: map<nat, nat>, move: nat): nat { if move in hits then hits[move] else 0 }

  ghost predicate Tallied(moved: map<Key, seq<Event>>, seen: set<Key>, hits: map<nat, nat>, reasons: map<nat, Reason>, move: nat) {
    && CountOf(hits, move) == |HitsAmong(moved, seen, move)|
    && (move in reasons <==> exists k <- seen :: k.move == move)
  }

  ghost predicate Seen(moved: map<Key, seq<Event>>, reasons: map<nat, Reason>, k: Key) {
    k in moved && BlockOk(moved[k]) && k.move in reasons && reasons[k.move] == Expected(moved[k][0])
  }

  lemma TallyNext(moved: map<Key, seq<Event>>, seen: set<Key>, hits: map<nat, nat>, reasons: map<nat, Reason>, k: Key)
    requires k in moved && k !in seen && BlockOk(moved[k])
    requires forall move :: Tallied(moved, seen, hits, reasons, move)
    ensures var more := if moved[k][0].reason.StorageHit? then hits[k.move := CountOf(hits, k.move) + 1] else hits;
      var known, now := reasons[k.move := Expected(moved[k][0])], seen + {k};
      forall move :: Tallied(moved, now, more, known, move)
  {
    var more := if moved[k][0].reason.StorageHit? then hits[k.move := CountOf(hits, k.move) + 1] else hits;
    var known, now := reasons[k.move := Expected(moved[k][0])], seen + {k};
    forall move: nat ensures Tallied(moved, now, more, known, move) {
      assert Tallied(moved, seen, hits, reasons, move);
      assert k in now;
      if move == k.move && moved[k][0].reason.StorageHit? {
        assert HitsAmong(moved, now, move) == HitsAmong(moved, seen, move) + {k};
      } else {
        assert HitsAmong(moved, now, move) == HitsAmong(moved, seen, move);
      }
    }
  }

  ghost predicate Faulty(moved: map<Key, seq<Event>>) {
    || (exists k <- moved :: !BlockOk(moved[k]))
    || exists a, b :: a in moved && b in moved && a.move == b.move && BlockOk(moved[a]) && BlockOk(moved[b])
                      && Expected(moved[a][0]) != Expected(moved[b][0])
  }

  ghost predicate AllTallied(moved: map<Key, seq<Event>>, seen: set<Key>, hits: map<nat, nat>, reasons: map<nat, Reason>) {
    && (forall k <- seen :: Seen(moved, reasons, k))
    && (forall move :: Tallied(moved, seen, hits, reasons, move))
  }

  /** One step of the check. */
  method CheckBlock(moved: map<Key, seq<Event>>, hits: map<nat, nat>, reasons: map<nat, Reason>, k: Key, ghost seen: set<Key>)
    returns (ok: bool, hitsAfter: map<nat, nat>, reasonsAfter: map<nat, Reason>)
    requires k in moved && k !in seen && seen <= moved.Keys && AllTallied(moved, seen, hits, reasons)
    ensures if ok then AllTallied(moved, seen + {k}, hitsAfter, reasonsAfter) == true else Faulty(moved)
  {
    var g := moved[k];
    hitsAfter, reasonsAfter := hits, reasons;
    if !BlockOk(g) { return false, hits, reasons; }
    var expected := Expected(g[0]);
    if k.move in reasons && reasons[k.move] != expected {
      assert Tallied(moved, seen, hits, reasons, k.move);
      ghost var other :| other in seen && other.move == k.move;
      assert Seen(moved, reasons, other);
      return false, hits, reasons;
    }
    TallyNext(moved, seen, hits, reasons, k);
    if g[0].reason.StorageHit? { hitsAfter := hits[k.move := CountOf(hits, k.move) + 1]; }
    reasonsAfter := reasons[k.move := expected];
    ok := true;
  }

  /** Checks every block on its own and gathers, per move, its reason and its reused storage hits. */
  method CheckBlocks(moved: map<Key, seq<Event>>) returns (ok: bool, hits: map<nat, nat>, reasons: map<nat, Reason>)
    ensures if ok then AllTallied(moved, moved.Keys, hits, reasons) else Faulty(moved)
  {
    hits, reasons := map[], map[];
    var keys := moved.Keys;
    ghost var seen: set<Key> := {};
    while keys != {}
      invariant seen !! keys && seen + keys == moved.Keys && AllTallied(moved, seen, hits, reasons)
      decreases keys
    {
      var k :| k in keys;
      ok, hits, reasons := CheckBlock(moved, hits, reasons, k, seen);
      if !ok { return; }
      seen, keys := seen + {k}, keys - {k};
    }
    ok := true;
  }

  /** Checks that exactly the access migrations reuse a storage hit, and just one. */
  method CheckHits(hits: map<nat, nat>, reasons: map<nat, Reason>) returns (ok: bool)
    ensures ok <==> forall m <- reasons :: CountOf(hits, m) == if reasons[m].AccessMigration? then 1 else 0
  {
    var moves := reasons.Keys;
    while moves != {}
      invariant moves <= reasons.Keys
      invariant forall m <- reasons :: m !in moves ==> CountOf(hits, m) == if reasons[m].AccessMigration? then 1 else 0
      decreases moves
    {
      var m :| m in moves;
      if CountOf(hits, m) != if reasons[m].AccessMigration? then 1 else 0 { return false; }
      moves := moves - {m};
    }
    ok := true;
  }

  /** The validator accepts exactly the lists of events whose relocations are complete and consistent. */
  method ValidateRelocations(events: seq<Event>) returns (ok: bool)
    ensures ok <==> Accepts(events)
  {
    var moved := GroupEvents(events);
    if moved.None? { return false; }
    var blocksOk, hits, reasons := CheckBlocks(moved.value);
    if !blocksOk {
      BlocksRejected(events, moved.value);
      return false;
    }
    ok := CheckHits(hits, reasons);
    Verdict(events, moved.value, hits, reasons);
  }

  lemma BlocksRejected(events: seq<Event>, moved: map<Key, seq<Event>>)
    requires moved.Keys == KeysOf(events) && (forall k <- moved :: moved[k] == Group(events, k)) && Faulty(moved)
    ensures !Accepts(events)
  {
    if k :| k in moved && !BlockOk(moved[k]) {
      assert !KeyOk(events, k);
    } else {
      var a, b :| a in moved && b in moved && a.move == b.move && BlockOk(moved[a]) && BlockOk(moved[b])
                  && Expected(moved[a][0]) != Expected(moved[b][0]);
      assert !SameReason(events, a, b);
    }
  }

  lemma Verdict(events: seq<Event>, moved: map<Key, seq<Event>>, hits: map<nat, nat>, reasons: map<nat, Reason>)
    requires moved.Keys == KeysOf(events) && (forall k <- moved :: moved[k] == Group(events, k))
    requires forall e <- events :: PlainOk(e)
    requires AllTallied(moved, moved.Keys, hits, reasons)
    ensures Accepts(events) <==> forall m <- reasons :: CountOf(hits, m) == if reasons[m].AccessMigration? then 1 else 0
  {
    forall move: nat ensures CountOf(hits, move) == |Hits(events, move)| {
      assert Tallied(moved, moved.Keys, hits, reasons, move);
      assert HitsAmong(moved, moved.Keys, move) == Hits(events, move);
    }
    forall a, b ensures SameReason(events, a, b) {
      if a in moved && b in moved { assert Seen(moved, reasons, a) && Seen(moved, reasons, b); }
    }
    if Accepts(events) {
      forall m | m in reasons ensures CountOf(hits, m) == if reasons[m].AccessMigration? then 1 else 0 {
        assert Tallied(moved, moved.Keys, hits, reasons, m);
        var k :| k in moved.Keys && k.move == m;
        assert Seen(moved, reasons, k) && KeyOk(events, k);
      }
    }
    if forall m <- reasons :: CountOf(hits, m) == if reasons[m].AccessMigration? then 1 else 0 {
      forall k ensures KeyOk(events, k) {
        if k in moved { assert Seen(moved, reasons, k); }
      }
    }
  }
}
