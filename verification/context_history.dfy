/**
 What the context policy remembers of requests: which requests last used a block and how far apart, and by how much
 the sessions' contexts have been growing. Its decisions on retention and on the size of an eviction rest on this.
 */
module ContextHistory {
  import opened Prelude
  import opened Forest
  import opened MemoryIndex
  import opened MemoryVictim
  import opened MemoryPolicy
  import opened MemoryHistory
  import opened MemoryDecision
  import opened SimulatorEviction
  import opened ContextPolicy

  datatype Request = Request(id: nat, time: nat, affinity: nat)

  /** Requests begin and end; in between, blocks enter memory, are accessed there and leave it. */
  datatype Step = Began(request: Request) | Ended(hashes: seq<Id>) | Happened(event: Event)

  /** The sizes of the last request of a session, and its growth over the one before. */
  datatype Session = Session(blocks: nat, growth: nat)

  /** The last request that used a block, the time since the one before, and the session growth it was given. */
  datatype Use = Use(request: nat, time: nat, gap: Option<nat>, growth: nat)

  // ---- What a log of steps says ----

  function Front(log: seq<Step>): seq<Step>
    requires log != []
  {
    log[..|log| - 1]
  }

  function Last(log: seq<Step>): Step
    requires log != []
  {
    log[|log| - 1]
  }

  function Latest(log: seq<Step>): Option<Request> {
    if log == [] then None else if Last(log).Began? then Some(Last(log).request) else Latest(Front(log))
  }

  function Ids(log: seq<Step>): set<nat> {
    if log == [] then {} else Ids(Front(log)) + (if Last(log).Began? then {Last(log).request.id} else {})
  }

  predicate IsOpen(log: seq<Step>) {
    log != [] && !Last(log).Ended? && (Last(log).Began? || IsOpen(Front(log)))
  }

  function InMemory(log: seq<Step>): set<Id> {
    if log == [] then {}
    else match Last(log)
      case Happened(Inserted(n)) => InMemory(Front(log)) + {n}
      case Happened(Removed(n)) => InMemory(Front(log)) - {n}
      case _ => InMemory(Front(log))
  }

  predicate Uses(step: Step, n: Id) {
    step == Happened(Inserted(n)) || step == Happened(Accessed(n))
  }

  /** The requests that used a block since it was created, in order, each once. */
  function Users(log: seq<Step>, n: Id): seq<Request> {
    if log == [] || Last(log) == Happened(Pruned(n)) then []
    else
      var before := Users(Front(log), n);
      if !Uses(Last(log), n) || Latest(log).None? then before
      else if before != [] && before[|before| - 1].id == Latest(log).value.id then before
      else before + [Latest(log).value]
  }

  /** The sizes of the finished requests of a session, in order. */
  function Sizes(log: seq<Step>, affinity: nat): seq<nat> {
    if log == [] then []
    else
      var before := Sizes(Front(log), affinity);
      if Last(log).Ended? && Latest(log).Some? && Latest(log).value.affinity == affinity
      then before + [|Last(log).hashes|] else before
  }

  function Growth(sizes: seq<nat>): nat {
    var n := |sizes|;
    if n >= 2 && sizes[n - 1] > sizes[n - 2] then sizes[n - 1] - sizes[n - 2] else 0
  }

  /** The growth of the session of the latest request, if growth matters and it has a session. */
  function GrowthNow(log: seq<Step>, growing: bool): nat {
    if growing && Latest(log).Some? && Latest(log).value.affinity != 0 then Growth(Sizes(log, Latest(log).value.affinity)) else 0
  }

  /** The growth of the session of the latest request when that request began. */
  function GrowthAtStart(log: seq<Step>, growing: bool): nat {
    if log == [] then 0 else if Last(log).Began? then GrowthNow(log, growing) else GrowthAtStart(Front(log), growing)
  }

  predicate Publishes(log: seq<Step>, growing: bool, n: Id)
    requires log != []
  {
    && Last(log).Ended? && growing && Latest(log).Some? && Latest(log).value.affinity != 0
    && n in Last(log).hashes && n in InMemory(log)
  }

  /** The growth last given to a block: by a new request that used it, or by the end of a request. */
  function Given(log: seq<Step>, growing: bool, n: Id): nat {
    if log == [] then 0
    else if Publishes(log, growing, n) then GrowthNow(log, growing)
    else if |Users(log, n)| > |Users(Front(log), n)| then GrowthAtStart(log, growing)
    else Given(Front(log), growing, n)
  }

  /** What the simulator guarantees: requests do not overlap, have identities of their own and never begin in the
      past; memory changes during requests only; a node in memory is not pruned. */
  predicate MayFollow(log: seq<Step>, step: Step) {
    match step
    case Began(r) =>
      !IsOpen(log) && r.id !in Ids(log) && (Latest(log).Some? ==> Latest(log).value.time <= r.time)
    case Ended(_) => IsOpen(log)
    case Happened(Created(_, _)) => true
    case Happened(Pruned(n)) => n !in InMemory(log)
    case Happened(Inserted(n)) => IsOpen(log) && n !in InMemory(log)
    case Happened(Accessed(n)) => IsOpen(log) && n in InMemory(log)
    case Happened(Removed(n)) => IsOpen(log) && n in InMemory(log)
  }

  predicate Legal(log: seq<Step>) {
    log != [] ==> Legal(Front(log)) && MayFollow(Front(log), Last(log))
  }

  // ---- Consequences ----

  lemma {:induction false} OpenLatest(log: seq<Step>)
    requires IsOpen(log)
    ensures Latest(log).Some?
  {
    if !Last(log).Began? { OpenLatest(Front(log)); }
  }

  lemma {:induction false} LatestKnown(log: seq<Step>)
    ensures Latest(log).Some? ==> Latest(log).value.id in Ids(log)
  {
    if log != [] { LatestKnown(Front(log)); }
  }

  /** A list of requests in order of time, each with an identity of its own. */
  predicate InOrder(users: seq<Request>) {
    forall i, j | 0 <= i < j < |users| :: users[i].time <= users[j].time && users[i].id != users[j].id
  }

  /** The users of a block are in order; the latest request can only be the last of them. */
  lemma {:induction false} UsersInOrder(log: seq<Step>, n: Id)
    requires Legal(log)
    ensures InOrder(Users(log, n)) && forall u <- Users(log, n) :: u.id in Ids(log)
    ensures Users(log, n) != [] ==> Latest(log).Some?
    ensures forall u <- Users(log, n) :: u.time <= Latest(log).value.time
    ensures forall i | 0 <= i < |Users(log, n)| - 1 :: Users(log, n)[i].id != Latest(log).value.id
  {
    if log != [] {
      UsersInOrder(Front(log), n);
      LatestKnown(log);
    }
  }

  /** A block in memory has been used since its node was created, so the policy's record of it exists. */
  lemma {:induction false} ResidentUsed(log: seq<Step>, n: Id)
    requires Legal(log) && n in InMemory(log)
    ensures Users(log, n) != []
  {
    if n in InMemory(Front(log)) { ResidentUsed(Front(log), n); }
    if IsOpen(Front(log)) { OpenLatest(Front(log)); }
  }

  lemma {:induction false} GrowthHeld(log: seq<Step>, growing: bool)
    requires IsOpen(log)
    ensures GrowthAtStart(log, growing) == GrowthNow(log, growing)
  {
    if !Last(log).Began? { GrowthHeld(Front(log), growing); }
  }

  /** While a request runs, the blocks it has used carry the growth of its session up to its last finished
      request: what is evicted during a request is judged by what was known before it. */
  lemma {:induction false} PriorGrowth(log: seq<Step>, growing: bool, n: Id)
    requires Legal(log) && IsOpen(log) && Users(log, n) != []
    requires Latest(log) == Some(Users(log, n)[|Users(log, n)| - 1])
    ensures Given(log, growing, n) == GrowthNow(log, growing)
  {
    GrowthHeld(log, growing);
    if |Users(log, n)| <= |Users(Front(log), n)| {
      UsersInOrder(Front(log), n);
      PriorGrowth(Front(log), growing, n);
      GrowthHeld(Front(log), growing);
    }
  }

  // ---- The record kept in place ----

  /** What is recorded of a block with these users, in order, and this growth. */
  function UseOf(users: seq<Request>, growth: nat): Use
    requires InOrder(users) && users != []
  {
    var last := users[|users| - 1];
    Use(last.id, last.time, if |users| > 1 then Some(last.time - users[|users| - 2].time) else None, growth)
  }

  ghost predicate Recorded(users: seq<Request>, growth: nat, uses: map<Id, Use>, n: Id) {
    InOrder(users) && (n in uses <==> users != []) && (n in uses ==> uses[n] == UseOf(users, growth))
  }

  ghost predicate UseOk(log: seq<Step>, growing: bool, uses: map<Id, Use>, n: Id) {
    Recorded(Users(log, n), Given(log, growing, n), uses, n)
  }

  ghost predicate SessionOk(log: seq<Step>, growing: bool, sessions: map<nat, Session>, a: nat) {
    var sizes := Sizes(log, a);
    && (a in sessions <==> growing && a != 0 && sizes != [])
    && (a in sessions ==> sessions[a] == Session(sizes[|sizes| - 1], Growth(sizes)))
  }

  /** A use by the request at hand: the record changes only if it is not the block's last user already. */
  function Touched(uses: map<Id, Use>, n: Id, id: nat, time: nat, growth: nat): map<Id, Use>
    requires n in uses ==> uses[n].request == id || uses[n].time <= time
  {
    if n !in uses then uses[n := Use(id, time, None, growth)]
    else if uses[n].request == id then uses
    else uses[n := Use(id, time, Some(time - uses[n].time), growth)]
  }

  lemma UsersStep(log: seq<Step>, step: Step, growing: bool, n: Id, r: Request)
    requires Uses(step, n) && Latest(log) == Some(r)
    ensures var before, next := Users(log, n), log + [step];
      && Users(next, n) == (if before != [] && before[|before| - 1].id == r.id then before else before + [r])
      && Given(next, growing, n) ==
           (if before != [] && before[|before| - 1].id == r.id then Given(log, growing, n) else GrowthAtStart(log, growing))
  {
    assert Front(log + [step]) == log;
    assert !Publishes(log + [step], growing, n);
    assert GrowthAtStart(log + [step], growing) == GrowthAtStart(log, growing);
  }

  lemma OthersStep(log: seq<Step>, step: Step, growing: bool, n: Id, m: Id)
    requires Uses(step, n) && m != n
    ensures Users(log + [step], m) == Users(log, m) && Given(log + [step], growing, m) == Given(log, growing, m)
  {
    assert Front(log + [step]) == log;
    assert !Publishes(log + [step], growing, m);
  }

  lemma NextUse(users: seq<Request>, given: nat, uses: map<Id, Use>, n: Id, r: Request, growth: nat)
    requires Recorded(users, given, uses, n)
    requires forall u <- users :: u.time <= r.time
    requires forall i | 0 <= i < |users| - 1 :: users[i].id != r.id
    ensures n in uses ==> uses[n].time <= r.time
    ensures var same := users != [] && users[|users| - 1].id == r.id;
      Recorded(if same then users else users + [r], if same then given else growth, Touched(uses, n, r.id, r.time, growth), n)
  {
    var same := users != [] && users[|users| - 1].id == r.id;
    if !same { assert InOrder(users + [r]); }
  }

  lemma UseStep(log: seq<Step>, step: Step, growing: bool, uses: map<Id, Use>, n: Id, m: Id)
    requires Legal(log) && MayFollow(log, step) && Uses(step, n)
    requires UseOk(log, growing, uses, n) && UseOk(log, growing, uses, m)
    ensures Latest(log).Some? && (n in uses ==> uses[n].time <= Latest(log).value.time)
    ensures var r := Latest(log).value;
      UseOk(log + [step], growing, Touched(uses, n, r.id, r.time, GrowthAtStart(log, growing)), m) == true
  {
    OpenLatest(log);
    UsersInOrder(log, n);
    var r := Latest(log).value;
    NextUse(Users(log, n), Given(log, growing, n), uses, n, r, GrowthAtStart(log, growing));
    if m != n {
      OthersStep(log, step, growing, n, m);
    } else {
      UsersStep(log, step, growing, n, r);
    }
  }

  /** What the end of a request does to the record of one block. */
  ghost predicate Regrown(before: map<Id, Use>, after: map<Id, Use>, marked: bool, growth: nat, n: Id) {
    && (n in after <==> n in before)
    && (n in before ==> after[n] == if marked then before[n].(growth := growth) else before[n])
  }

  lemma EndUse(log: seq<Step>, hashes: seq<Id>, growing: bool, before: map<Id, Use>, after: map<Id, Use>, n: Id)
    requires UseOk(log, growing, before, n)
    requires var next := log + [Ended(hashes)];
      Regrown(before, after, Publishes(next, growing, n), GrowthNow(next, growing), n)
    ensures UseOk(log + [Ended(hashes)], growing, after, n) == true
  {
    var next := log + [Ended(hashes)];
    assert Front(next) == log;
    assert Users(next, n) == Users(log, n);
    assert Given(next, growing, n) == if Publishes(next, growing, n) then GrowthNow(next, growing) else Given(log, growing, n);
  }

  lemma EndSession(log: seq<Step>, hashes: seq<Id>, r: Request, growing: bool, sessions: map<nat, Session>, a: nat)
    requires Latest(log) == Some(r) && SessionOk(log, growing, sessions, a)
    ensures var next, sizes := log + [Ended(hashes)], Sizes(log, r.affinity) + [|hashes|];
      && Sizes(next, r.affinity) == sizes
      && SessionOk(next, growing, if growing && r.affinity != 0
                                  then sessions[r.affinity := Session(|hashes|, Growth(sizes))] else sessions, a)
  {
    var next := log + [Ended(hashes)];
    assert Front(next) == log;
    if a != r.affinity { assert Sizes(next, a) == Sizes(log, a); }
  }

  /** The record of the policy, from which its decisions are made. */
  class Record {
    const growing: bool
    var id: nat
    var time: nat
    var growth: nat
    var sessions: map<nat, Session>
    var uses: map<Id, Use>

    constructor (growing: bool)
      ensures this.growing == growing && Follows([])
    {
      this.growing := growing;
      id, time, growth, sessions, uses := 0, 0, 0, map[], map[];
    }

    /** The record says of every block and session what the log says. */
    ghost predicate Follows(log: seq<Step>)
      reads this
    {
      && Legal(log)
      && (Latest(log).Some? ==> id == Latest(log).value.id && time == Latest(log).value.time)
      && growth == GrowthAtStart(log, growing)
      && (forall a :: SessionOk(log, growing, sessions, a))
      && (forall n :: UseOk(log, growing, uses, n))
    }

    method RequestBegins(r: Request, ghost log: seq<Step>)
      requires Follows(log) && MayFollow(log, Began(r))
      modifies this
      ensures Follows(log + [Began(r)])
    {
      ghost var next := log + [Began(r)];
      assert Front(next) == log;
      assert SessionOk(log, growing, sessions, r.affinity);
      id, time, growth := r.id, r.time, 0;
      if growing && r.affinity != 0 {
        if r.affinity in sessions { growth := sessions[r.affinity].growth; }
      }
      forall a: nat ensures SessionOk(next, growing, sessions, a) { assert SessionOk(log, growing, sessions, a); }
      forall n ensures UseOk(next, growing, uses, n) { assert UseOk(log, growing, uses, n); }
    }

    /** A block in memory is used by the running request. */
    method Used(n: Id, ghost log: seq<Step>, ghost step: Step)
      requires Follows(log) && MayFollow(log, step) && Uses(step, n)
      modifies this`uses
      ensures Follows(log + [step])
    {
      ghost var next := log + [step];
      assert Front(next) == log;
      OpenLatest(log);
      assert UseOk(log, growing, uses, n);
      ghost var before := uses;
      if n !in uses {
        uses := uses[n := Use(id, time, None, growth)];
      } else if uses[n].request != id {
        UsersInOrder(log, n);
        uses := uses[n := Use(id, time, Some(time - uses[n].time), growth)];
      }
      assert uses == Touched(before, n, id, time, growth);
      forall a: nat ensures SessionOk(next, growing, sessions, a) { assert SessionOk(log, growing, sessions, a); }
      forall m ensures UseOk(next, growing, uses, m) { UseStep(log, step, growing, before, n, m); }
    }

    /** A node leaves the tree, and with it the record of its block. */
    method Pruned(n: Id, ghost log: seq<Step>)
      requires Follows(log) && MayFollow(log, Happened(Event.Pruned(n)))
      modifies this`uses
      ensures Follows(log + [Happened(Event.Pruned(n))])
    {
      ghost var next := log + [Happened(Event.Pruned(n))];
      assert Front(next) == log;
      ghost var before := uses;
      uses := uses - {n};
      forall a: nat ensures SessionOk(next, growing, sessions, a) { assert SessionOk(log, growing, sessions, a); }
      forall m ensures UseOk(next, growing, uses, m) { assert UseOk(log, growing, before, m); }
    }

    /** At its end a request publishes the growth of its session to those of its blocks that are in memory. */
    method RequestEnds(r: Request, hashes: seq<Id>, residents: set<Id>, ghost log: seq<Step>)
      requires Follows(log) && MayFollow(log, Ended(hashes)) && Latest(log) == Some(r) && residents == InMemory(log)
      modifies this`sessions, this`uses
      ensures Follows(log + [Ended(hashes)])
    {
      ghost var next := log + [Ended(hashes)];
      assert Front(next) == log;
      ghost var before := uses;
      ghost var later := if growing && r.affinity != 0
                         then sessions[r.affinity := Session(|hashes|, Growth(Sizes(next, r.affinity)))] else sessions;
      forall a: nat ensures SessionOk(next, growing, later, a) {
        assert SessionOk(log, growing, sessions, a);
        EndSession(log, hashes, r, growing, sessions, a);
      }
      if growing && r.affinity != 0 {
        var blocks := |hashes|;
        assert SessionOk(log, growing, sessions, r.affinity);
        EndSession(log, hashes, r, growing, sessions, r.affinity);
        var g := if r.affinity in sessions && blocks > sessions[r.affinity].blocks then blocks - sessions[r.affinity].blocks else 0;
        sessions := sessions[r.affinity := Session(blocks, g)];
        Publish(hashes, residents, g, log);
      }
      forall n ensures UseOk(next, growing, uses, n) {
        assert UseOk(log, growing, before, n);
        EndUse(log, hashes, growing, before, uses, n);
      }
    }

    method Publish(hashes: seq<Id>, residents: set<Id>, g: nat, ghost log: seq<Step>)
      requires Legal(log) && residents == InMemory(log) && (forall n :: UseOk(log, growing, uses, n))
      modifies this`uses
      ensures forall n :: Regrown(old(uses), uses, n in hashes && n in residents, g, n)
    {
      for i := 0 to |hashes|
        invariant forall n :: Regrown(old(uses), uses, n in hashes[..i] && n in residents, g, n)
      {
        var h := hashes[i];
        ghost var before := uses;
        if h in residents {
          ResidentUsed(log, h);
          assert UseOk(log, growing, old(uses), h) && Regrown(old(uses), uses, h in hashes[..i], g, h);
          uses := uses[h := uses[h].(growth := g)];
        }
        assert hashes[..i + 1] == hashes[..i] + [h];
        forall n ensures Regrown(old(uses), uses, n in hashes[..i + 1] && n in residents, g, n) {
          assert Regrown(old(uses), before, n in hashes[..i] && n in residents, g, n);
        }
      }
      assert hashes[..|hashes|] == hashes;
    }

    /** Creations and removals from memory leave the record as it is. */
    lemma OtherSteps(log: seq<Step>, event: Event)
      requires Follows(log) && MayFollow(log, Happened(event)) && (event.Created? || event.Removed?)
      ensures Follows(log + [Happened(event)])
    {
      var next := log + [Happened(event)];
      assert Front(next) == log;
      forall a: nat ensures SessionOk(next, growing, sessions, a) { assert SessionOk(log, growing, sessions, a); }
      forall m ensures UseOk(next, growing, uses, m) { assert UseOk(log, growing, uses, m); }
    }

    method Take(step: Step, ghost log: seq<Step>, residents: set<Id>, latest: Option<Request>)
      requires Follows(log) && MayFollow(log, step) && residents == InMemory(log) && latest == Latest(log)
      modifies this
      ensures Follows(log + [step])
    {
      match step
      case Began(r) => RequestBegins(r, log);
      case Ended(hashes) =>
        OpenLatest(log);
        RequestEnds(latest.value, hashes, residents, log);
      case Happened(Inserted(n)) => Used(n, log, step);
      case Happened(Accessed(n)) => Used(n, log, step);
      case Happened(Pruned(n)) => Pruned(n, log);
      case Happened(event) => OtherSteps(log, event);
    }
  }

  lemma {:induction false} LegalPrefix(log: seq<Step>, i: nat)
    requires Legal(log) && i <= |log|
    ensures Legal(log[..i])
  {
    if i < |log| {
      LegalPrefix(Front(log), i);
      assert Front(log)[..i] == log[..i];
    } else {
      assert log[..i] == log;
    }
  }

  /** After any legal run the record says exactly what the log says: which request last used each block, how long
      after the one before, and the growth it was given; and how each session's requests have grown. */
  method Replay(log: seq<Step>, growing: bool) returns (record: Record)
    requires Legal(log)
    ensures fresh(record) && record.growing == growing && record.Follows(log)
    ensures forall n <- InMemory(log) :: n in record.uses
  {
    record := new Record(growing);
    for i := 0 to |log|
      invariant fresh(record) && record.growing == growing && record.Follows(log[..i])
    {
      LegalPrefix(log, i + 1);
      var before := log[..i];
      assert log[..i + 1] == before + [log[i]] && Front(log[..i + 1]) == before;
      record.Take(log[i], before, InMemory(before), Latest(before));
    }
    assert log[..|log|] == log;
    forall n | n in InMemory(log) ensures n in record.uses {
      ResidentUsed(log, n);
      assert UseOk(log, growing, record.uses, n);
    }
  }

  // ---- Decisions ----

  /** The adaptive settings: how much longer than `retention` a block of a growing session is kept, and how many
      blocks an eviction takes when its block was used again after the reference gap. */
  datatype Settings = Settings(
    budget: real, retention: Option<nat>, rate: real, reference: Option<nat>, base: nat, most: Option<nat>)

  /** What the constructor accepts. */
  predicate Accepted(c: Settings) {
    && c.rate >= 0.0 && (c.rate > 0.0 ==> c.retention.Some?) && c.most != Some(0)
    && (c.reference.Some? ==> c.reference.value > 0 && c.most.Some? && c.base > 0)
  }

  /** How many blocks to evict, given the gap between the last two uses of a block. */
  function EvictionBlocks(c: Settings, gap: Option<nat>): (n: nat)
    requires Accepted(c) && c.reference.Some?
    ensures 1 <= n <= c.most.value
  {
    Clamped(if gap.Some? then Scaled(c.base, gap.value, c.reference.value) else c.base as real, c.most.value)
  }

  function Scaled(base: nat, gap: nat, reference: nat): real
    requires reference > 0
  {
    base as real * gap as real / reference as real
  }

  /** From 1 to the most allowed, rounded down. */
  function Clamped(blocks: real, most: nat): (n: nat)
    requires most > 0
    ensures 1 <= n <= most
  {
    (if blocks < 1.0 then 1.0 else if blocks > most as real then most as real else blocks).Floor
  }

  lemma ClampedWithin(blocks: real, n: nat, most: nat)
    requires most > 0 && n as real <= blocks < n as real + 1.0
    ensures Clamped(blocks, most) == Within(n, most)
  {
    assert blocks.Floor == n;
  }

  function Within(n: nat, most: nat): nat { if n < 1 then 1 else if n > most then most else n }

  lemma Divide(a: real, b: real, q: real)
    requires b > 0.0 && q * b <= a < (q + 1.0) * b
    ensures q <= a / b < q + 1.0
  {
    var x := a / b;
    assert x * b == a;
    if x < q { LessTimes(x, q, b); }
    if x >= q + 1.0 { AtMostTimes(q + 1.0, x, b); }
  }

  lemma AtMostTimes(x: real, y: real, b: real)
    requires b > 0.0 && x <= y
    ensures x * b <= y * b
  {}

  lemma LessTimes(x: real, y: real, b: real)
    requires b > 0.0 && x < y
    ensures x * b < y * b
  {}

  /** A quotient of whole numbers lies at or above the rounded one, and less than one above it. */
  lemma QuotientFloor(a: nat, b: nat)
    requires b > 0
    ensures (a / b) as real <= a as real / b as real < (a / b) as real + 1.0
  {
    var q, r := a / b, a % b;
    assert a == q * b + r;
    Product(q, b);
    Product(q + 1, b);
    assert (q + 1) * b == q * b + b;
    assert (q + 1) as real == q as real + 1.0;
    Divide(a as real, b as real, q as real);
  }

  lemma QuotientOrder(a: nat, b: nat, d: nat)
    requires d > 0 && a <= b
    ensures a / d <= b / d
  {
    var i, j := a / d, b / d;
    assert i * d <= a && b < j * d + d;
    assert (j + 1) * d == j * d + d;
    FactorOrder(i, j + 1, d);
  }

  lemma FactorOrder(i: nat, j: nat, d: nat)
    requires i * d < j * d
    ensures i < j
  {
    if j <= i { ProductOrder(d, j, i); }
  }

  lemma Product(base: nat, gap: nat)
    ensures base as real * gap as real == (base * gap) as real
  {}

  lemma ScaledFloor(base: nat, gap: nat, reference: nat) returns (n: nat)
    requires reference > 0
    ensures n == base * gap / reference && n as real <= Scaled(base, gap, reference) < n as real + 1.0
  {
    Product(base, gap);
    QuotientFloor(base * gap, reference);
    n := base * gap / reference;
  }

  /** In whole numbers: the base scaled by the gap over the reference, rounded down, from 1 to the most allowed. */
  lemma BlocksScale(c: Settings, gap: nat)
    requires Accepted(c) && c.reference.Some?
    ensures EvictionBlocks(c, Some(gap)) == Within(c.base * gap / c.reference.value, c.most.value)
  {
    var n := ScaledFloor(c.base, gap, c.reference.value);
    ClampedWithin(Scaled(c.base, gap, c.reference.value), n, c.most.value);
  }

  /** A block that has not been used again is evicted as if it had come back after the reference gap: by the base, from 1
      to the most allowed. */
  lemma BlocksWithoutGap(c: Settings)
    requires Accepted(c) && c.reference.Some?
    ensures EvictionBlocks(c, None) == Within(c.base, c.most.value)
    ensures EvictionBlocks(c, None) == EvictionBlocks(c, Some(c.reference.value))
  {
    ClampedWithin(c.base as real, c.base, c.most.value);
    BlocksScale(c, c.reference.value);
    FactorOut(c.base, c.reference.value);
  }

  lemma FactorOut(a: nat, d: nat)
    requires d > 0
    ensures a * d / d == a
  {
    var q := a * d / d;
    assert (q + 1) * d == q * d + d && (a + 1) * d == a * d + d;
    FactorOrder(q, a + 1, d);
    FactorOrder(a, q + 1, d);
  }

  /** Blocks that come back after longer gaps are evicted in no smaller numbers. */
  lemma LongerGapsEvictMore(c: Settings, a: nat, b: nat)
    requires Accepted(c) && c.reference.Some? && a <= b
    ensures EvictionBlocks(c, Some(a)) <= EvictionBlocks(c, Some(b))
  {
    BlocksScale(c, a);
    BlocksScale(c, b);
    ProductOrder(c.base, a, b);
    QuotientOrder(c.base * a, c.base * b, c.reference.value);
  }

  lemma ProductOrder(base: nat, a: nat, b: nat)
    requires a <= b
    ensures base * a <= base * b
  {}

  lemma ContextVictimHolds(t: Tree, x: Index, budget: real, victim: Id)
    requires Indexes(t, x) && ContextVictim(t, x, budget, victim)
    ensures exists r :: r in x.residents && r in t.parent && Leaf(t, r) == victim
  {
    var keys: seq<Key>, best: Key :| Chosen(t, x, budget, keys, best) && best.node == victim;
    var i :| 0 <= i < |keys| && keys[i] == best;
    assert OpenIn(t, x, keys[i]);
    PublishedIsNewest(t, x, 0, best);
  }

  /** How long a block is kept after its last access, given the growth of its session. */
  function Retention(c: Settings, growth: nat): real
    requires c.retention.Some?
  {
    c.retention.value as real + c.rate * growth as real
  }

  /** Every block by which the last request of a session was longer than the one before keeps its blocks for the same
      time longer: without growth they are kept for the retention time, and a segment that is dropped after some growth
      would have been dropped after less. */
  lemma GrowthKeepsLonger(t: Tree, residents: set<Id>, times: map<Id, nat>, now: nat, c: Settings, less: nat,
                      more: nat, e: Id)
    requires Accepted(c) && c.retention.Some? && less <= more && Grown(t) && residents <= times.Keys
    ensures Retention(c, 0) == c.retention.value as real && Retention(c, more + 1) - Retention(c, more) == c.rate
    ensures Stale(t, residents, times, now, Retention(c, more), e) ==> Stale(t, residents, times, now,
            Retention(c, less), e)
    ensures Stale(t, residents, times, now, Retention(c, more), e) ==> Stale(t, residents, times, now,
            c.retention.value as real, e)
  {
    RateOrder(c.rate, 0, less);
    RateOrder(c.rate, less, more);
    OneMoreBlock(c.rate, more);
    StaleSooner(t, residents, times, now, Retention(c, less), Retention(c, more), e);
    StaleSooner(t, residents, times, now, c.retention.value as real, Retention(c, more), e);
  }

  lemma StaleSooner(t: Tree, residents: set<Id>, times: map<Id, nat>, now: nat, low: real, high: real, e: Id)
    requires Grown(t) && residents <= times.Keys && low <= high
    ensures Stale(t, residents, times, now, high, e) ==> Stale(t, residents, times, now, low, e)
  {}

  lemma RateOrder(rate: real, a: nat, b: nat)
    requires rate >= 0.0 && a <= b
    ensures rate * a as real <= rate * b as real && rate * 0 as real == 0.0
  {}

  lemma OneMoreBlock(rate: real, a: nat)
    ensures rate * (a + 1) as real == rate * a as real + rate
  {
    assert (a + 1) as real == a as real + 1.0;
  }

  /** The victim's newest block speaks for its segment: the segment is dropped exactly if all its blocks are older
      than that block's session allows, and the size of the eviction follows from that block's last gap. */
  method Evict(p: Indexed, record: Record, t: Tree, times: map<Id, nat>, now: nat, c: Settings, ghost log: seq<Step>)
    returns (d: Eviction, ghost newest: Id)
    requires Indexes(t, p.View()) && |p.groups| == 1 && p.residents != map[] && Timely(Recencies(p.View()), times, now)
    requires Accepted(c) && record.growing == (c.rate > 0.0)
    requires record.Follows(log) && p.residents.Keys == InMemory(log)
    ensures p.residents.Keys <= times.Keys
    ensures EvictionOk(t, p.residents.Keys, d) && ContextVictim(t, p.View(), c.budget, d.endpoint) && !d.reclaimParent
    ensures newest in p.residents && newest in t.parent && Leaf(t, newest) == d.endpoint
    ensures NewestOf(t, Recencies(p.View()), d.endpoint, p.residents[newest].recency)
    ensures Users(log, newest) != [] && InOrder(Users(log, newest))
    ensures var use := UseOf(Users(log, newest), Given(log, record.growing, newest));
      && (d.drop <==> c.retention.Some?
                      && Stale(t, p.residents.Keys, times, now, Retention(c, use.growth), d.endpoint))
      && (c.reference.Some? ==> d.most == EvictionBlocks(c, use.gap))
      && (c.reference.None? ==> d.most == if c.most.Some? then c.most.value else |p.residents|)
  {
    var k := FindVictim(p, t, c.budget);
    newest := k.node;
    assert k.node in p.residents.Keys;
    UseRecorded(record, log, k.node);
    d := Judge(p, t, times, now, c, k, record.uses[k.node]);
    VictimDecides(t, p.residents.Keys, d.endpoint, k.node, d);
  }

  /** The decision on the segment of a newest block with this record. */
  method Judge(p: Indexed, t: Tree, times: map<Id, nat>, now: nat, c: Settings, k: Key, use: Use) returns (d: Eviction)
    requires Indexes(t, p.View()) && Timely(Recencies(p.View()), times, now) && Accepted(c)
    requires k.node in p.residents && p.residents[k.node].recency == k.recency && k.node in t.parent
    requires NewestOf(t, Recencies(p.View()), Leaf(t, k.node), k.recency)
    ensures p.residents.Keys <= times.Keys && d.endpoint == Leaf(t, k.node) && !d.reclaimParent && d.most > 0
    ensures d.drop <==> c.retention.Some?
                        && Stale(t, p.residents.Keys, times, now, Retention(c, use.growth), d.endpoint)
    ensures c.reference.Some? ==> d.most == EvictionBlocks(c, use.gap)
    ensures c.reference.None? ==> d.most == if c.most.Some? then c.most.value else |p.residents|
  {
    var limit := if c.retention.Some? then Retention(c, use.growth) else 0.0;
    NewestDecides(t, p.View(), times, now, limit, Leaf(t, k.node), k);
    assert p.residents.Keys != {} by { assert k.node in p.residents.Keys; }
    var most := if c.reference.Some? then EvictionBlocks(c, use.gap) else if c.most.Some? then c.most.value else |p.residents|;
    d := Eviction(Leaf(t, k.node), c.retention.Some? && (now - times[k.node]) as real > limit, false, most);
  }

  /** The newest block of the segment that the policy chooses. */
  method FindVictim(p: Indexed, t: Tree, budget: real) returns (k: Key)
    requires Indexes(t, p.View()) && |p.groups| == 1 && p.residents != map[]
    ensures k.node in p.residents && p.residents[k.node].recency == k.recency && k.node in t.parent
    ensures ContextVictim(t, p.View(), budget, Leaf(t, k.node)) && NewestOf(t, Recencies(p.View()), Leaf(t, k.node), k.recency)
  {
    var victim := SelectVictim(p, t, budget);
    ContextVictimHolds(t, p.View(), budget, victim);
    k := NewestMember(p, t, victim);
  }

  lemma UseRecorded(record: Record, log: seq<Step>, n: Id)
    requires record.Follows(log) && n in InMemory(log)
    ensures Users(log, n) != [] && InOrder(Users(log, n)) && n in record.uses
    ensures record.uses[n] == UseOf(Users(log, n), Given(log, record.growing, n))
  {
    ResidentUsed(log, n);
    assert UseOk(log, record.growing, record.uses, n);
  }
}
