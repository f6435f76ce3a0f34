/** The table of recently lost blocks: when each hash was last lost, kept for a day. */
module GhostTable {
  import opened Prelude

  const TTL_NS: nat := 24 * 3600 * 1_000_000_000

  datatype Expiry = Expiry(time: nat, id: nat)

  predicate Sooner(a: Expiry, b: Expiry) { a.time < b.time || (a.time == b.time && a.id <= b.id) }

  lemma {:induction false} SoonestExists(s: set<Expiry>)
    requires s != {}
    ensures exists e :: e in s && forall f <- s :: Sooner(e, f)
  {
    var e :| e in s;
    assert forall f <- s :: f == e || f in s - {e};
    if s != {e} {
      SoonestExists(s - {e});
      var m :| m in s - {e} && forall f <- s - {e} :: Sooner(m, f);
      var low := if Sooner(e, m) then e else m;
      assert low in s && forall f <- s :: Sooner(low, f);
    }
  }

  /** A hash counts as lost at `now` if its last loss is at most a day old. */
  ghost predicate Fresh(losses: map<nat, nat>, now: nat, id: nat) { id in losses && now <= losses[id] + TTL_NS }

  /** The longest prefix of a request that ends in a freshly lost hash. */
  ghost predicate LongestLost(losses: map<nat, nat>, now: nat, hashes: seq<nat>, longest: nat) {
    && longest <= |hashes|
    && (longest > 0 ==> Fresh(losses, now, hashes[longest - 1]))
    && (forall i | longest <= i < |hashes| :: !Fresh(losses, now, hashes[i]))
  }

  ghost predicate Listed(ghosts: map<nat, nat>, expirations: set<Expiry>, e: Expiry) {
    e in expirations <==> e.id in ghosts && ghosts[e.id] == e.time
  }

  ghost predicate Remembered(ghosts: map<nat, nat>, losses: map<nat, nat>, clock: nat, id: nat) {
    && (id in ghosts ==> id in losses && ghosts[id] == losses[id])
    && (id in losses ==> losses[id] <= clock && (id !in ghosts ==> clock > losses[id] + TTL_NS))
  }

  class Ghosts {
    const tuning: bool                   // whether losses are recorded at all
    var ghosts: map<nat, nat>
    var expirations: set<Expiry>
    ghost var losses: map<nat, nat>      // when each hash was last lost, for ever
    ghost var clock: nat                 // the last time the table was used

    /** The order of expiry lists the table; what is missing from the table was lost more than a day ago. */
    ghost predicate Valid()
      reads this
    {
      (forall e :: Listed(ghosts, expirations, e)) && (forall id :: Remembered(ghosts, losses, clock, id))
    }

    /** The table holds exactly the freshly lost hashes. */
    ghost predicate Current()
      reads this
    {
      Valid() && forall id :: id in ghosts <==> Fresh(losses, clock, id)
    }

    constructor (onlineTuning: bool)
      ensures Valid() && losses == map[] && clock == 0 && tuning == onlineTuning
    {
      tuning := onlineTuning;
      ghosts, expirations, losses, clock := map[], {}, map[], 0;
    }

    method ExpireGhosts(now: nat)
      requires Valid() && clock <= now
      modifies this`ghosts, this`expirations, this`clock
      ensures Current() && clock == now
    {
      forall id: nat ensures Remembered(ghosts, losses, now, id) { assert Remembered(ghosts, losses, clock, id); }
      clock := now;
      while expirations != {}
        invariant clock == now && Valid()
        decreases expirations
      {
        SoonestExists(expirations);
        var e :| e in expirations && forall f <- expirations :: Sooner(e, f);
        if !(now > e.time && now - e.time > TTL_NS) { break; }
        ghost var before, listed := ghosts, expirations;
        assert Listed(before, listed, e);
        ghosts := ghosts - {e.id};
        expirations := expirations - {e};
        forall f ensures Listed(ghosts, expirations, f) { assert Listed(before, listed, f); }
        forall id: nat ensures Remembered(ghosts, losses, clock, id) { assert Remembered(before, losses, clock, id); }
      }
      forall id: nat ensures id in ghosts <==> Fresh(losses, clock, id) {
        assert Remembered(ghosts, losses, clock, id);
        if id in ghosts { assert Listed(ghosts, expirations, Expiry(ghosts[id], id)); }
      }
    }

    /** A block left both memory and storage. */
    method RecordLoss(id: nat, now: nat)
      requires Valid() && clock <= now
      modifies this
      ensures Valid() && losses == if tuning then old(losses)[id := now] else old(losses)
      ensures if tuning then Current() && clock == now
              else ghosts == old(ghosts) && expirations == old(expirations) && clock == old(clock)
    {
      if !tuning { return; }
      ExpireGhosts(now);
      ghost var before, listed, known := ghosts, expirations, losses;
      if id in ghosts { expirations := expirations - {Expiry(ghosts[id], id)}; }
      ghosts := ghosts[id := now];
      expirations := expirations + {Expiry(now, id)};
      losses := losses[id := now];
      forall e ensures Listed(ghosts, expirations, e) { assert Listed(before, listed, e); }
      forall i: nat ensures Remembered(ghosts, losses, clock, i) { assert Remembered(before, known, clock, i); }
      forall i: nat ensures i in ghosts <==> Fresh(losses, clock, i) { assert i in before <==> Fresh(known, clock, i); }
    }

    /** How much of a request was cached a day ago at most, judged by its lost hashes. */
    method GhostPrefix(hashes: seq<nat>, now: nat) returns (longest: nat)
      requires Valid() && clock <= now
      modifies this`ghosts, this`expirations, this`clock
      ensures Current() && clock == now && LongestLost(losses, now, hashes, longest)
    {
      ExpireGhosts(now);
      longest := 0;
      for i := 0 to |hashes|
        invariant longest <= i && (longest > 0 ==> Fresh(losses, now, hashes[longest - 1]))
        invariant forall k | longest <= k < i :: !Fresh(losses, now, hashes[k])
      {
        if hashes[i] in ghosts { longest := i + 1; }
      }
    }
  }
}
