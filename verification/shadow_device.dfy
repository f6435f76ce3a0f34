/** The pool as it is kept in memory: fields updated in place, proved against the steps of `ShadowPool`. */
module ShadowDevice {
  import opened Prelude
  import opened ShadowPool
  import opened ShadowInvariant
  import opened ShadowHost
  import opened ShadowTimes

  class Device {
    const ppb: nat
    const limit: nat
    var blocks: seq<Block>
    var open: seq<Option<nat>>
    var free: set<FreeEntry>
    var mapping: map<Key, Location>
    var active: int
    var host: nat
    var collected: nat
    var erases: nat

    function View(): State
      reads this
    {
      State(ppb, limit, blocks, open, free, mapping, active, host, collected, erases)
    }

    /** `n` erased blocks; the active limit is any number from 1 to `n - 1`. */
    constructor (n: nat, streams: nat, pagesPerBlock: nat, activeLimit: nat)
      requires 0 < streams && 0 < pagesPerBlock && 0 < activeLimit < n
      ensures View() == Fresh(n, streams, pagesPerBlock, activeLimit) && Valid(View())
    {
      ppb, limit := pagesPerBlock, activeLimit;
      blocks := seq(n, _ => ERASED);
      open := seq(streams, _ => None);
      free := set i | 0 <= i < n :: FreeEntry(0, i);
      mapping, active, host, collected, erases := map[], 0, 0, 0, 0;
      new;
      FreshValid(n, streams, pagesPerBlock, activeLimit);
    }

    method TrimPage(key: Key)
      requires Valid(View())
      modifies this
      ensures View() == Trim(old(View()), key)
    {
      if key in mapping {
        assert KeyOk(View(), |blocks|, 0, key);
        var loc := mapping[key];
        var b := blocks[loc.block];
        assert BlockOk(View(), loc.block);
        LiveSlotCounted(b, loc.slot);
        blocks := blocks[loc.block := b.(slots := b.slots[loc.slot := b.slots[loc.slot].(valid := false)],
                                         live := b.live - 1)];
        mapping := mapping - {key};
      }
    }

    /** Takes the top of the free heap as the frontier of `stream`. */
    method TakeErased(stream: nat, now: nat)
      requires Shaped(View()) && free != {} && stream < |open|
      modifies this
      ensures View() == OpenBlock(old(View()), stream, now)
    {
      var e := LeastFree(free);
      free := free - {e};
      blocks := blocks[e.id := blocks[e.id].(slots := [], live := 0, stream := stream, active := true, lastWrite := now)];
      active := active + 1;
      open := open[stream := Some(e.id)];
    }

    /** Programs the next slot of a frontier; the caller records the returned location in the page map. */
    method Program(id: nat, key: Key, now: nat, gc: bool) returns (loc: Location)
      requires Shaped(View()) && id < |blocks| && key.stream < |open|
      modifies this
      ensures View() == Push(old(View()), id, key, now, gc)
      ensures loc == Location(id, |old(blocks)[id].slots|)
    {
      var b := blocks[id];
      loc := Location(id, |b.slots|);
      b := b.(slots := b.slots + [Slot(key, true)], live := b.live + 1, lastWrite := now);
      blocks := blocks[id := b];
      if gc { collected := collected + 1; } else { host := host + 1; }
      if |b.slots| == ppb { open := open[key.stream := None]; }
    }

    method MovePage(key: Key, now: nat) returns (ok: bool)
      requires Shaped(View()) && key.stream < |open|
      modifies this
      ensures ok == Move(old(View()), key, now).Ok?
      ensures ok ==> View() == Move(old(View()), key, now).value
    {
      if open[key.stream].None? {
        if free == {} { return false; }
        TakeErased(key.stream, now);
      }
      var loc := Program(open[key.stream].value, key, now, true);
      mapping := mapping[key := loc];
      return true;
    }

    method PickVictim() returns (victim: Option<nat>)
      ensures victim == Victim(View())
    {
      victim := None;
      for i := 0 to |blocks|
        invariant victim == VictimAmong(View(), i)
      {
        if Collectible(View(), i) && (victim.None? || Better(View(), i, victim.value)) {
          victim := Some(i);
        }
      }
    }

    /** Copies the current pages among `slots` to the frontiers of their streams. */
    method MovePages(slots: seq<Slot>, now: nat) returns (ok: bool)
      requires Shaped(View()) && forall x <- slots :: x.key.stream < |open|
      modifies this
      ensures ok == MoveLive(old(View()), slots, now).Ok?
      ensures ok ==> View() == MoveLive(old(View()), slots, now).value
    {
      assert slots[0..] == slots;
      for j := 0 to |slots|
        invariant Shaped(View()) && |open| == |old(open)|
        invariant MoveLive(View(), slots[j..], now) == MoveLive(old(View()), slots, now)
      {
        assert slots[j..][0] == slots[j] && slots[j..][1..] == slots[j + 1..];
        if slots[j].valid {
          var moved := MovePage(slots[j].key, now);
          if !moved { return false; }
        }
      }
      return true;
    }

    method EraseVictim(v: nat)
      requires Shaped(View()) && v < |blocks|
      modifies this
      ensures View() == Erase(old(View()), v)
    {
      var b := blocks[v];
      blocks := blocks[v := b.(slots := [], live := 0, active := false, erases := b.erases + 1)];
      erases := erases + 1;
      active := active - 1;
      free := free + {FreeEntry(b.erases + 1, v)};
    }

    /** Copies the victim's current pages to the frontier of its stream, then erases it. */
    method CollectOnce(now: nat) returns (r: Outcome<bool>)
      requires Valid(View())
      modifies this
      ensures Valid(View()) && |open| == |old(open)| && mapping.Keys == old(mapping).Keys
      ensures r.Ok? && Collect(old(View()), now) == Ok(Collection(View(), r.value))
      ensures Since(old(View()), View(), now) == true
    {
      CollectKeeps(View(), now);
      CollectSince(View(), now);
      var victim := PickVictim();
      if victim.None? { return Ok(false); }
      var v := victim.value;
      assert BlockOk(View(), v);
      var b := blocks[v];
      if free == {} && b.live != 0 && (open[b.stream].None? || ppb - |blocks[open[b.stream].value].slots| < b.live) {
        return Ok(false);
      }
      var ok := MovePages(b.slots, now);
      if !ok { return Exhausted; }
      EraseVictim(v);
      return Ok(true);
    }

    /** A frontier for a host write, collecting first while too many blocks are in use. */
    method AllocateFrontier(stream: nat, now: nat) returns (ok: bool)
      requires Valid(View()) && stream < |open| && open[stream].None?
      modifies this
      ensures ok == Allocate(old(View()), stream, now).Ok?
      ensures ok ==> View() == Allocate(old(View()), stream, now).value
    {
      ghost var goal := Reclaim(View(), stream, now);
      ReclaimKeeps(View(), stream, now);
      while active >= limit
        invariant Valid(View()) && |open| == |old(open)| && open[stream].None?
        invariant Reclaim(View(), stream, now) == goal
        decreases Stale(View())
      {
        CollectKeeps(View(), now);
        StaleNonnegative(View());
        var r := CollectOnce(now);
        if !r.value { break; }
        if open[stream].Some? { return true; }
      }
      assert View() == goal.value;
      if free == {} {
        var _ := CollectOnce(now);
      }
      if free == {} { return false; }
      TakeErased(stream, now);
      return true;
    }

    /** The block that holds a page was last programmed at this time. */
    predicate WrittenAt(key: Key, now: nat)
      reads this
    {
      key in mapping && mapping[key].block < |blocks| && blocks[mapping[key].block].lastWrite == now
    }

    /** A host write. It fails exactly when the pool is cornered, and then only the old copy is gone. */
    method WritePage(key: Key, now: nat) returns (ok: bool)
      requires Valid(View()) && key.stream < |open|
      modifies this
      ensures ok == Write(old(View()), key, now).Ok? == !Cornered(Trim(old(View()), key), key.stream)
      ensures ok ==> View() == Write(old(View()), key, now).value && Valid(View())
      ensures ok ==> mapping.Keys == old(mapping).Keys + {key}
      ensures ok ==> Since(old(View()), View(), now) == WrittenAt(key, now) == true
      ensures old(free) != {} && Roomy(old(View()), |old(mapping).Keys - {key}|) ==> ok && free != {}
    {
      TrimKeeps(View(), key);
      WriteKeeps(View(), key, now);
      WriteSince(View(), key, now);
      TrimPage(key);
      ok := AppendPage(key, now);
    }

    /** Appends the host's copy of a page that is not mapped, on a new frontier if the stream has none. */
    method AppendPage(key: Key, now: nat) returns (ok: bool)
      requires Valid(View()) && key.stream < |open| && key !in mapping
      modifies this
      ensures ok == Append(old(View()), key, now).Ok?
      ensures ok ==> View() == Append(old(View()), key, now).value
      ensures ok ==> Since(old(View()), View(), now) == WrittenAt(key, now) == true
    {
      AppendSince(View(), key, now);
      if open[key.stream].None? {
        AllocateKeeps(View(), key.stream, now);
        var found := AllocateFrontier(key.stream, now);
        if !found { return false; }
      }
      var loc := Program(open[key.stream].value, key, now, false);
      mapping := mapping[key := loc];
      return true;
    }
  }
}
