/** The block allocator of one storage tier: fresh addresses in order, recycled addresses first. */
module Allocator {
  import opened Prelude

  datatype Blocks = Blocks(next: nat, recycled: seq<nat>, used: int, peak: int)

  const UNUSED := Blocks(0, [], 0, 0)

  function NextAddress(b: Blocks): nat {
    if b.recycled == [] then b.next else b.recycled[|b.recycled| - 1]
  }

  function Taken(b: Blocks): Blocks {
    var used := b.used + 1;
    Blocks(if b.recycled == [] then b.next + 1 else b.next,
           if b.recycled == [] then [] else b.recycled[..|b.recycled| - 1],
           used, if used > b.peak then used else b.peak)
  }

  function Returned(b: Blocks, address: nat): Blocks {
    b.(recycled := b.recycled + [address], used := b.used - 1)
  }

  ghost predicate AddressOk(b: Blocks, occupied: set<nat>, a: nat) {
    if a < b.next then a in occupied <==> a !in b.recycled else a !in occupied && a !in b.recycled
  }

  /** `occupied` is exactly the addresses handed out and not returned: it and the recycled addresses split the
      range below `next`, no recycled address is listed twice, and `next` is the highest use so far. */
  ghost predicate Occupies(b: Blocks, occupied: set<nat>) {
    && Distinct(b.recycled)
    && (forall a :: AddressOk(b, occupied, a))
    && b.used == |occupied|
    && b.used + |b.recycled| == b.next
    && b.peak == b.next
  }

  /** An allocated address is unoccupied; it lies below the highest use. */
  lemma TakeOccupies(b: Blocks, occupied: set<nat>)
    requires Occupies(b, occupied)
    ensures NextAddress(b) !in occupied && NextAddress(b) < Taken(b).peak
    ensures Occupies(Taken(b), occupied + {NextAddress(b)})
  {
    var address, after := NextAddress(b), Taken(b);
    if b.recycled != [] {
      assert b.recycled == after.recycled + [address];
      assert forall a :: a in b.recycled <==> a in after.recycled || a == address;
    }
    assert AddressOk(b, occupied, address);
    forall a: nat ensures AddressOk(after, occupied + {address}, a) { assert AddressOk(b, occupied, a); }
  }

  /** A returned address can be handed out again. */
  lemma ReturnOccupies(b: Blocks, occupied: set<nat>, address: nat)
    requires Occupies(b, occupied) && address in occupied
    ensures Occupies(Returned(b, address), occupied - {address})
  {
    var after := Returned(b, address);
    assert forall a :: a in after.recycled <==> a in b.recycled || a == address;
    assert AddressOk(b, occupied, address);
    forall a: nat ensures AddressOk(after, occupied - {address}, a) { assert AddressOk(b, occupied, a); }
  }

  /** Taking an address and returning it leaves the same addresses occupied; only the peak remembers. */
  lemma TakeReturn(b: Blocks, occupied: set<nat>)
    requires Occupies(b, occupied)
    ensures Occupies(Returned(Taken(b), NextAddress(b)), occupied)
    ensures Returned(Taken(b), NextAddress(b)).used == b.used
  {
    TakeOccupies(b, occupied);
    ReturnOccupies(Taken(b), occupied + {NextAddress(b)}, NextAddress(b));
    assert occupied + {NextAddress(b)} - {NextAddress(b)} == occupied;
  }

  /** The same allocator with its fields updated in place. */
  class TierState {
    const capacity: nat
    var used: int
    var peak: int
    var next: nat
    var recycled: seq<nat>

    ghost function View(): Blocks
      reads this
    {
      Blocks(next, recycled, used, peak)
    }

    constructor (capacityBlocks: nat)
      ensures View() == UNUSED && Occupies(View(), {}) && capacity == capacityBlocks
    {
      capacity, used, peak, next, recycled := capacityBlocks, 0, 0, 0, [];
    }

    method Allocate(ghost occupied: set<nat>) returns (address: nat)
      requires Occupies(View(), occupied)
      modifies this
      ensures View() == Taken(old(View())) && address == NextAddress(old(View()))
      ensures address !in occupied && Occupies(View(), occupied + {address})
    {
      TakeOccupies(View(), occupied);
      if recycled == [] {
        address := next;
        next := next + 1;
      } else {
        address := recycled[|recycled| - 1];
        recycled := recycled[..|recycled| - 1];
      }
      used := used + 1;
      peak := if used > peak then used else peak;
    }

    method Release(address: nat, ghost occupied: set<nat>)
      requires Occupies(View(), occupied) && address in occupied
      modifies this
      ensures View() == Returned(old(View()), address) && Occupies(View(), occupied - {address})
    {
      ReturnOccupies(View(), occupied, address);
      recycled := recycled + [address];
      used := used - 1;
    }
  }
}
