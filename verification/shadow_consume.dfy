/** How the shadow pools follow the trace: every block of the trace is a run of pages of its stream. */
module ShadowConsume {
  import opened Prelude
  import Trace
  import opened ShadowPool
  import opened ShadowInvariant
  import opened ShadowHost
  import ShadowDevice

  /** The first `n` pages of the block at an address; a block has `size` pages. */
  function Pages(address: nat, size: nat, stream: nat, n: nat): (pages: set<Key>)
    ensures forall k :: k in pages <==> k.stream == stream && address * size <= k.page < address * size + n
  {
    if n == 0 then {} else Pages(address, size, stream, n - 1) + {Key(address * size + n - 1, stream)}
  }

  /** Blocks at different addresses share no page. */
  lemma PagesDisjoint(a: nat, b: nat, size: nat, stream: nat)
    requires a != b
    ensures Pages(a, size, stream, size) !! Pages(b, size, stream, size)
  {
    if a < b { Apart(a, b, size); } else { Apart(b, a, size); }
  }

  lemma Apart(a: nat, b: nat, size: nat)
    requires a < b
    ensures a * size + size <= b * size
  {
    assert b * size == a * size + (b - a) * size;
    assert (b - a) * size >= size by {
      if b - a > 1 { assert (b - a) * size == size + (b - a - 1) * size; }
    }
  }

  method TrimOne(d: ShadowDevice.Device, key: Key)
    requires Valid(d.View())
    modifies d
    ensures Valid(d.View()) == true && d.mapping.Keys == old(d.mapping.Keys) - {key} && |d.open| == old(|d.open|)
  {
    TrimKeeps(d.View(), key);
    d.TrimPage(key);
  }

  lemma WriteKeepsStreams(s: Pool, key: Key, now: nat)
    requires Valid(s) && key.stream < |s.open| && Write(s, key, now).Ok?
    ensures |Write(s, key, now).value.open| == |s.open|
  {
    WriteKeeps(s, key, now);
  }

  method WriteOne(d: ShadowDevice.Device, key: Key, now: nat) returns (ok: bool)
    requires Valid(d.View()) && key.stream < |d.open|
    modifies d
    ensures ok ==> Valid(d.View()) == true && d.mapping.Keys == old(d.mapping.Keys) + {key} && |d.open| == old(|d.open|)
  {
    ghost var s := d.View();
    ok := d.WritePage(key, now);
    if ok { WriteKeepsStreams(s, key, now); }
  }

  /** Page `i` of a block is written or trimmed. */
  method ConsumePage(d: ShadowDevice.Device, write: bool, address: nat, size: nat, stream: nat, i: nat, now: nat,
                     ghost before: set<Key>) returns (ok: bool)
    requires Valid(d.View()) && stream < |d.open|
    requires d.mapping.Keys == Reached(before, write, address, size, stream, i)
    modifies d
    ensures !write ==> ok
    ensures ok ==> Valid(d.View()) && |d.open| == old(|d.open|)
    ensures ok ==> d.mapping.Keys == Reached(before, write, address, size, stream, i + 1)
  {
    var key := Key(address * size + i, stream);
    ok := true;
    if write {
      ok := WriteOne(d, key, now);
    } else {
      TrimOne(d, key);
    }
  }

  /** The mapped pages after the first `i` pages of a block. */
  function Reached(before: set<Key>, write: bool, address: nat, size: nat, stream: nat, i: nat): set<Key> {
    if write then before + Pages(address, size, stream, i) else before - Pages(address, size, stream, i)
  }

  /** Follows one line of the trace: a write maps exactly the block's pages, unless the pool runs out of space, a
      trim unmaps exactly them, a read changes nothing. */
  method Consume(d: ShadowDevice.Device, op: Trace.Operation, address: nat, size: nat, stream: nat, now: nat) returns (ok: bool)
    requires Valid(d.View()) && stream < |d.open|
    modifies d
    ensures !op.Write? ==> ok
    ensures ok ==> Valid(d.View()) && |d.open| == old(|d.open|)
    ensures op.Read? ==> d.View() == old(d.View())
    ensures op.Write? && ok ==> d.mapping.Keys == old(d.mapping.Keys) + Pages(address, size, stream, size)
    ensures op.Trim? ==> d.mapping.Keys == old(d.mapping.Keys) - Pages(address, size, stream, size)
  {
    ok := true;
    if op.Read? { return; }
    ghost var before := d.mapping.Keys;
    for i := 0 to size
      invariant Valid(d.View()) && |d.open| == old(|d.open|) && ok
      invariant d.mapping.Keys == Reached(before, op.Write?, address, size, stream, i)
    {
      ok := ConsumePage(d, op.Write?, address, size, stream, i, now, before);
      if !ok { return; }
    }
  }
}
