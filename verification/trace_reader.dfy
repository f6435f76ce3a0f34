/** Reading a canonical trace: the checks on its rows, in the order of the rows. */
module TraceReader {
  import opened Prelude
  import opened Tiers
  import opened Trace
  import opened Commands

  /** The streams of each tier and its capacity in sectors. */
  datatype Geometry = Geometry(streams: Pair<nat>, sectors: Pair<nat>)

  /** A row is read if it is not empty, names a stream and sectors of its tier, comes in order, and depends on an earlier
      row at most. */
  ghost predicate RowOk(rows: seq<Event>, g: Geometry, k: nat)
    requires k < |rows|
  {
    && EventOk(rows, k)
    && (k > 0 ==> rows[k - 1].timestamp <= rows[k].timestamp)
    && rows[k].stream < g.streams.At(rows[k].tier)
    && rows[k].start + rows[k].count <= g.sectors.At(rows[k].tier)
  }

  ghost predicate Readable(rows: seq<Event>, g: Geometry) { forall k | 0 <= k < |rows| :: RowOk(rows, g, k) }

  lemma ReadableChained(rows: seq<Event>, g: Geometry)
    requires Readable(rows, g)
    ensures Chained(rows)
  {
    forall k | 0 <= k < |rows| ensures EventOk(rows, k) { assert RowOk(rows, g, k); }
  }

  /** The rows before `i` have been read. */
  ghost predicate ReadTo(rows: seq<Event>, g: Geometry, i: nat, seen: set<nat>, lastSequence: int, lastTime: int) {
    && i <= |rows| && (forall k | 0 <= k < i :: RowOk(rows, g, k))
    && (forall q :: q in seen <==> exists k :: 0 <= k < i && rows[k].sequence == q)
    && (if i == 0 then lastSequence == lastTime == -1 else lastSequence == rows[i - 1].sequence && lastTime == rows[i - 1].timestamp)
    && forall q <- seen :: q <= lastSequence
  }

  lemma ReadNext(rows: seq<Event>, g: Geometry, i: nat, seen: set<nat>, lastSequence: int, lastTime: int)
    requires ReadTo(rows, g, i, seen, lastSequence, lastTime) && i < |rows| && RowOk(rows, g, i)
    ensures ReadTo(rows, g, i + 1, seen + {rows[i].sequence}, rows[i].sequence, rows[i].timestamp)
  {
    var more := seen + {rows[i].sequence};
    forall q ensures q in more <==> exists k :: 0 <= k < i + 1 && rows[k].sequence == q {
      if q in seen { var k :| 0 <= k < i && rows[k].sequence == q; assert k < i + 1; }
    }
  }

  /** Reads the rows of a trace up to the first that is refused. */
  method ReadRows(rows: seq<Event>, g: Geometry) returns (ok: bool)
    ensures ok <==> Readable(rows, g)
    ensures ok ==> Chained(rows)
  {
    var seen: set<nat> := {};
    var lastSequence: int, lastTime: int := -1, -1;
    for i := 0 to |rows|
      invariant ReadTo(rows, g, i, seen, lastSequence, lastTime)
    {
      var row := rows[i];
      ok := Accepted(rows, g, i, seen, lastSequence, lastTime);
      if !ok {
        assert !RowOk(rows, g, i);
        return;
      }
      ReadNext(rows, g, i, seen, lastSequence, lastTime);
      seen, lastSequence, lastTime := seen + {row.sequence}, row.sequence, row.timestamp;
    }
    ok := true;
    ReadableChained(rows, g);
  }

  method Accepted(rows: seq<Event>, g: Geometry, i: nat, seen: set<nat>, lastSequence: int, lastTime: int) returns (ok: bool)
    requires ReadTo(rows, g, i, seen, lastSequence, lastTime) && i < |rows|
    ensures ok <==> RowOk(rows, g, i)
  {
    var row := rows[i];
    if row.sequence <= lastSequence || row.sequence in seen { return false; }
    if row.timestamp < lastTime { return false; }
    if row.stream >= g.streams.At(row.tier) { return false; }
    if row.count == 0 { return false; }
    if row.start + row.count > g.sectors.At(row.tier) { return false; }
    ok := row.depends.None? || row.depends.value in seen;
  }
}
