/** Cutting tables of requests into bounded batches that own their buffers. */
module Batching {
  import opened Prelude

  datatype Request = Request(timestamp: nat, id: nat, affinity: nat, hashes: seq<nat>)

  /** Columns of requests; request `i` has the hashes between offsets `i` and `i + 1`. */
  datatype Table = Table(timestamps: seq<nat>, ids: seq<nat>, affinities: seq<nat>, offsets: seq<nat>, values: seq<nat>)

  datatype Batch = Batch(sequence: nat, rows: Table)

  datatype Limits = Limits(batchRequests: nat, batchHashes: nat, maxRequestHashes: nat)

  ghost predicate Ascending(s: seq<nat>) { forall i, j | 0 <= i <= j < |s| :: s[i] <= s[j] }

  /** A well-formed list column: offsets ascend within the values. */
  ghost predicate Columns(t: Table) {
    && |t.timestamps| == |t.ids| == |t.affinities| == |t.offsets| - 1
    && Ascending(t.offsets) && t.offsets[|t.offsets| - 1] <= |t.values|
  }

  function Row(t: Table, i: nat): Request
    requires Columns(t) && i < |t.ids|
  {
    Request(t.timestamps[i], t.ids[i], t.affinities[i], t.values[t.offsets[i]..t.offsets[i + 1]])
  }

  /** The requests `a` to `b` of a table. */
  function Rows(t: Table, a: nat, b: nat): seq<Request>
    requires Columns(t) && a <= b <= |t.ids|
  {
    seq(b - a, k requires 0 <= k < b - a => Row(t, a + k))
  }

  function AllRows(t: Table): seq<Request>
    requires Columns(t)
  {
    Rows(t, 0, |t.ids|)
  }

  /** The buffers of a batch: copies of the column slices, with offsets made relative. */
  function Slice(t: Table, start: nat, stop: nat): Table
    requires Columns(t) && start <= stop <= |t.ids|
  {
    Table(t.timestamps[start..stop], t.ids[start..stop], t.affinities[start..stop],
          seq(stop - start + 1, k requires 0 <= k <= stop - start => t.offsets[start + k] - t.offsets[start]),
          t.values[t.offsets[start]..t.offsets[stop]])
  }

  lemma SliceOfSlice<T>(s: seq<T>, a: nat, b: nat, c: nat, d: nat)
    requires a <= c <= d <= b <= |s|
    ensures s[a..b][c - a..d - a] == s[c..d]
  {
    var u := s[a..b];
    forall k | 0 <= k < d - c ensures u[c - a..d - a][k] == s[c..d][k] { assert u[c - a + k] == s[c + k]; }
  }

  /** A slice holds exactly its requests. */
  lemma SliceRows(t: Table, start: nat, stop: nat)
    requires Columns(t) && start <= stop <= |t.ids|
    ensures Columns(Slice(t, start, stop)) && AllRows(Slice(t, start, stop)) == Rows(t, start, stop)
  {
    var u := Slice(t, start, stop);
    forall k | 0 <= k < stop - start ensures Row(u, k) == Row(t, start + k) {
      SliceOfSlice(t.values, t.offsets[start], t.offsets[stop], t.offsets[start + k], t.offsets[start + k + 1]);
    }
  }

  /** How many elements of an ascending list are at most `x`. */
  function UpperBound(s: seq<nat>, x: nat): (n: nat)
    requires Ascending(s)
    ensures n <= |s| && (forall i | 0 <= i < n :: s[i] <= x) && (forall i | n <= i < |s| :: x < s[i])
  {
    if s == [] then 0
    else if s[|s| - 1] <= x then |s|
    else UpperBound(s[..|s| - 1], x)
  }

  function Min(a: int, b: int): int { if a < b then a else b }
  function Max(a: int, b: int): int { if a > b then a else b }

  /** Where the batch that begins at row `start` ends. */
  function Stop(t: Table, start: nat, limits: Limits): int
    requires Columns(t) && start < |t.ids|
  {
    Max(start + 1, Min(Min(|t.ids|, start + limits.batchRequests),
                       UpperBound(t.offsets, t.offsets[start] + limits.batchHashes) - 1))
  }

  function HashesIn(t: Table, a: nat, b: nat): int
    requires Columns(t) && a <= b <= |t.ids|
  {
    t.offsets[b] - t.offsets[a]
  }

  ghost predicate RequestsFit(t: Table, limits: Limits) {
    Columns(t) && forall i | 0 <= i < |t.ids| :: t.offsets[i + 1] - t.offsets[i] <= limits.maxRequestHashes
  }

  /** A batch has at least one request; it keeps to the limits, except that a single request may exceed the
      preferred number of hashes; and it could not have taken one more request. */
  lemma StopOk(t: Table, start: nat, limits: Limits)
    requires Columns(t) && start < |t.ids| && limits.batchRequests > 0
    ensures var stop := Stop(t, start, limits);
      && start < stop <= |t.ids| && stop - start <= limits.batchRequests
      && (stop == start + 1 || HashesIn(t, start, stop) <= limits.batchHashes)
      && (stop == |t.ids| || stop - start == limits.batchRequests || HashesIn(t, start, stop + 1) > limits.batchHashes)
  {
    var n := UpperBound(t.offsets, t.offsets[start] + limits.batchHashes);
    assert n > start by { assert !(t.offsets[start] + limits.batchHashes < t.offsets[start]); }
  }

  // ---- Buffer sizes ----

  function NumBytes(rows: Table): nat {
    8 * (|rows.timestamps| + |rows.ids| + |rows.affinities| + |rows.offsets| + |rows.values|)
  }

  function MaxBatchBytes(limits: Limits): int {
    8 * (4 * limits.batchRequests + 1 + Max(limits.batchHashes, limits.maxRequestHashes))
  }

  /** Every batch fits the reservation made for it. */
  lemma BatchFits(t: Table, start: nat, limits: Limits)
    requires RequestsFit(t, limits) && start < |t.ids| && limits.batchRequests > 0
    ensures start < Stop(t, start, limits) <= |t.ids|
    ensures NumBytes(Slice(t, start, Stop(t, start, limits))) <= MaxBatchBytes(limits)
  {
    StopOk(t, start, limits);
  }

  // ---- The cutting loop ----

  function Contents(batches: seq<Batch>): seq<Request>
    requires forall b <- batches :: Columns(b.rows)
  {
    if batches == [] then [] else Contents(batches[..|batches| - 1]) + AllRows(batches[|batches| - 1].rows)
  }

  ghost predicate BatchOk(b: Batch, limits: Limits, sequence: nat) {
    && b.sequence == sequence && Columns(b.rows) && 0 < |b.rows.ids| <= limits.batchRequests
    && (|b.rows.ids| == 1 || |b.rows.values| <= limits.batchHashes)
    && NumBytes(b.rows) <= MaxBatchBytes(limits)
  }

  /** Batches are numbered from zero and keep to the limits. */
  ghost predicate BatchesOk(batches: seq<Batch>, limits: Limits) {
    forall i | 0 <= i < |batches| :: BatchOk(batches[i], limits, i)
  }

  lemma ContentsAppend(batches: seq<Batch>, b: Batch)
    requires (forall x <- batches :: Columns(x.rows)) && Columns(b.rows)
    ensures Contents(batches + [b]) == Contents(batches) + AllRows(b.rows)
  {
    assert (batches + [b])[..|batches|] == batches;
  }

  lemma AllColumns(batches: seq<Batch>, limits: Limits)
    requires BatchesOk(batches, limits)
    ensures forall b <- batches :: Columns(b.rows)
  {
    forall b | b in batches ensures Columns(b.rows) {
      var i :| 0 <= i < |batches| && batches[i] == b;
      assert BatchOk(batches[i], limits, i);
    }
  }

  /** The rows up to `start` have been cut. */
  ghost predicate CutTo(t: Table, limits: Limits, before: seq<Batch>, batches: seq<Batch>, start: nat) {
    && Columns(t) && start <= |t.ids| && before <= batches && BatchesOk(batches, limits)
    && (forall b <- before :: Columns(b.rows)) && (forall b <- batches :: Columns(b.rows))
    && Contents(batches) == Contents(before) + Rows(t, 0, start)
  }

  lemma RowsAppend(t: Table, a: nat, b: nat)
    requires Columns(t) && a <= b <= |t.ids|
    ensures Rows(t, 0, a) + Rows(t, a, b) == Rows(t, 0, b)
  {}

  lemma NextBatchOk(t: Table, limits: Limits, start: nat, sequence: nat)
    requires RequestsFit(t, limits) && start < |t.ids| && limits.batchRequests > 0
    ensures var stop := Stop(t, start, limits);
      && start < stop <= |t.ids|
      && BatchOk(Batch(sequence, Slice(t, start, stop)), limits, sequence)
      && AllRows(Slice(t, start, stop)) == Rows(t, start, stop)
  {
    StopOk(t, start, limits);
    BatchFits(t, start, limits);
    SliceRows(t, start, Stop(t, start, limits));
  }

  lemma CutNext(t: Table, limits: Limits, before: seq<Batch>, batches: seq<Batch>, start: nat, stop: nat, b: Batch)
    requires Columns(t) && start <= stop <= |t.ids| && CutTo(t, limits, before, batches, start)
    requires BatchOk(b, limits, |batches|) && AllRows(b.rows) == Rows(t, start, stop)
    ensures CutTo(t, limits, before, batches + [b], stop) == true
  {
    ContentsAppend(batches, b);
    RowsAppend(t, start, stop);
    var all, done, next := Contents(before), Rows(t, 0, start), Rows(t, start, stop);
    assert all + done + next == all + (done + next);
  }

  /** The batches of a table from row `start` on, each as long as `Stop` allows. */
  function Cuts(t: Table, limits: Limits, start: nat, sequence: nat): (cuts: seq<Batch>)
    requires Columns(t) && start <= |t.ids| && limits.batchRequests > 0
    decreases |t.ids| - start
  {
    if start == |t.ids| then []
    else
      StopOk(t, start, limits);
      var stop := Stop(t, start, limits);
      [Batch(sequence, Slice(t, start, stop))] + Cuts(t, limits, stop, sequence + 1)
  }

  /** The cutting is under way as it should be: what has been cut and what is still to come make up the whole. */
  ghost predicate OnCourse(t: Table, limits: Limits, before: seq<Batch>, batches: seq<Batch>, start: nat) {
    && Columns(t) && start <= |t.ids| && limits.batchRequests > 0
    && batches + Cuts(t, limits, start, |batches|) == before + Cuts(t, limits, 0, |before|)
  }

  lemma CourseNext(t: Table, limits: Limits, before: seq<Batch>, batches: seq<Batch>, start: nat)
    requires start < |t.ids| && OnCourse(t, limits, before, batches, start)
    ensures var stop := Stop(t, start, limits);
      && start < stop <= |t.ids|
      && OnCourse(t, limits, before, batches + [Batch(|batches|, Slice(t, start, stop))], stop) == true
  {
    StopOk(t, start, limits);
    var stop := Stop(t, start, limits);
    var batch, rest := Batch(|batches|, Slice(t, start, stop)), Cuts(t, limits, stop, |batches| + 1);
    assert batches + Cuts(t, limits, start, |batches|) == batches + ([batch] + rest) == (batches + [batch]) + rest;
  }

  /** Cuts one table; the batches together hold exactly its requests, in order, and each is as long as it may be. */
  method CutTable(t: Table, limits: Limits, before: seq<Batch>) returns (batches: seq<Batch>)
    requires RequestsFit(t, limits) && limits.batchRequests > 0 && BatchesOk(before, limits)
    ensures CutTo(t, limits, before, batches, |t.ids|) == OnCourse(t, limits, before, batches, |t.ids|) == true
  {
    batches := before;
    AllColumns(before, limits);
    assert Contents(before) + [] == Contents(before);
    var start := 0;
    while start < |t.ids|
      invariant CutTo(t, limits, before, batches, start) == OnCourse(t, limits, before, batches, start) == true
    {
      CourseNext(t, limits, before, batches, start);
      NextBatchOk(t, limits, start, |batches|);
      var stop := Stop(t, start, limits);
      var batch := Batch(|batches|, Slice(t, start, stop));
      CutNext(t, limits, before, batches, start, stop, batch);
      batches := batches + [batch];
      start := stop;
    }
  }

  /** Timestamps ascend within a table and from the table before. */
  ghost predicate TimesOk(t: Table, previous: Option<nat>) {
    && Ascending(t.timestamps)
    && (previous.Some? && t.timestamps != [] ==> previous.value <= t.timestamps[0])
  }

  function LastTime(t: Table, previous: Option<nat>): Option<nat> {
    if t.timestamps == [] then previous else Some(t.timestamps[|t.timestamps| - 1])
  }

  function LastOf(tables: seq<Table>): Option<nat> {
    if tables == [] then None else LastTime(tables[|tables| - 1], LastOf(tables[..|tables| - 1]))
  }

  /** A table is accepted after those before it. */
  ghost predicate TableOk(tables: seq<Table>, limits: Limits, i: nat)
    requires i < |tables|
  {
    |tables[i].ids| > 0 ==> TimesOk(tables[i], LastOf(tables[..i])) && RequestsFit(tables[i], limits)
  }

  function TableRows(tables: seq<Table>): seq<Request>
    requires forall t <- tables :: Columns(t)
  {
    if tables == [] then [] else TableRows(tables[..|tables| - 1]) + AllRows(tables[|tables| - 1])
  }

  method AscendingTimes(s: seq<nat>) returns (ok: bool)
    ensures ok <==> Ascending(s)
  {
    for i := 0 to |s|
      invariant forall j, k | 0 <= j <= k < i :: s[j] <= s[k]
    {
      if i > 0 && s[i] < s[i - 1] { return false; }
    }
    return true;
  }

  method RequestsWithin(t: Table, limits: Limits) returns (ok: bool)
    requires Columns(t)
    ensures ok <==> RequestsFit(t, limits)
  {
    for i := 0 to |t.ids|
      invariant forall k | 0 <= k < i :: t.offsets[k + 1] - t.offsets[k] <= limits.maxRequestHashes
    {
      if t.offsets[i + 1] - t.offsets[i] > limits.maxRequestHashes { return false; }
    }
    return true;
  }

  lemma TablesAppend(tables: seq<Table>, i: nat)
    requires i < |tables| && forall t <- tables :: Columns(t)
    ensures (forall t <- tables[..i] :: Columns(t)) && (forall t <- tables[..i + 1] :: Columns(t))
    ensures TableRows(tables[..i + 1]) == TableRows(tables[..i]) + AllRows(tables[i])
    ensures LastOf(tables[..i + 1]) == LastTime(tables[i], LastOf(tables[..i]))
  {
    assert tables[..i + 1][..i] == tables[..i] && tables[..i + 1][i] == tables[i];
  }

  /** The first tables have been accepted and cut; nothing is lost or repeated at a cut or between tables. */
  ghost predicate TablesCut(tables: seq<Table>, limits: Limits, batches: seq<Batch>, accepted: nat) {
    && (forall t <- tables :: Columns(t)) && accepted <= |tables|
    && (forall i | 0 <= i < accepted :: TableOk(tables, limits, i))
    && BatchesOk(batches, limits) && (forall b <- batches :: Columns(b.rows))
    && (forall t <- tables[..accepted] :: Columns(t)) && Contents(batches) == TableRows(tables[..accepted])
  }

  lemma TablesCutNext(tables: seq<Table>, limits: Limits, batches: seq<Batch>, accepted: nat, more: seq<Batch>)
    requires accepted < |tables| && TablesCut(tables, limits, batches, accepted) && TableOk(tables, limits, accepted)
    requires if |tables[accepted].ids| > 0 then CutTo(tables[accepted], limits, batches, more, |tables[accepted].ids|) else more == batches
    ensures TablesCut(tables, limits, more, accepted + 1) == true
  {
    TablesAppend(tables, accepted);
    if |tables[accepted].ids| == 0 { assert AllRows(tables[accepted]) == []; }
  }

  /** Cuts tables one after another until one is rejected. The batches hold exactly the requests of the accepted
      tables, in order. */
  method CutTables(tables: seq<Table>, limits: Limits) returns (batches: seq<Batch>, accepted: nat)
    requires limits.batchRequests > 0 && forall t <- tables :: Columns(t)
    ensures TablesCut(tables, limits, batches, accepted)
    ensures accepted < |tables| ==> !TableOk(tables, limits, accepted)
  {
    batches, accepted := [], 0;
    var previous: Option<nat> := None;
    while accepted < |tables|
      invariant TablesCut(tables, limits, batches, accepted) && previous == LastOf(tables[..accepted])
    {
      var t := tables[accepted];
      TablesAppend(tables, accepted);
      ghost var before := batches;
      if |t.ids| > 0 {
        var ascending := AscendingTimes(t.timestamps);
        if !ascending || (previous.Some? && t.timestamps[0] < previous.value) { return; }
        previous := LastTime(t, previous);
        var within := RequestsWithin(t, limits);
        if !within { return; }
        batches := CutTable(t, limits, batches);
      }
      TablesCutNext(tables, limits, before, accepted, batches);
      accepted := accepted + 1;
    }
  }
}
