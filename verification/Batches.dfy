/** Cutting a source stream into batches and collapsing each batch to the
    distinct identities it carries, with their occurrence counts. */
module Batches {
  import opened Rows

  const MAX_BATCH_SIZE := 10000
  const MAX_BATCH_BYTES := 0x800_0000

  /** size is the payload estimate of a row. */
  datatype Limits = Limits(rows: int, bytes: int, size: Row -> int)

  /** occ is how many rows of the batch carry this identity; row is the first of them. */
  datatype Candidate = Candidate(row: Row, occ: int)

  datatype Batch = Batch(table: Table, cands: seq<Candidate>, sourceRows: int, bytes: int)

  function Clamp(l: Limits): Limits {
    l.(rows := if l.rows <= 0 || l.rows > MAX_BATCH_SIZE then MAX_BATCH_SIZE else l.rows,
       bytes := if l.bytes <= 0 || l.bytes > MAX_BATCH_BYTES then MAX_BATCH_BYTES else l.bytes)
  }

  function Bytes(l: Limits, chunk: seq<Row>): int {
    if chunk == [] then 0 else Bytes(l, chunk[..|chunk| - 1]) + l.size(chunk[|chunk| - 1])
  }

  /** The row does not fit into the chunk being built. */
  predicate Full(l: Limits, chunk: seq<Row>, r: Row)
    requires chunk != []
  {
    TableOf(chunk[0]) != TableOf(r) || |chunk| >= l.rows || Bytes(l, chunk) + l.size(r) > l.bytes
  }

  /** One more row: it joins the open chunk or starts the next one. */
  function Extend(l: Limits, cs: seq<seq<Row>>, r: Row): seq<seq<Row>>
    requires forall k :: 0 <= k < |cs| ==> cs[k] != []
  {
    if cs == [] || Full(l, cs[|cs| - 1], r) then cs + [[r]]
    else cs[..|cs| - 1] + [cs[|cs| - 1] + [r]]
  }

  /** The chunks of a stream, the last one still open. */
  function Chunks(l: Limits, source: seq<Row>): (cs: seq<seq<Row>>)
    ensures forall k :: 0 <= k < |cs| ==> cs[k] != []
  {
    if source == [] then [] else Extend(l, Chunks(l, source[..|source| - 1]), source[|source| - 1])
  }

  function Find(cands: seq<Candidate>, i: Identity): (j: int)
    ensures -1 <= j < |cands|
    ensures j >= 0 ==> IdentityOf(cands[j].row) == i
    ensures j < 0 ==> forall k :: 0 <= k < |cands| ==> IdentityOf(cands[k].row) != i
  {
    if cands == [] then -1
    else if IdentityOf(cands[|cands| - 1].row) == i then |cands| - 1
    else Find(cands[..|cands| - 1], i)
  }

  function Collapse(chunk: seq<Row>): seq<Candidate> {
    if chunk == [] then []
    else AddRow(Collapse(chunk[..|chunk| - 1]), chunk[|chunk| - 1])
  }

  function AddRow(cands: seq<Candidate>, r: Row): seq<Candidate> {
    var j := Find(cands, IdentityOf(r));
    if j < 0 then cands + [Candidate(r, 1)] else cands[j := cands[j].(occ := cands[j].occ + 1)]
  }

  function BatchOf(l: Limits, chunk: seq<Row>): Batch
    requires chunk != []
  {
    Batch(TableOf(chunk[0]), Collapse(chunk), |chunk|, Bytes(l, chunk))
  }

  function BatchesOf(l: Limits, cs: seq<seq<Row>>): (bs: seq<Batch>)
    requires forall k :: 0 <= k < |cs| ==> cs[k] != []
    ensures |bs| == |cs|
    ensures forall k :: 0 <= k < |cs| ==> bs[k] == BatchOf(l, cs[k])
  {
    if cs == [] then [] else BatchesOf(l, cs[..|cs| - 1]) + [BatchOf(l, cs[|cs| - 1])]
  }

  /** What the scan hands to its callback, in order. */
  function Scan(l: Limits, source: seq<Row>): seq<Batch> {
    BatchesOf(Clamp(l), Chunks(Clamp(l), source))
  }

  lemma BatchesOfExtend(l: Limits, flushed: seq<seq<Row>>, open: seq<Row>)
    requires open != [] && forall k :: 0 <= k < |flushed| ==> flushed[k] != []
    ensures BatchesOf(l, flushed + [open]) == BatchesOf(l, flushed) + [BatchOf(l, open)]
  {
    assert (flushed + [open])[..|flushed|] == flushed;
  }

  /** The digest index of the batch being built. */
  predicate Indexed(cands: seq<Candidate>, indexes: map<Identity, int>) {
    && (forall d :: d in indexes ==> 0 <= indexes[d] < |cands| && IdentityOf(cands[indexes[d]].row) == d)
    && (forall j :: 0 <= j < |cands| ==> IdentityOf(cands[j].row) in indexes && indexes[IdentityOf(cands[j].row)] == j)
  }

  lemma IndexFinds(cands: seq<Candidate>, indexes: map<Identity, int>, d: Identity)
    requires Indexed(cands, indexes)
    ensures Find(cands, d) == if d in indexes then indexes[d] else -1
  {
    hide IdentityOf;
    var j := Find(cands, d);
    if j >= 0 {
      assert IdentityOf(cands[j].row) == d;
    }
  }

  /** Adds one row to the open batch. */
  method AddToBatch(cands: seq<Candidate>, indexes: map<Identity, int>, r: Row)
    returns (nextCands: seq<Candidate>, nextIndexes: map<Identity, int>)
    requires Indexed(cands, indexes)
    ensures nextCands == AddRow(cands, r)
    ensures Indexed(nextCands, nextIndexes)
  {
    hide IdentityOf;
    var d := IdentityOf(r);
    IndexFinds(cands, indexes, d);
    if d in indexes {
      var j := indexes[d];
      nextCands, nextIndexes := cands[j := cands[j].(occ := cands[j].occ + 1)], indexes;
    } else {
      nextCands, nextIndexes := cands + [Candidate(r, 1)], indexes[d := |cands|];
    }
  }

  lemma OpenStep(l: Limits, open: seq<Row>, r: Row)
    ensures Collapse(open + [r]) == AddRow(Collapse(open), r)
    ensures Bytes(l, open + [r]) == Bytes(l, open) + l.size(r)
  {
    assert (open + [r])[..|open|] == open;
  }

  /** The state the scan callback closes over. */
  class Scanner {
    const l: Limits
    var table: Table
    var cands: seq<Candidate>
    var sourceRows: int
    var bytes: int
    var indexes: map<Identity, int>
    var yielded: seq<Batch>
    ghost var flushed: seq<seq<Row>>
    ghost var open: seq<Row>

    ghost predicate Valid()
      reads this
    {
      && sourceRows == |open| && cands == Collapse(open) && bytes == Bytes(l, open)
      && (open != [] ==> table == TableOf(open[0]))
      && Indexed(cands, indexes)
      && (forall k :: 0 <= k < |flushed| ==> flushed[k] != [])
      && yielded == BatchesOf(l, flushed)
    }

    /** Every chunk so far, the open one last. */
    ghost function Seen(): seq<seq<Row>>
      reads this
    {
      if open == [] then flushed else flushed + [open]
    }

    constructor (l: Limits)
      ensures Valid() && this.l == l && Seen() == []
    {
      this.l := l;
      table, cands, sourceRows, bytes, indexes, yielded, flushed, open := ApiRequests, [], 0, 0, map[], [], [], [];
    }

    method Flush()
      requires Valid()
      modifies this
      ensures Valid() && open == [] && Seen() == old(Seen()) && yielded == BatchesOf(l, Seen())
    {
      hide IdentityOf, BatchesOf;
      if sourceRows != 0 {
        BatchesOfExtend(l, flushed, open);
        yielded := yielded + [Batch(table, cands, sourceRows, bytes)];
        flushed := flushed + [open];
        cands, sourceRows, bytes, indexes, open := [], 0, 0, map[], [];
      }
    }

    /** Adds a row to the open batch. */
    method Add(r: Row)
      requires Valid()
      modifies this
      ensures Valid() && open == old(open) + [r] && flushed == old(flushed)
    {
      hide IdentityOf, AddRow, Indexed, BatchesOf, Collapse, Bytes;
      OpenStep(l, open, r);
      if sourceRows == 0 {
        table := TableOf(r);
      }
      sourceRows, bytes := sourceRows + 1, bytes + l.size(r);
      cands, indexes := AddToBatch(cands, indexes, r);
      open := open + [r];
    }

    method Take(r: Row)
      requires Valid() && (open == [] ==> flushed == [])
      modifies this
      ensures Valid() && open != [] && Seen() == Extend(l, old(Seen()), r)
    {
      hide Collapse, Bytes, Indexed, BatchesOf, IdentityOf;
      ghost var seen := Seen();
      assert open != [] ==> seen[..|seen| - 1] == flushed && seen[|seen| - 1] == open;
      if sourceRows != 0 && (table != TableOf(r) || sourceRows >= l.rows || bytes + l.size(r) > l.bytes) {
        assert Full(l, open, r);
        Flush();
      } else {
        assert open == [] || !Full(l, open, r);
      }
      Add(r);
      assert old(open) == [] || old(sourceRows) == 0 || old(Full(l, open, r)) ==> open == [r];
    }
  }

  lemma NothingScanned(l: Limits)
    ensures Chunks(l, []) == []
  {
  }

  lemma ChunksOfNext(l: Limits, source: seq<Row>, i: nat)
    requires i < |source|
    ensures Chunks(l, source[..i + 1]) == Extend(l, Chunks(l, source[..i]), source[i])
  {
    hide Extend;
    assert source[..i + 1][..i] == source[..i];
  }

  method ScanBatches(limits: Limits, source: seq<Row>) returns (yielded: seq<Batch>)
    ensures yielded == Scan(limits, source)
  {
    hide Clamp, Chunks, Extend, BatchesOf, Collapse, Bytes, Indexed;
    var l := Clamp(limits);
    var s := new Scanner(l);
    NothingScanned(l);
    for i := 0 to |source|
      invariant s.Valid() && s.l == l && s.Seen() == Chunks(l, source[..i])
      invariant s.open == [] ==> s.flushed == [] && i == 0
    {
      ChunksOfNext(l, source, i);
      s.Take(source[i]);
    }
    assert source[..|source|] == source;
    s.Flush();
    yielded := s.yielded;
  }

  // ---------- What a scan promises ----------

  function Concat(cs: seq<seq<Row>>): seq<Row> {
    if cs == [] then [] else Concat(cs[..|cs| - 1]) + cs[|cs| - 1]
  }

  function Occurrences(chunk: seq<Row>, i: Identity): nat {
    if chunk == [] then 0
    else Occurrences(chunk[..|chunk| - 1], i) + if IdentityOf(chunk[|chunk| - 1]) == i then 1 else 0
  }

  function TotalOcc(cands: seq<Candidate>): int {
    if cands == [] then 0 else TotalOcc(cands[..|cands| - 1]) + cands[|cands| - 1].occ
  }

  predicate Distinct(cands: seq<Candidate>) {
    forall j, k :: 0 <= j < k < |cands| ==> IdentityOf(cands[j].row) != IdentityOf(cands[k].row)
  }

  predicate FitsLimits(l: Limits, chunk: seq<Row>) {
    && chunk != []
    && (forall k :: 0 <= k < |chunk| ==> TableOf(chunk[k]) == TableOf(chunk[0]))
    && |chunk| <= l.rows
    && (Bytes(l, chunk) <= l.bytes || |chunk| == 1)
  }

  predicate Greedy(l: Limits, cs: seq<seq<Row>>) {
    && (forall k :: 0 <= k < |cs| ==> FitsLimits(l, cs[k]))
    && (forall k :: 0 <= k < |cs| - 1 ==> Full(l, cs[k], cs[k + 1][0]))
  }

  lemma NoChunks(l: Limits)
    ensures Greedy(l, [])
  {
  }

  lemma OneRowFits(l: Limits, r: Row)
    requires l.rows >= 1
    ensures FitsLimits(l, [r])
  {
  }

  lemma OneMoreFits(l: Limits, chunk: seq<Row>, r: Row)
    requires FitsLimits(l, chunk) && !Full(l, chunk, r)
    ensures FitsLimits(l, chunk + [r])
  {
    assert (chunk + [r])[..|chunk|] == chunk;
  }

  lemma ConcatOfAppend(cs: seq<seq<Row>>, chunk: seq<Row>)
    ensures Concat(cs + [chunk]) == Concat(cs) + chunk
  {
    assert (cs + [chunk])[..|cs|] == cs;
  }

  lemma ExtendOpens(l: Limits, cs: seq<seq<Row>>, r: Row)
    requires forall k :: 0 <= k < |cs| ==> cs[k] != []
    requires cs == [] || Full(l, cs[|cs| - 1], r)
    ensures Extend(l, cs, r) == cs + [[r]]
  {
    hide Full;
  }

  lemma ExtendJoins(l: Limits, cs: seq<seq<Row>>, r: Row)
    requires forall k :: 0 <= k < |cs| ==> cs[k] != []
    requires cs != [] && !Full(l, cs[|cs| - 1], r)
    ensures Extend(l, cs, r) == cs[..|cs| - 1] + [cs[|cs| - 1] + [r]] && cs == cs[..|cs| - 1] + [cs[|cs| - 1]]
  {
    hide Full;
  }

  lemma JoinedLast(a: seq<Row>, b: seq<Row>, r: Row)
    ensures a + (b + [r]) == a + b + [r]
  {
  }

  lemma ExtendConcat(l: Limits, cs: seq<seq<Row>>, r: Row)
    requires forall k :: 0 <= k < |cs| ==> cs[k] != []
    ensures Concat(Extend(l, cs, r)) == Concat(cs) + [r]
  {
    hide Full, Concat, Extend;
    if cs == [] || Full(l, cs[|cs| - 1], r) {
      ExtendOpens(l, cs, r);
      ConcatOfAppend(cs, [r]);
    } else {
      ExtendJoins(l, cs, r);
      var init, open := cs[..|cs| - 1], cs[|cs| - 1];
      ConcatOfAppend(init, open);
      ConcatOfAppend(init, open + [r]);
      JoinedLast(Concat(init), open, r);
    }
  }

  lemma ExtendGreedy(l: Limits, cs: seq<seq<Row>>, r: Row)
    requires l.rows >= 1 && Greedy(l, cs) && forall k :: 0 <= k < |cs| ==> cs[k] != []
    ensures Greedy(l, Extend(l, cs, r))
  {
    hide FitsLimits, Full;
    var next := Extend(l, cs, r);
    if cs == [] || Full(l, cs[|cs| - 1], r) {
      OneRowFits(l, r);
    } else {
      OneMoreFits(l, cs[|cs| - 1], r);
      forall k | 0 <= k < |cs| - 1 ensures Full(l, next[k], next[k + 1][0]) {
        assert next[k] == cs[k] && next[k + 1][0] == cs[k + 1][0];
      }
    }
  }

  /** A scan partitions the stream in order into chunks that respect the limits
      and are as large as the limits allow. */
  lemma {:induction false} ChunksPartition(l: Limits, source: seq<Row>)
    requires l.rows >= 1
    ensures Concat(Chunks(l, source)) == source
    ensures Greedy(l, Chunks(l, source))
  {
    hide Extend, Greedy, FitsLimits;
    if source == [] {
      assert Greedy(l, []) by { NoChunks(l); }
    } else {
      var n := |source| - 1;
      ChunksPartition(l, source[..n]);
      ExtendConcat(l, Chunks(l, source[..n]), source[n]);
      ExtendGreedy(l, Chunks(l, source[..n]), source[n]);
    }
  }

  /** The limits a caller asks for hold of every batch, or the default ones where
      it asks for none or for more; one row alone may exceed the bytes. */
  lemma AskedLimitsHold(l: Limits, source: seq<Row>, k: int)
    requires 0 <= k < |Scan(l, source)|
    ensures var b := Scan(l, source)[k];
      && 1 <= b.sourceRows <= (if 1 <= l.rows <= 10000 then l.rows else 10000)
      && (b.sourceRows == 1 || b.bytes <= if 1 <= l.bytes <= 134217728 then l.bytes else 134217728)
  {
    hide Chunks, Collapse;
    ChunksPartition(Clamp(l), source);
  }

  lemma {:induction false} TotalOfAdd(cands: seq<Candidate>, j: int)
    requires 0 <= j < |cands|
    ensures TotalOcc(cands[j := cands[j].(occ := cands[j].occ + 1)]) == TotalOcc(cands) + 1
  {
    var n := |cands| - 1;
    var next := cands[j := cands[j].(occ := cands[j].occ + 1)];
    if j == n {
      assert next[..n] == cands[..n];
    } else {
      assert next[..n] == cands[..n][j := cands[j].(occ := cands[j].occ + 1)];
      TotalOfAdd(cands[..n], j);
    }
  }

  predicate FirstAt(chunk: seq<Row>, r: Row, k: int) {
    0 <= k < |chunk| && chunk[k] == r && forall m :: 0 <= m < k ==> IdentityOf(chunk[m]) != IdentityOf(r)
  }

  predicate FirstOf(chunk: seq<Row>, r: Row) {
    exists k :: 0 <= k < |chunk| && FirstAt(chunk, r, k)
  }

  /** One candidate per identity of the chunk: the first row that carries it,
      with the exact number of rows that carry it. */
  predicate Counts(cands: seq<Candidate>, chunk: seq<Row>) {
    && Distinct(cands)
    && TotalOcc(cands) == |chunk|
    && (forall j :: 0 <= j < |cands| ==> cands[j].occ == Occurrences(chunk, IdentityOf(cands[j].row)) >= 1)
    && (forall j :: 0 <= j < |cands| ==> FirstOf(chunk, cands[j].row))
    && (forall k :: 0 <= k < |chunk| ==> Find(cands, IdentityOf(chunk[k])) >= 0)
  }

  lemma {:induction false} AbsentCountsZero(chunk: seq<Row>, i: Identity)
    requires forall k :: 0 <= k < |chunk| ==> IdentityOf(chunk[k]) != i
    ensures Occurrences(chunk, i) == 0
  {
    if chunk != [] {
      AbsentCountsZero(chunk[..|chunk| - 1], i);
    }
  }

  lemma FirstStays(chunk: seq<Row>, r: Row, s: Row)
    requires FirstOf(chunk, s)
    ensures FirstOf(chunk + [r], s)
  {
    var k :| 0 <= k < |chunk| && FirstAt(chunk, s, k);
    assert FirstAt(chunk + [r], s, k);
  }

  lemma FoundStays(cands: seq<Candidate>, r: Row, i: Identity)
    requires Find(cands, i) >= 0 || i == IdentityOf(r)
    ensures Find(AddRow(cands, r), i) >= 0
  {
    hide IdentityOf;
    var next, f, j := AddRow(cands, r), Find(cands, i), Find(cands, IdentityOf(r));
    if f >= 0 {
      assert IdentityOf(next[f].row) == i;
    } else {
      assert IdentityOf(next[|cands|].row) == i;
    }
  }

  lemma AddRowOccurrences(cands: seq<Candidate>, chunk: seq<Row>, r: Row, m: int)
    requires Counts(cands, chunk) && 0 <= m < |AddRow(cands, r)|
    ensures var c := AddRow(cands, r)[m];
      c.occ == Occurrences(chunk + [r], IdentityOf(c.row)) >= 1 && FirstOf(chunk + [r], c.row)
  {
    hide IdentityOf;
    var j := Find(cands, IdentityOf(r));
    assert (chunk + [r])[..|chunk|] == chunk;
    if m < |cands| {
      FirstStays(chunk, r, cands[m].row);
    } else {
      forall k | 0 <= k < |chunk| ensures IdentityOf(chunk[k]) != IdentityOf(r) {
        assert Find(cands, IdentityOf(chunk[k])) >= 0;
      }
      AbsentCountsZero(chunk, IdentityOf(r));
      assert FirstAt(chunk + [r], r, |chunk|);
    }
  }

  lemma AddRowStaysDistinct(cands: seq<Candidate>, r: Row)
    requires Distinct(cands)
    ensures Distinct(AddRow(cands, r))
  {
    hide IdentityOf;
  }

  lemma AddRowTotal(cands: seq<Candidate>, r: Row)
    ensures TotalOcc(AddRow(cands, r)) == TotalOcc(cands) + 1
  {
    hide IdentityOf;
    var j := Find(cands, IdentityOf(r));
    if j >= 0 {
      TotalOfAdd(cands, j);
    } else {
      assert AddRow(cands, r)[..|cands|] == cands;
    }
  }

  lemma AddRowCounts(cands: seq<Candidate>, chunk: seq<Row>, r: Row)
    requires Counts(cands, chunk)
    ensures Counts(AddRow(cands, r), chunk + [r])
  {
    hide IdentityOf, FirstOf, Occurrences, Find, AddRow, TotalOcc, Distinct;
    var next, all := AddRow(cands, r), chunk + [r];
    AddRowStaysDistinct(cands, r);
    AddRowTotal(cands, r);
    forall m | 0 <= m < |next|
      ensures next[m].occ == Occurrences(all, IdentityOf(next[m].row)) >= 1 && FirstOf(all, next[m].row)
    {
      AddRowOccurrences(cands, chunk, r, m);
    }
    forall k | 0 <= k < |all| ensures Find(next, IdentityOf(all[k])) >= 0 {
      FoundStays(cands, r, IdentityOf(all[k]));
    }
  }

  lemma EmptyCounts()
    ensures Counts(Collapse([]), [])
  {
  }

  lemma {:induction false} CollapseCounts(chunk: seq<Row>)
    ensures Counts(Collapse(chunk), chunk)
  {
    hide Counts, AddRow;
    if chunk == [] {
      EmptyCounts();
    } else {
      var n := |chunk| - 1;
      CollapseCounts(chunk[..n]);
      AddRowCounts(Collapse(chunk[..n]), chunk[..n], chunk[n]);
      assert chunk[..n] + [chunk[n]] == chunk;
    }
  }
}
