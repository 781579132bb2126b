/** Which rows are one record: by which columns a row is identified, that every
    record of a source is stored, and that the digest reads the same columns. */
module Records {
  import opened Rows
  import opened Pool
  import opened Batches
  import opened Merge
  import opened MergeSoundness
  import IdentityCodec

  // ---------- The columns that identify a row ----------

  /** Two requests without a request id agree in what else identifies a request. */
  predicate SameColumns(q: Request, r: Request) {
    && q.ts == r.ts && q.session == r.session && q.prompt == r.prompt && q.eventSeq == r.eventSeq
    && q.model == r.model && q.tok.input == r.tok.input && q.tok.output == r.tok.output && q.duration == r.duration
  }

  predicate SameSpan(s: TraceSpan, t: TraceSpan) {
    s.session == t.session && s.model == t.model && s.end == t.end && s.ttft == t.ttft
  }

  predicate OneRecord(a: Row, b: Row) {
    if a.Api? && b.Api? then
      if a.req.requestId != "" || b.req.requestId != "" then a.req.requestId == b.req.requestId else SameColumns(a.req, b.req)
    else if a.Pending? && b.Pending? then
      if a.requestId != "" || b.requestId != "" then a.requestId == b.requestId else SameSpan(a.span, b.span)
    else a.Plain? && b.Plain? && a.table == b.table && a.tuple == b.tuple
  }

  /** Identities are equal exactly for rows that are one record. */
  lemma IdentitiesAreRecords(a: Row, b: Row)
    ensures IdentityOf(a) == IdentityOf(b) <==> OneRecord(a, b)
  {
    if a.Api? && b.Api? && TupleOf(a) == TupleOf(b) {
      assert forall i :: 0 <= i < 8 ==> TupleOf(a)[i] == TupleOf(b)[i];
      TupleTellsRequests(a.req, b.req);
    }
    if a.Pending? && b.Pending? && TupleOf(a) == TupleOf(b) {
      assert forall i :: 0 <= i < 4 ==> TupleOf(a)[i] == TupleOf(b)[i];
      TupleTellsSpans(a, b);
    }
  }

  lemma TupleTellsRequests(q: Request, r: Request)
    ensures TupleOf(Api(q)) == TupleOf(Api(r)) <==> SameColumns(q, r)
  {
    var t, u := TupleOf(Api(q)), TupleOf(Api(r));
    assert t[0] == u[0] && t[1] == u[1] && t[2] == u[2] && t[3] == u[3] && t[4] == u[4] && t[5] == u[5] && t[6] == u[6] && t[7] == u[7]
      <==> SameColumns(q, r);
  }

  lemma TupleTellsSpans(a: Row, b: Row)
    requires a.Pending? && b.Pending?
    ensures TupleOf(a) == TupleOf(b) <==> SameSpan(a.span, b.span)
  {
    var t, u := TupleOf(a), TupleOf(b);
    assert t[0] == u[0] && t[1] == u[1] && t[2] == u[2] && t[3] == u[3] <==> SameSpan(a.span, b.span);
  }

  // ---------- What an import leaves of its source ----------

  /** The stored row is the record: it has its request id or, where the record has
      none, its identifying columns. */
  predicate StandsFor(stored: Row, r: Row) {
    match r
    case Api(q) => stored.Api? && if q.requestId != "" then stored.req.requestId == q.requestId else SameColumns(stored.req, q)
    case Pending(id, span, _, _) => stored.Pending? && if id != "" then stored.requestId == id else SameSpan(stored.span, span)
    case Plain(t, tuple, _) => stored.Plain? && stored.table == t && stored.tuple == tuple
  }

  lemma MatchingStands(stored: Row, r: Row)
    ensures Matches(stored, IdentityOf(r)) <==> StandsFor(stored, r)
  {
    if stored.Api? && r.Api? {
      TupleTellsRequests(stored.req, r.req);
    }
    if stored.Pending? && r.Pending? {
      TupleTellsSpans(stored, r);
    }
  }

  function Standing(rows: seq<Stored>, r: Row): nat {
    if rows == [] then 0 else Standing(rows[..|rows| - 1], r) + if StandsFor(rows[|rows| - 1].row, r) then 1 else 0
  }

  function Repeats(chunk: seq<Row>, r: Row): nat {
    if chunk == [] then 0 else Repeats(chunk[..|chunk| - 1], r) + if OneRecord(chunk[|chunk| - 1], r) then 1 else 0
  }

  lemma {:induction false} CountIsStanding(rows: seq<Stored>, r: Row)
    ensures Count(rows, IdentityOf(r)) == Standing(rows, r)
  {
    hide Matches, IdentityOf, StandsFor;
    if rows != [] {
      CountIsStanding(rows[..|rows| - 1], r);
      MatchingStands(rows[|rows| - 1].row, r);
    }
  }

  lemma {:induction false} OccurrencesAreRepeats(chunk: seq<Row>, r: Row)
    ensures Occurrences(chunk, IdentityOf(r)) == Repeats(chunk, r)
  {
    hide IdentityOf, OneRecord;
    if chunk != [] {
      OccurrencesAreRepeats(chunk[..|chunk| - 1], r);
      IdentitiesAreRecords(chunk[|chunk| - 1], r);
    }
  }

  lemma {:induction false} RowIsInSomeChunk(cs: seq<seq<Row>>, p: int) returns (k: int, m: int)
    requires 0 <= p < |Concat(cs)|
    ensures 0 <= k < |cs| && 0 <= m < |cs[k]| && cs[k][m] == Concat(cs)[p]
  {
    var n := |cs| - 1;
    var before := Concat(cs[..n]);
    if p < |before| {
      k, m := RowIsInSomeChunk(cs[..n], p);
    } else {
      k, m := n, p - |before|;
    }
  }

  /** Every record of a chunk is stored, as often as the chunk repeats it if it has
      no request id. */
  lemma ChunkIsStored(day: int -> int, db: Db, l: Limits, stream: seq<Row>, source: string, clock: nat -> int, later: seq<Stored>, k: nat, m: nat)
    requires k < |Chunks(Clamp(l), stream)| && m < |Chunks(Clamp(l), stream)[k]|
    ensures var chunk, end := Chunks(Clamp(l), stream)[k], Import(day, db, Scan(l, stream), source, clock).rows + later;
      && Standing(end, chunk[m]) >= 1
      && (RequestIdOf(chunk[m]) == "" ==> Standing(end, chunk[m]) >= Repeats(chunk, chunk[m]))
  {
    hide Import, IdentityOf, Clamp, Chunks, StandsFor, OneRecord;
    var bs, chunk := Scan(l, stream), Chunks(Clamp(l), stream)[k];
    var r, end := chunk[m], Import(day, db, bs, source, clock).rows + later;
    CollapseCounts(chunk);
    var j := Find(Collapse(chunk), IdentityOf(r));
    ImportIsContained(day, db, bs, source, clock, later, k, j);
    CountIsStanding(end, r);
    OccurrencesAreRepeats(chunk, r);
    TuplesWithoutId(r);
  }

  lemma TuplesWithoutId(r: Row)
    ensures IdentityOf(r).ById? <==> RequestIdOf(r) != ""
  {
  }

  lemma {:induction false} StandingIsSome(rows: seq<Stored>, r: Row) returns (i: int)
    requires Standing(rows, r) >= 1
    ensures 0 <= i < |rows| && StandsFor(rows[i].row, r)
  {
    hide StandsFor;
    var n := |rows| - 1;
    if StandsFor(rows[n].row, r) {
      i := n;
    } else {
      i := StandingIsSome(rows[..n], r);
    }
  }

  /** After an import, and whatever is appended later, every row of the source has a
      stored row with its request id or, if it has none, with its own columns. */
  lemma EveryRecordIsStored(day: int -> int, db: Db, l: Limits, stream: seq<Row>, source: string, clock: nat -> int, later: seq<Stored>, p: nat)
    requires p < |stream|
    ensures var end := Import(day, db, Scan(l, stream), source, clock).rows + later;
      exists i :: 0 <= i < |end| && StandsFor(end[i].row, stream[p])
  {
    hide Import, Scan, Chunks, StandsFor, Concat, Greedy, Clamp;
    ClampedRows(l);
    ChunksPartition(Clamp(l), stream);
    var k, m := RowIsInSomeChunk(Chunks(Clamp(l), stream), p);
    ChunkIsStored(day, db, l, stream, source, clock, later, k, m);
    var i := StandingIsSome(Import(day, db, Scan(l, stream), source, clock).rows + later, stream[p]);
  }

  lemma ClampedRows(l: Limits)
    ensures Clamp(l).rows >= 1
  {
  }

  /** And it stores nothing else: a new row is a row of the source, in all columns. */
  lemma {:induction false} NewRowsAreSourceRows(day: int -> int, db: Db, l: Limits, stream: seq<Row>, source: string, clock: nat -> int, n: nat, i: nat)
    requires n <= |Scan(l, stream)|
    requires |db.rows| <= i < |Import(day, db, Scan(l, stream)[..n], source, clock).rows|
    ensures exists p :: 0 <= p < |stream| && stream[p] == Import(day, db, Scan(l, stream)[..n], source, clock).rows[i].row
    decreases n
  {
    hide RunBatch, Scan, FanOut, Land, Note;
    var bs := Scan(l, stream);
    if n > 0 {
      var before := Import(day, db, bs[..n - 1], source, clock);
      assert bs[..n][..n - 1] == bs[..n - 1];
      BatchAppends(day, before, bs[n - 1], source, clock(n - 1));
      if i < |before.rows| {
        NewRowsAreSourceRows(day, db, l, stream, source, clock, n - 1, i);
      } else {
        var j := NewRowIsCandidate(day, before, bs[n - 1], source, clock(n - 1), i);
        var p := CandidateComesFrom(l, stream, n - 1, j);
      }
    }
  }

  lemma NewRowIsCandidate(day: int -> int, db: Db, b: Batch, source: string, at: int, i: nat) returns (j: int)
    requires |db.rows| <= i < |RunBatch(day, db, b, source, at).rows|
    ensures 0 <= j < |b.cands| && RunBatch(day, db, b, source, at).rows[i].row == b.cands[j].row
  {
    hide FanOut, Land, Note;
    LandAppends(day, db, FanOut(db.rows, b.cands));
    j := FanOutComesFrom(db.rows, b.cands, i - |db.rows|);
  }

  // ---------- The digest ----------

  /** How the driver hands over a cell; strings are encoded one to one. */
  predicate Carries(enc: string -> IdentityCodec.Bytes, rec: IdentityCodec.Record, column: IdentityCodec.Bytes, c: Cell) {
    && column in rec
    && match c
       case Null => rec[column] == IdentityCodec.Nil
       case Number(n) => rec[column].Integer? && rec[column].n == n
       case Text(s) => rec[column].Str? && rec[column].text == enc(s)
  }

  /** rec is the row as it is read, with at least the columns that identify it. */
  predicate IsReadFrom(enc: string -> IdentityCodec.Bytes, columns: seq<IdentityCodec.Bytes>, rec: IdentityCodec.Record, r: Row) {
    match r
    case Api(q) =>
      && Carries(enc, rec, IdentityCodec.Ascii("request_id"), Text(q.requestId))
      && Carries(enc, rec, IdentityCodec.Ascii("timestamp"), Number(q.ts))
      && Carries(enc, rec, IdentityCodec.Ascii("session_id"), Text(q.session))
      && Carries(enc, rec, IdentityCodec.Ascii("prompt_id"), Text(q.prompt))
      && Carries(enc, rec, IdentityCodec.Ascii("event_sequence"), Number(q.eventSeq))
      && Carries(enc, rec, IdentityCodec.Ascii("model"), Text(q.model))
      && Carries(enc, rec, IdentityCodec.Ascii("input_tokens"), Number(q.tok.input))
      && Carries(enc, rec, IdentityCodec.Ascii("output_tokens"), Number(q.tok.output))
      && Carries(enc, rec, IdentityCodec.Ascii("duration_ms"), Number(q.duration))
    case Pending(id, span, _, _) =>
      && Carries(enc, rec, IdentityCodec.Ascii("request_id"), Text(id))
      && Carries(enc, rec, IdentityCodec.Ascii("session_id"), Text(span.session))
      && Carries(enc, rec, IdentityCodec.Ascii("model"), Text(span.model))
      && Carries(enc, rec, IdentityCodec.Ascii("span_end_unix"), Number(span.end))
      && Carries(enc, rec, IdentityCodec.Ascii("ttft_ms"), Number(span.ttft))
    case Plain(_, tuple, _) => |tuple| == |columns| && forall i :: 0 <= i < |columns| ==> Carries(enc, rec, columns[i], tuple[i])
  }

  /** The registry's entry for a table; `columns` are the columns it is identified by. */
  function SpecOf(name: Table -> IdentityCodec.Bytes, columns: seq<IdentityCodec.Bytes>, t: Table): IdentityCodec.Spec {
    IdentityCodec.Spec(name(t),
      match t
      case ApiRequests => IdentityCodec.ClaudeRequest
      case PendingTtftSpans => IdentityCodec.PendingTtft
      case CodexApiRequests => IdentityCodec.CodexRequest
      case RawOtlpEvents => IdentityCodec.Raw
      case CodexRawOtlpEvents => IdentityCodec.Raw
      case _ => IdentityCodec.AllColumns,
      columns)
  }

  /** A faithful encoding of strings and table names. */
  ghost predicate Faithful(enc: string -> IdentityCodec.Bytes, name: Table -> IdentityCodec.Bytes) {
    && enc("") == []
    && (forall s, t :: enc(s) == enc(t) ==> s == t)
    && (forall t, u :: name(t) == name(u) ==> t == u)
  }

  lemma CarriedCells(enc: string -> IdentityCodec.Bytes, name: Table -> IdentityCodec.Bytes, whole: IdentityCodec.Word -> Option<IdentityCodec.Int64>,
                     a: IdentityCodec.Record, b: IdentityCodec.Record, column: IdentityCodec.Bytes, c: Cell, d: Cell)
    requires Faithful(enc, name) && Carries(enc, a, column, c) && Carries(enc, b, column, d)
    ensures IdentityCodec.ColumnValue(whole, a, column) == IdentityCodec.ColumnValue(whole, b, column) <==> c == d
  {
  }

  /** The columns a row is identified by, and its cells there. */
  predicate ReadsAs(enc: string -> IdentityCodec.Bytes, rec: IdentityCodec.Record, columns: seq<IdentityCodec.Bytes>, cells: seq<Cell>) {
    |columns| == |cells| && forall i :: 0 <= i < |columns| ==> Carries(enc, rec, columns[i], cells[i])
  }

  lemma ReadsAlike(enc: string -> IdentityCodec.Bytes, name: Table -> IdentityCodec.Bytes, whole: IdentityCodec.Word -> Option<IdentityCodec.Int64>,
                   s: IdentityCodec.Spec, a: IdentityCodec.Record, t: IdentityCodec.Spec, b: IdentityCodec.Record, c: seq<Cell>, d: seq<Cell>)
    requires Faithful(enc, name) && IdentityCodec.IdentityColumns(s, a) == IdentityCodec.IdentityColumns(t, b)
    requires ReadsAs(enc, a, IdentityCodec.IdentityColumns(s, a), c) && ReadsAs(enc, b, IdentityCodec.IdentityColumns(t, b), d)
    ensures IdentityCodec.IdentityFor(whole, s, a).values == IdentityCodec.IdentityFor(whole, t, b).values <==> c == d
  {
    hide Faithful, Carries, IdentityCodec.IdentityColumns, IdentityCodec.ColumnValue;
    var columns := IdentityCodec.IdentityColumns(s, a);
    var m, n := IdentityCodec.IdentityFor(whole, s, a), IdentityCodec.IdentityFor(whole, t, b);
    forall i | 0 <= i < |columns| ensures m.values[i] == n.values[i] <==> c[i] == d[i] {
      CarriedCells(enc, name, whole, a, b, columns[i], c[i], d[i]);
    }
    if c == d {
      assert m.values == n.values;
    }
    if m.values == n.values {
      assert c == d;
    }
  }

  /** The cells behind IdentityOf. */
  function CellsOf(r: Row): seq<Cell> {
    if RequestIdOf(r) != "" then [Text(RequestIdOf(r))] else TupleOf(r)
  }

  lemma HasIdWhenCarried(enc: string -> IdentityCodec.Bytes, name: Table -> IdentityCodec.Bytes, rec: IdentityCodec.Record, id: string)
    requires Faithful(enc, name) && Carries(enc, rec, IdentityCodec.Ascii("request_id"), Text(id))
    ensures IdentityCodec.HasRequestId(rec) <==> id != ""
  {
    assert enc(id) == [] <==> id == "";
  }

  lemma RequestReadsAs(enc: string -> IdentityCodec.Bytes, columns: seq<IdentityCodec.Bytes>, rec: IdentityCodec.Record, q: Request)
    requires IsReadFrom(enc, columns, rec, Api(q))
    ensures ReadsAs(enc, rec, IdentityCodec.CLAUDE_TUPLE, TupleOf(Api(q)))
  {
    hide Carries, IdentityCodec.Ascii;
  }

  lemma SpanReadsAs(enc: string -> IdentityCodec.Bytes, columns: seq<IdentityCodec.Bytes>, rec: IdentityCodec.Record, r: Row)
    requires r.Pending? && IsReadFrom(enc, columns, rec, r)
    ensures ReadsAs(enc, rec, IdentityCodec.PENDING_TUPLE, TupleOf(r))
  {
    hide Carries, IdentityCodec.Ascii;
  }

  lemma RowReadsAs(enc: string -> IdentityCodec.Bytes, name: Table -> IdentityCodec.Bytes, columns: seq<IdentityCodec.Bytes>, rec: IdentityCodec.Record, r: Row)
    requires Faithful(enc, name) && IsReadFrom(enc, columns, rec, r)
    requires TableOf(r) == CodexApiRequests ==> columns == IdentityCodec.CODEX_TUPLE
    ensures ReadsAs(enc, rec, IdentityCodec.IdentityColumns(SpecOf(name, columns, TableOf(r)), rec), CellsOf(r))
    ensures !r.Plain? ==> (IdentityCodec.HasRequestId(rec) <==> RequestIdOf(r) != "")
  {
    hide Carries, Faithful, IdentityCodec.HasRequestId, IdentityCodec.Ascii;
    match r
    case Api(q) =>
      HasIdWhenCarried(enc, name, rec, q.requestId);
      RequestReadsAs(enc, columns, rec, q);
    case Pending(id, _, _, _) =>
      HasIdWhenCarried(enc, name, rec, id);
      SpanReadsAs(enc, columns, rec, r);
    case Plain(_, _, _) =>
  }

  /** Two rows have one identity if and only if the digest is computed from the
      same table, columns and values. */
  lemma DigestReadsTheIdentity(enc: string -> IdentityCodec.Bytes, name: Table -> IdentityCodec.Bytes, whole: IdentityCodec.Word -> Option<IdentityCodec.Int64>,
                               columns: Table -> seq<IdentityCodec.Bytes>, a: Row, b: Row, x: IdentityCodec.Record, y: IdentityCodec.Record)
    requires Faithful(enc, name) && columns(CodexApiRequests) == IdentityCodec.CODEX_TUPLE
    requires IsReadFrom(enc, columns(TableOf(a)), x, a) && IsReadFrom(enc, columns(TableOf(b)), y, b)
    ensures IdentityOf(a) == IdentityOf(b) <==>
      IdentityCodec.IdentityFor(whole, SpecOf(name, columns(TableOf(a)), TableOf(a)), x)
      == IdentityCodec.IdentityFor(whole, SpecOf(name, columns(TableOf(b)), TableOf(b)), y)
  {
    hide IsReadFrom, Carries, IdentityCodec.ColumnValue, TupleOf, ReadsAs, IdentityCodec.HasRequestId, IdentityCodec.Ascii;
    var s, t := SpecOf(name, columns(TableOf(a)), TableOf(a)), SpecOf(name, columns(TableOf(b)), TableOf(b));
    RowReadsAs(enc, name, columns(TableOf(a)), x, a);
    RowReadsAs(enc, name, columns(TableOf(b)), y, b);
    if TableOf(a) == TableOf(b) {
      if IdentityCodec.IdentityColumns(s, x) == IdentityCodec.IdentityColumns(t, y) {
        ReadsAlike(enc, name, whole, s, x, t, y, CellsOf(a), CellsOf(b));
      }
    }
  }
}
