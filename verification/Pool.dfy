/** The shared request pool as a value, and what its live writers do to it.
    Every function here is one committed transaction. */
module Pool {
  import opened Rows
  import opened Aggregate

  /** An import_ledger row; its key is the identity digest. */
  datatype LedgerEntry = LedgerEntry(importedAt: int, source: string, table: Table)

  datatype Db = Db(rows: seq<Stored>, agg: Agg, ledger: map<Identity, LedgerEntry>, last: map<Table, int>)

  /** The AUTOINCREMENT high-water mark of a table. */
  function LastId(last: map<Table, int>, t: Table): int {
    if t in last then last[t] else 0
  }

  predicate IdsAscend(rows: seq<Stored>, last: map<Table, int>) {
    && (forall i :: 0 <= i < |rows| ==> 1 <= rows[i].id <= LastId(last, TableOf(rows[i].row)))
    && (forall i, j :: 0 <= i < j < |rows| && TableOf(rows[i].row) == TableOf(rows[j].row) ==> rows[i].id < rows[j].id)
    && (forall t :: t in last ==> 0 <= last[t])
  }

  /** The partial unique index on api_requests(request_id). */
  predicate UniqueRequestIds(rows: seq<Stored>) {
    forall i, j :: 0 <= i < j < |rows| && rows[i].row.Api? && rows[j].row.Api? && rows[i].row.req.requestId != ""
      ==> rows[i].row.req.requestId != rows[j].row.req.requestId
  }

  /** A Codex row still waiting for its completion has not been charged. */
  predicate PendingFree(rows: seq<Stored>) {
    forall i :: 0 <= i < |rows| && rows[i].row.Api? ==> FreeWhilePending(rows[i].row.req)
  }

  predicate FreeWhilePending(q: Request) {
    q.service == CODEX_SERVICE && q.tok == NO_TOKENS ==> q.cost == 0
  }

  predicate WellFormed(db: Db) {
    IdsAscend(db.rows, db.last) && UniqueRequestIds(db.rows)
  }

  /** The invariant of every run of writers. */
  predicate Sound(day: int -> int, db: Db) {
    WellFormed(db) && PendingFree(db.rows) && Agrees(day, db.rows, db.agg)
  }

  function Append(db: Db, r: Row): Db {
    var id := LastId(db.last, TableOf(r)) + 1;
    db.(rows := db.rows + [Stored(id, r)], last := db.last[TableOf(r) := id])
  }

  predicate IdTaken(rows: seq<Stored>, requestId: string) {
    requestId != "" && exists i :: 0 <= i < |rows| && rows[i].row.Api? && rows[i].row.req.requestId == requestId
  }

  /** INSERT OR IGNORE plus the aggregate upsert. */
  function InsertRequest(day: int -> int, db: Db, q: Request): Db {
    if IdTaken(db.rows, q.requestId) then db
    else Append(db, Api(q)).(agg := Upsert(db.agg, LiveKey(day, q), Contribution(q)))
  }

  // ---------- Trace spans that arrived before their request ----------

  /** A span waiting under the request's own id. */
  predicate WaitsById(r: Row, q: Request) {
    r.Pending? && !r.processed && q.requestId != "" && r.requestId == q.requestId
  }

  /** A span of the request's session and model that ended within two minutes of it. */
  predicate WaitsNearby(r: Row, q: Request) {
    && r.Pending? && !r.processed && q.session != "" && q.model != ""
    && r.span.session == q.session && r.span.model == q.model && -120 <= r.span.end - q.ts <= 120
  }

  function Gap(r: Row, q: Request): int
    requires r.Pending?
  {
    if r.span.end >= q.ts then r.span.end - q.ts else q.ts - r.span.end
  }

  predicate AnyWaitsById(rows: seq<Stored>, q: Request) {
    exists j :: 0 <= j < |rows| && WaitsById(rows[j].row, q)
  }

  /** The span a request takes: one under its id if any waits there, otherwise one
      nearby, and of these one that ended closest to it; -1 for none. */
  predicate Takes(rows: seq<Stored>, q: Request, i: int) {
    if AnyWaitsById(rows, q) then
      0 <= i < |rows| && WaitsById(rows[i].row, q)
      && forall j :: 0 <= j < |rows| && WaitsById(rows[j].row, q) ==> Gap(rows[i].row, q) <= Gap(rows[j].row, q)
    else if i < 0 then
      i == -1 && forall j :: 0 <= j < |rows| ==> !WaitsNearby(rows[j].row, q)
    else
      i < |rows| && WaitsNearby(rows[i].row, q)
      && forall j :: 0 <= j < |rows| && WaitsNearby(rows[j].row, q) ==> Gap(rows[i].row, q) <= Gap(rows[j].row, q)
  }

  /** The i-th span is used up. */
  function Process(rows: seq<Stored>, i: int): (r: seq<Stored>)
    requires 0 <= i < |rows| && rows[i].row.Pending?
    ensures |r| == |rows|
  {
    rows[i := rows[i].(row := rows[i].row.(processed := true))]
  }

  predicate SpanApplies(db: Db, q: Request, i: int) {
    !IdTaken(db.rows, q.requestId) && q.ttft == 0 && 0 <= i < |db.rows| && db.rows[i].row.Pending? && db.rows[i].row.span.ttft > 0
  }

  /** A live insert that takes the i-th span, if there is one to take. */
  function InsertWithSpan(day: int -> int, db: Db, q: Request, i: int): Db {
    if SpanApplies(db, q, i) then
      InsertRequest(day, db.(rows := Process(db.rows, i)), q.(ttft := db.rows[i].row.span.ttft))
    else InsertRequest(day, db, q)
  }

  /** The row a Codex record is stored as. */
  function CodexRow(q: Request): Request {
    q.(service := CODEX_SERVICE, prompt := "")
  }

  function Rebuild(day: int -> int, db: Db): Db {
    db.(agg := GroupBy(day, db.rows))
  }

  // ---------- Searches ----------

  /** ORDER BY id DESC LIMIT 1: the last row that satisfies p, or -1. */
  function Newest(rows: seq<Stored>, p: Stored -> bool): (r: int)
    ensures -1 <= r < |rows|
    ensures r >= 0 ==> p(rows[r])
    ensures forall j :: r < j < |rows| ==> !p(rows[j])
  {
    if rows == [] then -1
    else if p(rows[|rows| - 1]) then |rows| - 1
    else Newest(rows[..|rows| - 1], p)
  }

  predicate IsCodex(s: Stored, session: string, model: string) {
    s.row.Api? && s.row.req.session == session && s.row.req.model == model && s.row.req.service == CODEX_SERVICE
  }

  predicate IsExact(s: Stored, id: int, session: string, model: string) {
    IsCodex(s, session, model) && s.id == id
  }

  // ---------- Latency columns ----------

  function SetRequest(db: Db, i: int, q: Request): Db
    requires 0 <= i < |db.rows|
  {
    db.(rows := db.rows[i := db.rows[i].(row := Api(q))])
  }

  /** Which row a duration belongs to: -1 for none. */
  function DurationRow(rows: seq<Stored>, id: int, session: string, model: string, ts: int): (r: int)
    ensures -1 <= r < |rows| && (r >= 0 ==> IsCodex(rows[r], session, model))
  {
    var exact := Newest(rows, s => IsExact(s, id, session, model));
    if id > 0 && exact >= 0 then exact
    else Newest(rows, s => IsCodex(s, session, model) && s.row.req.duration == 0 && s.row.req.ts >= ts - 600)
  }

  function UpdateDuration(db: Db, id: int, session: string, model: string, ts: int, ms: int): Db {
    var r := DurationRow(db.rows, id, session, model, ts);
    if session == "" || model == "" || ms <= 0 || r < 0 || db.rows[r].row.req.duration != 0 then db
    else SetRequest(db, r, db.rows[r].row.req.(duration := ms))
  }

  function TtftRow(rows: seq<Stored>, id: int, session: string, model: string, ts: int): (r: int)
    ensures -1 <= r < |rows| && (r >= 0 ==> IsCodex(rows[r], session, model))
  {
    var exact := Newest(rows, s => IsExact(s, id, session, model));
    if id > 0 && exact >= 0 then exact
    else Newest(rows, s => IsCodex(s, session, model) && s.row.req.ttft == 0 && s.row.req.error == "" && s.row.req.ts >= ts - 600)
  }

  function UpdateTtft(db: Db, id: int, session: string, model: string, ts: int, ms: int): Db {
    var r := TtftRow(db.rows, id, session, model, ts);
    if session == "" || model == "" || ms <= 0 || r < 0 || db.rows[r].row.req.ttft != 0 then db
    else SetRequest(db, r, db.rows[r].row.req.(ttft := ms))
  }

  predicate TurnAnchor(s: Stored, conversation: string, model: string, ts: int) {
    s.row.Api? && s.row.req.conversation == conversation && s.row.req.model == model && s.row.req.service == CODEX_SERVICE
    && s.row.req.eventName == "codex.api_request" && s.row.req.ttft == 0 && s.row.req.error == ""
    && ts - 3600 <= s.row.req.ts <= ts
  }

  /** ORDER BY timestamp DESC, id DESC LIMIT 1. */
  function TurnRow(rows: seq<Stored>, conversation: string, model: string, ts: int): (r: int)
    ensures -1 <= r < |rows|
    ensures r >= 0 ==> TurnAnchor(rows[r], conversation, model, ts)
    ensures forall j :: 0 <= j < |rows| && TurnAnchor(rows[j], conversation, model, ts) ==>
              r >= 0 && (rows[j].row.req.ts < rows[r].row.req.ts || (rows[j].row.req.ts == rows[r].row.req.ts && j <= r))
  {
    if rows == [] then -1
    else
      var n := |rows| - 1;
      var r := TurnRow(rows[..n], conversation, model, ts);
      if TurnAnchor(rows[n], conversation, model, ts) && (r < 0 || rows[r].row.req.ts <= rows[n].row.req.ts) then n else r
  }

  function UpdateTurnTtft(db: Db, conversation: string, model: string, ts: int, ms: int): Db {
    var r := TurnRow(db.rows, conversation, model, ts);
    if conversation == "" || model == "" || ms <= 0 || r < 0 then db
    else SetRequest(db, r, db.rows[r].row.req.(ttft := ms))
  }

  // ---------- What the writers keep ----------

  lemma AppendKeepsAscent(db: Db, r: Row)
    requires IdsAscend(db.rows, db.last)
    ensures IdsAscend(Append(db, r).rows, Append(db, r).last)
  {
  }

  lemma AppendKeepsWellFormed(db: Db, r: Row)
    requires WellFormed(db)
    requires r.Api? ==> !IdTaken(db.rows, r.req.requestId)
    ensures WellFormed(Append(db, r))
  {
  }

  /** A live insert keeps the cache right unless it stores a row whose service
      name is whitespace but not empty: the upsert folds such a name into
      claude-code, the rebuild statement does not. */
  lemma InsertKeepsAgreement(day: int -> int, db: Db, q: Request)
    requires Agrees(day, db.rows, db.agg)
    ensures var next := InsertRequest(day, db, q);
      Agrees(day, next.rows, next.agg) <==> IdTaken(db.rows, q.requestId) || CleanService(q.service)
  {
    hide IdTaken, GroupBy, Upsert, LiveKey, Contribution, CleanService;
    if !IdTaken(db.rows, q.requestId) {
      AppendKeepsAgreement(day, db.rows, db.agg, Stored(LastId(db.last, ApiRequests) + 1, Api(q)));
    }
  }

  lemma InsertKeepsSound(day: int -> int, db: Db, q: Request)
    requires Sound(day, db) && CleanService(q.service) && FreeWhilePending(q)
    ensures Sound(day, InsertRequest(day, db, q))
  {
    InsertKeepsAgreement(day, db, q);
    if !IdTaken(db.rows, q.requestId) {
      AppendKeepsWellFormed(db, Api(q));
      AppendKeepsPendingFree(db.rows, Stored(LastId(db.last, ApiRequests) + 1, Api(q)));
    }
  }

  lemma ProcessKeepsRows(db: Db, i: int)
    requires WellFormed(db) && PendingFree(db.rows) && 0 <= i < |db.rows| && db.rows[i].row.Pending?
    ensures WellFormed(db.(rows := Process(db.rows, i))) && PendingFree(Process(db.rows, i))
  {
    hide FreeWhilePending, LastId;
    var next := Process(db.rows, i);
    forall j | 0 <= j < |next| ensures TableOf(next[j].row) == TableOf(db.rows[j].row) && next[j].id == db.rows[j].id {
    }
  }

  /** Using up a span touches nothing that an index or an aggregate reads. */
  lemma ProcessKeepsSound(day: int -> int, db: Db, i: int)
    requires Sound(day, db) && 0 <= i < |db.rows| && db.rows[i].row.Pending?
    ensures Sound(day, db.(rows := Process(db.rows, i)))
  {
    hide WellFormed, PendingFree, GroupBy;
    ProcessKeepsRows(db, i);
    ReplaceOtherKeepsGroupBy(day, db.rows, i, Process(db.rows, i)[i]);
  }

  lemma ProcessKeepsIds(rows: seq<Stored>, i: int, id: string)
    requires 0 <= i < |rows| && rows[i].row.Pending?
    ensures IdTaken(Process(rows, i), id) == IdTaken(rows, id)
  {
    var next := Process(rows, i);
    forall j | 0 <= j < |rows| ensures next[j].row.Api? == rows[j].row.Api? && (rows[j].row.Api? ==> next[j] == rows[j]) {
    }
  }

  lemma InsertWithSpanKeepsSound(day: int -> int, db: Db, q: Request, i: int)
    requires Sound(day, db) && CleanService(q.service) && FreeWhilePending(q)
    ensures Sound(day, InsertWithSpan(day, db, q, i))
  {
    hide Sound, CleanService;
    if SpanApplies(db, q, i) {
      ProcessKeepsSound(day, db, i);
      InsertKeepsSound(day, db.(rows := Process(db.rows, i)), q.(ttft := db.rows[i].row.span.ttft));
    } else {
      InsertKeepsSound(day, db, q);
    }
  }

  lemma AppendKeepsPendingFree(rows: seq<Stored>, s: Stored)
    requires PendingFree(rows) && (s.row.Api? ==> FreeWhilePending(s.row.req))
    ensures PendingFree(rows + [s])
  {
  }

  /** Redelivering a request that carries a request id changes nothing. */
  lemma InsertTwice(day: int -> int, db: Db, q: Request, again: Request)
    requires q.requestId != "" && again.requestId == q.requestId
    ensures InsertRequest(day, InsertRequest(day, db, q), again) == InsertRequest(day, db, q)
  {
    var next := InsertRequest(day, db, q);
    if !IdTaken(db.rows, q.requestId) {
      assert next.rows[|db.rows|].row == Api(q);
    }
  }

  lemma CodexIsClean()
    ensures CleanService(CODEX_SERVICE)
  {
    assert !IsSpace(CODEX_SERVICE[0]);
  }

  lemma RewriteKeepsAscent(db: Db, i: int, q: Request)
    requires IdsAscend(db.rows, db.last) && 0 <= i < |db.rows| && db.rows[i].row.Api?
    ensures IdsAscend(SetRequest(db, i, q).rows, db.last)
  {
    hide LastId;
    var next := SetRequest(db, i, q).rows;
    forall j | 0 <= j < |next| ensures next[j].id == db.rows[j].id && TableOf(next[j].row) == TableOf(db.rows[j].row) {
    }
  }

  /** Rewriting a stored request in place. */
  lemma RewriteKeepsRows(db: Db, i: int, q: Request)
    requires WellFormed(db) && PendingFree(db.rows) && 0 <= i < |db.rows| && db.rows[i].row.Api?
    requires q.requestId == db.rows[i].row.req.requestId && FreeWhilePending(q)
    ensures WellFormed(SetRequest(db, i, q)) && PendingFree(SetRequest(db, i, q).rows)
  {
  }

  /** Rewriting columns that no aggregate and no index reads. */
  lemma RewriteKeepsSound(day: int -> int, db: Db, i: int, q: Request)
    requires Sound(day, db) && 0 <= i < |db.rows| && db.rows[i].row.Api?
    requires q == db.rows[i].row.req.(duration := q.duration, ttft := q.ttft)
    ensures Sound(day, SetRequest(db, i, q))
  {
    ReplaceKeepsGroupBy(day, db.rows, i, db.rows[i].(row := Api(q)));
    RewriteKeepsRows(db, i, q);
  }

  predicate HasExact(rows: seq<Stored>, id: int, session: string, model: string) {
    id > 0 && exists j :: 0 <= j < |rows| && IsExact(rows[j], id, session, model)
  }

  /** The i-th row is the one a duration reported for `id` at ts belongs to: the
      exact row if it exists, otherwise the newest that still lacks one. */
  predicate TakesDuration(rows: seq<Stored>, i: int, id: int, session: string, model: string, ts: int)
    requires 0 <= i < |rows|
  {
    if HasExact(rows, id, session, model) then IsExact(rows[i], id, session, model)
    else LacksDuration(rows[i], session, model, ts) && forall j :: i < j < |rows| ==> !LacksDuration(rows[j], session, model, ts)
  }

  predicate LacksDuration(s: Stored, session: string, model: string, ts: int) {
    IsCodex(s, session, model) && s.row.req.duration == 0 && s.row.req.ts >= ts - 600
  }

  predicate TakesTtft(rows: seq<Stored>, i: int, id: int, session: string, model: string, ts: int)
    requires 0 <= i < |rows|
  {
    if HasExact(rows, id, session, model) then IsExact(rows[i], id, session, model)
    else LacksTtft(rows[i], session, model, ts) && forall j :: i < j < |rows| ==> !LacksTtft(rows[j], session, model, ts)
  }

  predicate LacksTtft(s: Stored, session: string, model: string, ts: int) {
    IsCodex(s, session, model) && s.row.req.ttft == 0 && s.row.req.error == "" && s.row.req.ts >= ts - 600
  }

  lemma OneExactRow(db: Db, i: int, j: int, id: int, session: string, model: string)
    requires IdsAscend(db.rows, db.last) && 0 <= i < |db.rows| && 0 <= j < |db.rows|
    requires IsExact(db.rows[i], id, session, model) && IsExact(db.rows[j], id, session, model)
    ensures i == j
  {
  }

  /** The search of the duration writer finds a row if and only if a duration belongs to it. */
  lemma DurationRowIsTaken(db: Db, id: int, session: string, model: string, ts: int, i: int)
    requires IdsAscend(db.rows, db.last) && 0 <= i < |db.rows|
    ensures DurationRow(db.rows, id, session, model, ts) == i <==> TakesDuration(db.rows, i, id, session, model, ts)
  {
    hide IdsAscend;
    var exact := Newest(db.rows, s => IsExact(s, id, session, model));
    if id > 0 && exact >= 0 && IsExact(db.rows[i], id, session, model) {
      OneExactRow(db, i, exact, id, session, model);
    }
  }

  lemma TtftRowIsTaken(db: Db, id: int, session: string, model: string, ts: int, i: int)
    requires IdsAscend(db.rows, db.last) && 0 <= i < |db.rows|
    ensures TtftRow(db.rows, id, session, model, ts) == i <==> TakesTtft(db.rows, i, id, session, model, ts)
  {
    hide IdsAscend;
    var exact := Newest(db.rows, s => IsExact(s, id, session, model));
    if id > 0 && exact >= 0 && IsExact(db.rows[i], id, session, model) {
      OneExactRow(db, i, exact, id, session, model);
    }
  }

  /** A duration changes a row if and only if the row is the one it belongs to
      and still lacks one; it is written there and nowhere else. */
  lemma DurationFillsOneRow(db: Db, id: int, session: string, model: string, ts: int, ms: int, i: int)
    requires IdsAscend(db.rows, db.last) && session != "" && model != "" && ms > 0 && 0 <= i < |db.rows|
    ensures TakesDuration(db.rows, i, id, session, model, ts) ==> db.rows[i].row.Api?
    ensures var next := UpdateDuration(db, id, session, model, ts, ms);
      |next.rows| == |db.rows| && next.rows[i] ==
        if TakesDuration(db.rows, i, id, session, model, ts) && db.rows[i].row.req.duration == 0
        then db.rows[i].(row := Api(db.rows[i].row.req.(duration := ms))) else db.rows[i]
  {
    hide IdsAscend, DurationRow, TakesDuration;
    DurationRowIsTaken(db, id, session, model, ts, i);
  }

  lemma TtftFillsOneRow(db: Db, id: int, session: string, model: string, ts: int, ms: int, i: int)
    requires IdsAscend(db.rows, db.last) && session != "" && model != "" && ms > 0 && 0 <= i < |db.rows|
    ensures TakesTtft(db.rows, i, id, session, model, ts) ==> db.rows[i].row.Api?
    ensures var next := UpdateTtft(db, id, session, model, ts, ms);
      |next.rows| == |db.rows| && next.rows[i] ==
        if TakesTtft(db.rows, i, id, session, model, ts) && db.rows[i].row.req.ttft == 0
        then db.rows[i].(row := Api(db.rows[i].row.req.(ttft := ms))) else db.rows[i]
  {
    hide IdsAscend, TtftRow, TakesTtft;
    TtftRowIsTaken(db, id, session, model, ts, i);
  }

  /** The latency writers touch one latency column of one Codex row, fill it at
      most once, and never disturb the cache. */
  lemma LatencyKeepsSound(day: int -> int, db: Db, id: int, session: string, conversation: string, model: string, ts: int, ms: int)
    requires Sound(day, db)
    ensures Sound(day, UpdateDuration(db, id, session, model, ts, ms))
    ensures Sound(day, UpdateTtft(db, id, session, model, ts, ms))
    ensures Sound(day, UpdateTurnTtft(db, conversation, model, ts, ms))
  {
    hide Sound, DurationRow, TtftRow, TurnRow, SetRequest;
    var d, t, c := DurationRow(db.rows, id, session, model, ts), TtftRow(db.rows, id, session, model, ts), TurnRow(db.rows, conversation, model, ts);
    if d >= 0 { RewriteKeepsSound(day, db, d, db.rows[d].row.req.(duration := ms)); }
    if t >= 0 { RewriteKeepsSound(day, db, t, db.rows[t].row.req.(ttft := ms)); }
    if c >= 0 { RewriteKeepsSound(day, db, c, db.rows[c].row.req.(ttft := ms)); }
  }
}
