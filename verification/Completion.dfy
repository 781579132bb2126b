/** Codex completions: one record finalizes one pending row, at least once delivery. */
module Completion {
  import opened Rows
  import opened Aggregate
  import opened Pool

  /** The payload of a token update; rowId is 0 when the tracker knows no row. */
  datatype Update = Update(rowId: int, session: string, model: string, ts: int, tok: Tokens, cost: int, duration: int, ttft: int)

  datatype Decision = Skip | Finalize(i: int) | Orphan

  predicate CarriesNothing(u: Update) {
    u.tok == NO_TOKENS && u.ttft == 0 && u.duration == 0 && u.cost == 0
  }

  predicate Waiting(s: Stored, session: string, model: string) {
    IsCodex(s, session, model) && s.row.req.tok == NO_TOKENS
  }

  predicate IsPending(s: Stored, u: Update) {
    Waiting(s, u.session, u.model) && s.row.req.ts >= u.ts - 1800
  }

  /** A stored row that already carries this completion's token vector. */
  predicate Twin(s: Stored, u: Update) {
    IsCodex(s, u.session, u.model) && s.row.req.tok == u.tok && u.ts - 1860 <= s.row.req.ts <= u.ts + 60
  }

  predicate HasTwin(rows: seq<Stored>, u: Update) {
    exists i :: 0 <= i < |rows| && Twin(rows[i], u)
  }

  function ExactRow(rows: seq<Stored>, u: Update): (r: int)
    ensures -1 <= r < |rows| && (r >= 0 ==> IsExact(rows[r], u.rowId, u.session, u.model))
  {
    if u.rowId > 0 then Newest(rows, s => IsExact(s, u.rowId, u.session, u.model)) else -1
  }

  function PendingRow(rows: seq<Stored>, u: Update): (r: int)
    ensures -1 <= r < |rows| && (r >= 0 ==> IsPending(rows[r], u))
    ensures forall j :: r < j < |rows| ==> !IsPending(rows[j], u)
  {
    Newest(rows, s => IsPending(s, u))
  }

  /** Where a completion goes. */
  function Decide(rows: seq<Stored>, u: Update): (d: Decision)
    ensures d.Finalize? ==> 0 <= d.i < |rows| && Waiting(rows[d.i], u.session, u.model)
  {
    var exact, pending := ExactRow(rows, u), PendingRow(rows, u);
    if CarriesNothing(u) then Skip
    else if exact >= 0 then if rows[exact].row.req.tok == NO_TOKENS then Finalize(exact) else Skip
    else if pending >= 0 then Finalize(pending)
    else if HasTwin(rows, u) || u.tok == NO_TOKENS then Skip
    else Orphan
  }

  function Finalized(q: Request, u: Update): Request {
    q.(tok := u.tok, cost := u.cost,
       duration := if u.duration > 0 then u.duration else q.duration,
       ttft := if u.ttft > 0 then u.ttft else q.ttft)
  }

  function OrphanRow(u: Update): Request {
    Request(u.ts, u.session, "", 0, u.model, u.tok, u.cost, u.duration, u.ttft, "",
            CODEX_SERVICE, "codex.sse_event:response.completed", "", "", [])
  }

  function Complete(day: int -> int, db: Db, u: Update): Db {
    match Decide(db.rows, u)
    case Skip => db
    case Finalize(i) =>
      var q := db.rows[i].row.req;
      SetRequest(db, i, Finalized(q, u)).(agg := Upsert(db.agg, Key(day(q.ts), u.model, CODEX_SERVICE), Contribution(OrphanRow(u)).(requests := 0)))
    case Orphan => InsertRequest(day, db, OrphanRow(u))
  }

  // ---------- The cache ----------

  /** A completion keeps the cache right exactly when the row it finalizes had
      not been charged: the cost delta is the new cost, not the difference. */
  lemma CompleteKeepsAgreement(day: int -> int, db: Db, u: Update)
    requires Agrees(day, db.rows, db.agg)
    ensures var next := Complete(day, db, u); var d := Decide(db.rows, u);
      Agrees(day, next.rows, next.agg) <==> (d.Finalize? ==> db.rows[d.i].row.req.cost == 0)
  {
    match Decide(db.rows, u)
    case Skip =>
    case Finalize(i) =>
      FinalizeKeepsAgreement(day, db.rows, db.agg, i, Finalized(db.rows[i].row.req, u));
    case Orphan =>
      CodexIsClean();
      InsertKeepsAgreement(day, db, OrphanRow(u));
  }

  lemma CompleteKeepsSound(day: int -> int, db: Db, u: Update)
    requires Sound(day, db)
    requires u.tok == NO_TOKENS ==> u.cost == 0
    ensures Sound(day, Complete(day, db, u))
  {
    CompleteKeepsAgreement(day, db, u);
    match Decide(db.rows, u)
    case Skip =>
    case Finalize(i) =>
      RewriteKeepsRows(db, i, Finalized(db.rows[i].row.req, u));
    case Orphan =>
      CodexIsClean();
      InsertKeepsSound(day, db, OrphanRow(u));
  }

  /** A completion finalizes at most one waiting row and inserts at most one. */
  lemma CompleteTouchesOneRow(day: int -> int, db: Db, u: Update, j: int)
    requires 0 <= j < |db.rows|
    ensures |db.rows| <= |Complete(day, db, u).rows| <= |db.rows| + 1
    ensures if Decide(db.rows, u) == Finalize(j)
            then Waiting(db.rows[j], u.session, u.model)
                 && Complete(day, db, u).rows[j] == db.rows[j].(row := Api(Finalized(db.rows[j].row.req, u)))
            else Complete(day, db, u).rows[j] == db.rows[j]
  {
    hide ExactRow, PendingRow, HasTwin, Upsert, Contribution, IdTaken, Finalized;
    match Decide(db.rows, u)
    case Skip =>
    case Finalize(i) =>
    case Orphan =>
  }

  // ---------- The row a completion is pinned to ----------

  lemma OwnRowIsDecided(db: Db, i: int, u: Update)
    requires IdsAscend(db.rows, db.last) && 0 <= i < |db.rows|
    requires Waiting(db.rows[i], u.session, u.model) && u.rowId == db.rows[i].id && (u.tok != NO_TOKENS || u.ttft != 0)
    ensures Decide(db.rows, u) == Finalize(i)
  {
    assert IsExact(db.rows[i], u.rowId, u.session, u.model);
    var exact := ExactRow(db.rows, u);
    assert exact == i;
  }

  lemma WaitingIsApi(s: Stored, u: Update)
    requires Waiting(s, u.session, u.model)
    ensures s.row.Api?
  {
  }

  lemma FinalizedRow(day: int -> int, db: Db, i: int, u: Update)
    requires IdsAscend(db.rows, db.last) && 0 <= i < |db.rows|
    requires Waiting(db.rows[i], u.session, u.model) && u.rowId == db.rows[i].id && (u.tok != NO_TOKENS || u.ttft != 0)
    ensures var next := Complete(day, db, u);
      && next.rows == db.rows[i := db.rows[i].(row := Api(Finalized(db.rows[i].row.req, u)))]
      && IdsAscend(next.rows, next.last)
  {
    hide Decide, Upsert, Contribution, OrphanRow, IdsAscend, Waiting;
    OwnRowIsDecided(db, i, u);
    WaitingIsApi(db.rows[i], u);
    RewriteKeepsAscent(db, i, Finalized(db.rows[i].row.req, u));
  }

  // ---------- Replays ----------

  /** `again` is another delivery of u: the client's record is the same, what
      the tracker adds to it (the row id and the duration) may not be. */
  predicate Redelivers(u: Update, again: Update) {
    again.(rowId := u.rowId, duration := u.duration) == u
  }

  /** The state in which a delivery has nothing left to do. */
  predicate Settled(rows: seq<Stored>, u: Update) {
    var exact := ExactRow(rows, u);
    if exact >= 0 then rows[exact].row.req.tok != NO_TOKENS
    else PendingRow(rows, u) < 0 && HasTwin(rows, u)
  }

  lemma DeliveryIsNoop(day: int -> int, db: Db, u: Update)
    requires u.tok != NO_TOKENS
    ensures Complete(day, db, u) == db <==> Settled(db.rows, u)
  {
    match Decide(db.rows, u)
    case Skip =>
    case Finalize(i) =>
      assert Complete(day, db, u).rows[i].row.req.tok == u.tok;
    case Orphan =>
      assert |Complete(day, db, u).rows| == |db.rows| + 1;
  }

  /** No row but the i-th of this session and model still waits. */
  predicate OnlyWaiting(rows: seq<Stored>, u: Update, i: int) {
    forall j :: 0 <= j < |rows| && j != i ==> !Waiting(rows[j], u.session, u.model)
  }

  /** The first delivery landed on a row that a replay will recognise. */
  predicate LandsInWindow(rows: seq<Stored>, u: Update) {
    match Decide(rows, u)
    case Skip => false
    case Finalize(i) => OnlyWaiting(rows, u, i) && u.ts - 1860 <= rows[i].row.req.ts <= u.ts + 60
    case Orphan => OnlyWaiting(rows, u, -1)
  }

  function DeliverAll(day: int -> int, db: Db, us: seq<Update>): Db
    decreases |us|
  {
    if us == [] then db else DeliverAll(day, Complete(day, db, us[0]), us[1..])
  }

  lemma FirstDeliverySettles(day: int -> int, db: Db, u: Update, again: Update)
    requires u.tok != NO_TOKENS && Redelivers(u, again) && LandsInWindow(db.rows, u)
    ensures Settled(Complete(day, db, u).rows, again)
  {
    var next := Complete(day, db, u).rows;
    var i := if Decide(db.rows, u).Finalize? then Decide(db.rows, u).i else |db.rows|;
    assert Twin(next[i], again);
    forall j | 0 <= j < |next| ensures !Waiting(next[j], u.session, u.model) {
      if j < |db.rows| && j != i {
        assert next[j] == db.rows[j];
      }
    }
  }

  /** Re-delivering a completion any number of times leaves the whole database
      as the first delivery left it, whichever path the first delivery took. */
  lemma {:induction false} ReplaysAreIdempotent(day: int -> int, db: Db, u: Update, replays: seq<Update>)
    requires u.tok != NO_TOKENS && LandsInWindow(db.rows, u)
    requires forall k :: 0 <= k < |replays| ==> Redelivers(u, replays[k])
    ensures DeliverAll(day, Complete(day, db, u), replays) == Complete(day, db, u)
  {
    if replays != [] {
      FirstDeliverySettles(day, db, u, replays[0]);
      DeliveryIsNoop(day, Complete(day, db, u), replays[0]);
      ReplaysAreIdempotent(day, db, u, replays[1..]);
    }
  }

  /** Without that condition a replay can finalize another request's row: two
      requests of one session and model, one completion, one replay. */
  lemma ReplayCanTakeAnotherRow(day: int -> int, q: Request, u: Update)
    requires q.tok == NO_TOKENS && q.requestId == "" && q.ts >= u.ts - 1800
    requires u.rowId == 0 && u.session == q.session && u.model == q.model && u.tok != NO_TOKENS
    ensures var one := InsertRequest(day, Db([], map[], map[], map[]), CodexRow(q));
      var once := Complete(day, InsertRequest(day, one, CodexRow(q)), u);
      var waiting, finished := Api(CodexRow(q)), Api(Finalized(CodexRow(q), u));
      && once.rows == [Stored(1, waiting), Stored(2, finished)]
      && Complete(day, once, u).rows == [Stored(1, finished), Stored(2, finished)]
  {
    hide Upsert, LiveKey, Contribution, HasTwin;
    var row := Api(CodexRow(q));
    var rows := [Stored(1, row), Stored(2, row)];
    var one := InsertRequest(day, Db([], map[], map[], map[]), CodexRow(q));
    var two := InsertRequest(day, one, CodexRow(q));
    assert two.rows == rows;
    assert IsPending(rows[1], u) && PendingRow(rows, u) == 1;
    var once := Complete(day, two, u);
    assert once.rows == rows[1 := Stored(2, Api(Finalized(CodexRow(q), u)))];
    assert IsPending(once.rows[0], u) && !IsPending(once.rows[1], u);
    assert PendingRow(once.rows, u) == 0;
    assert once.rows[0 := Stored(1, Api(Finalized(CodexRow(q), u)))] == [Stored(1, Api(Finalized(CodexRow(q), u))), once.rows[1]];
  }
}
