/** What each writer of the pool does to each stored row, said column by column and
    window by window. */
module Effects {
  import opened Rows
  import opened Aggregate
  import opened Pool
  import opened Completion

  predicate OfCodex(s: Stored, session: string, model: string) {
    s.row.Api? && s.row.req.session == session && s.row.req.model == model && s.row.req.service == "codex"
  }

  predicate HasNoUsage(s: Stored)
    requires s.row.Api?
  {
    var t := s.row.req.tok;
    t.input == 0 && t.output == 0 && t.cacheRead == 0 && t.cacheCreate == 0 && t.reasoning == 0 && t.total == 0
  }

  // ---------- Completions ----------

  /** A row of the completion's session and model that waits and is at most half an
      hour older. */
  predicate WaitsFor(s: Stored, u: Update) {
    OfCodex(s, u.session, u.model) && HasNoUsage(s) && s.row.req.ts >= u.ts - 30 * 60
  }

  predicate Names(s: Stored, u: Update) {
    u.rowId > 0 && OfCodex(s, u.session, u.model) && s.id == u.rowId
  }

  /** The row a completion is for: the one its row id names or, if it names none, the
      newest that waits for it. */
  predicate IsFor(rows: seq<Stored>, i: int, u: Update)
    requires 0 <= i < |rows|
  {
    if exists j :: 0 <= j < |rows| && Names(rows[j], u) then Names(rows[i], u)
    else WaitsFor(rows[i], u) && forall j :: i < j < |rows| ==> !WaitsFor(rows[j], u)
  }

  predicate SaysNothing(u: Update) {
    && u.tok.input == 0 && u.tok.output == 0 && u.tok.cacheRead == 0 && u.tok.cacheCreate == 0 && u.tok.reasoning == 0 && u.tok.total == 0
    && u.ttft == 0 && u.duration == 0 && u.cost == 0
  }

  /** Some row carries the completion's usage already, from half an hour and a minute
      before it to a minute after. */
  predicate IsStored(rows: seq<Stored>, u: Update) {
    exists j :: 0 <= j < |rows| && OfCodex(rows[j], u.session, u.model) && rows[j].row.req.tok == u.tok
                && u.ts - 31 * 60 <= rows[j].row.req.ts && rows[j].row.req.ts <= u.ts + 60
  }

  lemma PlainPending(s: Stored, u: Update)
    ensures IsPending(s, u) <==> WaitsFor(s, u)
  {
  }

  lemma PlainExact(s: Stored, u: Update)
    ensures u.rowId > 0 && IsExact(s, u.rowId, u.session, u.model) <==> Names(s, u)
  {
  }

  lemma PlainTwin(rows: seq<Stored>, u: Update)
    ensures HasTwin(rows, u) <==> IsStored(rows, u)
  {
    forall i | 0 <= i < |rows| ensures Twin(rows[i], u) <==>
      OfCodex(rows[i], u.session, u.model) && rows[i].row.req.tok == u.tok
      && u.ts - 31 * 60 <= rows[i].row.req.ts && rows[i].row.req.ts <= u.ts + 60
    {
    }
  }

  lemma DecidesWhatItIsFor(db: Db, u: Update, i: int)
    requires IdsAscend(db.rows, db.last) && 0 <= i < |db.rows|
    ensures Decide(db.rows, u) == Finalize(i) <==> !SaysNothing(u) && IsFor(db.rows, i, u) && HasNoUsage(db.rows[i])
  {
    hide IdsAscend, HasTwin, WaitsFor, IsPending, Names, IsExact;
    forall j | 0 <= j < |db.rows| ensures (IsPending(db.rows[j], u) <==> WaitsFor(db.rows[j], u)) && (u.rowId > 0 && IsExact(db.rows[j], u.rowId, u.session, u.model) <==> Names(db.rows[j], u)) {
      PlainPending(db.rows[j], u);
      PlainExact(db.rows[j], u);
    }
    var exact := ExactRow(db.rows, u);
    if exact >= 0 && Names(db.rows[i], u) {
      OneExactRow(db, i, exact, u.rowId, u.session, u.model);
    }
  }

  predicate SomeIsFor(rows: seq<Stored>, u: Update) {
    exists i :: 0 <= i < |rows| && IsFor(rows, i, u)
  }

  lemma AddsWhenNoneIsFor(db: Db, u: Update)
    requires IdsAscend(db.rows, db.last)
    ensures Decide(db.rows, u).Orphan? <==>
      !SaysNothing(u) && !SomeIsFor(db.rows, u) && !IsStored(db.rows, u) && u.tok != Tokens(0, 0, 0, 0, 0, 0)
  {
    hide IdsAscend, HasTwin, WaitsFor, IsPending, Names, IsExact, IsStored;
    forall j | 0 <= j < |db.rows| ensures (IsPending(db.rows[j], u) <==> WaitsFor(db.rows[j], u)) && (u.rowId > 0 && IsExact(db.rows[j], u.rowId, u.session, u.model) <==> Names(db.rows[j], u)) {
      PlainPending(db.rows[j], u);
      PlainExact(db.rows[j], u);
    }
    PlainTwin(db.rows, u);
    var exact, pending := ExactRow(db.rows, u), PendingRow(db.rows, u);
    if exact >= 0 {
      assert IsFor(db.rows, exact, u);
    } else if pending >= 0 {
      assert IsFor(db.rows, pending, u);
    }
  }

  /** The row as its completion leaves it. */
  function Completed(q: Request, u: Update): Request {
    Request(q.ts, q.session, q.prompt, q.eventSeq, q.model, u.tok, u.cost,
            if u.duration > 0 then u.duration else q.duration, if u.ttft > 0 then u.ttft else q.ttft,
            q.requestId, q.service, q.eventName, q.conversation, q.error, q.rest)
  }

  /** A completion changes the row it is for, if that has no usage yet, and no other. */
  lemma CompletionChanges(day: int -> int, db: Db, u: Update, i: int)
    requires IdsAscend(db.rows, db.last) && 0 <= i < |db.rows|
    ensures |Complete(day, db, u).rows| >= |db.rows|
    ensures var here := !SaysNothing(u) && IsFor(db.rows, i, u) && HasNoUsage(db.rows[i]);
      Complete(day, db, u).rows[i] == if here then Stored(db.rows[i].id, Api(Completed(db.rows[i].row.req, u))) else db.rows[i]
  {
    hide IdsAscend, Decide, Upsert, Contribution, InsertRequest, SaysNothing;
    DecidesWhatItIsFor(db, u, i);
    CompleteTouchesOneRow(day, db, u, i);
  }

  /** It adds a row if and only if it is for none and its usage is not stored yet: a
      Codex row of its own time, with all it carries. */
  lemma CompletionAdds(day: int -> int, db: Db, u: Update)
    requires IdsAscend(db.rows, db.last)
    ensures var next := Complete(day, db, u).rows;
      var adds := !SaysNothing(u) && !SomeIsFor(db.rows, u) && !IsStored(db.rows, u) && u.tok != Tokens(0, 0, 0, 0, 0, 0);
      && |next| == |db.rows| + (if adds then 1 else 0)
      && (adds ==> next[|db.rows|].row == Api(Request(
           u.ts, u.session, "", 0, u.model, u.tok, u.cost, u.duration, u.ttft, "", "codex", "codex.sse_event:response.completed", "", "", [])))
  {
    hide IdsAscend, Decide, Upsert, Contribution, SaysNothing, SomeIsFor, IsStored, LiveKey;
    AddsWhenNoneIsFor(db, u);
  }

  // ---------- Turn observations ----------

  /** A request of the conversation and model, not failed, without a first-token
      time, that was made in the hour before ts. */
  predicate IsAnchorOf(s: Stored, conversation: string, model: string, ts: int) {
    && s.row.Api? && s.row.req.conversation == conversation && s.row.req.model == model && s.row.req.service == "codex"
    && s.row.req.eventName == "codex.api_request" && s.row.req.error == "" && s.row.req.ttft == 0
    && s.row.req.ts <= ts && ts - s.row.req.ts <= 60 * 60
  }

  predicate IsLatestAnchor(rows: seq<Stored>, i: int, conversation: string, model: string, ts: int)
    requires 0 <= i < |rows|
  {
    && IsAnchorOf(rows[i], conversation, model, ts)
    && forall j :: 0 <= j < |rows| && IsAnchorOf(rows[j], conversation, model, ts) ==>
         rows[j].row.req.ts < rows[i].row.req.ts || (rows[j].row.req.ts == rows[i].row.req.ts && j <= i)
  }

  lemma PlainAnchor(s: Stored, conversation: string, model: string, ts: int)
    ensures TurnAnchor(s, conversation, model, ts) <==> IsAnchorOf(s, conversation, model, ts)
  {
  }

  /** A turn's first output is written to its latest anchor and nowhere else. */
  lemma TurnChanges(db: Db, conversation: string, model: string, ts: int, ms: int, i: int)
    requires 0 <= i < |db.rows|
    ensures var next := UpdateTurnTtft(db, conversation, model, ts, ms).rows;
      var here := conversation != "" && model != "" && ms > 0 && IsLatestAnchor(db.rows, i, conversation, model, ts);
      |next| == |db.rows| && next[i] == if here then db.rows[i].(row := Api(db.rows[i].row.req.(ttft := ms))) else db.rows[i]
  {
    hide TurnAnchor, IsAnchorOf;
    forall j | 0 <= j < |db.rows| ensures TurnAnchor(db.rows[j], conversation, model, ts) <==> IsAnchorOf(db.rows[j], conversation, model, ts) {
      PlainAnchor(db.rows[j], conversation, model, ts);
    }
    var r := TurnRow(db.rows, conversation, model, ts);
    if r >= 0 {
      PlainAnchor(db.rows[r], conversation, model, ts);
      AnchorIsApi(db.rows[r], conversation, model, ts);
    }
    if IsLatestAnchor(db.rows, i, conversation, model, ts) {
      AnchorIsApi(db.rows[i], conversation, model, ts);
    }
  }

  lemma AnchorIsApi(s: Stored, conversation: string, model: string, ts: int)
    requires IsAnchorOf(s, conversation, model, ts)
    ensures s.row.Api?
  {
  }

  // ---------- Live inserts ----------

  predicate Waits(s: Stored) {
    s.row.Pending? && !s.row.processed
  }

  predicate UnderItsId(s: Stored, q: Request) {
    Waits(s) && q.requestId != "" && s.row.requestId == q.requestId
  }

  predicate Nearby(s: Stored, q: Request) {
    && Waits(s) && q.session != "" && q.model != "" && s.row.span.session == q.session && s.row.span.model == q.model
    && q.ts - 120 <= s.row.span.end && s.row.span.end <= q.ts + 120
  }

  function Apart(a: int, b: int): nat {
    if a < b then b - a else a - b
  }

  /** Span a ended no further from the request than span b. */
  predicate NoFurther(a: Stored, b: Stored, q: Request)
    requires a.row.Pending? && b.row.Pending?
  {
    Apart(a.row.span.end, q.ts) <= Apart(b.row.span.end, q.ts)
  }

  /** The span a request takes: under its own id if any waits there, else of its
      session and model within two minutes, and none that ended closer to it. */
  lemma TakesTheClosest(rows: seq<Stored>, q: Request, i: int)
    requires Takes(rows, q, i)
    ensures var own := exists j :: 0 <= j < |rows| && UnderItsId(rows[j], q);
      if i < 0 then !own && forall j :: 0 <= j < |rows| ==> !Nearby(rows[j], q)
      else
        && i < |rows| && rows[i].row.Pending? && (if own then UnderItsId(rows[i], q) else Nearby(rows[i], q))
        && forall j :: 0 <= j < |rows| && (if own then UnderItsId(rows[j], q) else Nearby(rows[j], q)) ==> NoFurther(rows[i], rows[j], q)
  {
    forall j | 0 <= j < |rows| ensures (WaitsById(rows[j].row, q) <==> UnderItsId(rows[j], q)) && (WaitsNearby(rows[j].row, q) <==> Nearby(rows[j], q)) {
    }
  }

  /** A live insert of a request whose id is new: one more row, the request with the
      span's first-token time where it had none, and that span processed. */
  lemma InsertChanges(day: int -> int, db: Db, q: Request, i: int)
    requires -1 <= i < |db.rows| && (i >= 0 ==> db.rows[i].row.Pending?)
    requires q.requestId == "" || forall j :: 0 <= j < |db.rows| && db.rows[j].row.Api? ==> db.rows[j].row.req.requestId != q.requestId
    ensures var next := InsertWithSpan(day, db, q, i).rows;
      var filled := i >= 0 && q.ttft == 0 && db.rows[i].row.span.ttft > 0;
      && |next| == |db.rows| + 1
      && next[|db.rows|].row == Api(if filled then q.(ttft := db.rows[i].row.span.ttft) else q)
      && forall j :: 0 <= j < |db.rows| ==>
           next[j] == if filled && j == i then db.rows[j].(row := db.rows[j].row.(processed := true)) else db.rows[j]
  {
    hide Upsert, LiveKey, Contribution;
    if SpanApplies(db, q, i) {
      ProcessKeepsIds(db.rows, i, q.requestId);
    }
  }

  /** One whose id is stored changes nothing. */
  lemma KnownIdChangesNothing(day: int -> int, db: Db, q: Request, i: int, j: int)
    requires 0 <= j < |db.rows| && db.rows[j].row.Api? && q.requestId != "" && db.rows[j].row.req.requestId == q.requestId
    ensures InsertWithSpan(day, db, q, i) == db
  {
    hide Upsert, LiveKey, Contribution;
  }

  /** A Codex insert stores the request as it is but for its client and its prompt. */
  lemma CodexInsertStores(day: int -> int, db: Db, q: Request)
    requires q.requestId == "" || forall j :: 0 <= j < |db.rows| && db.rows[j].row.Api? ==> db.rows[j].row.req.requestId != q.requestId
    ensures var next := InsertRequest(day, db, CodexRow(q)).rows;
      && |next| == |db.rows| + 1 && next[..|db.rows|] == db.rows
      && next[|db.rows|].row == Api(Request(
           q.ts, q.session, "", q.eventSeq, q.model, q.tok, q.cost, q.duration, q.ttft, q.requestId, "codex", q.eventName, q.conversation, q.error, q.rest))
  {
    hide Upsert, LiveKey, Contribution;
  }
}
