/** What a whole run of the receiver does to the cache, and when a completion does
    not reach the row it belongs to. */
module Traces {
  import opened Rows
  import opened Aggregate
  import opened Pool
  import opened Completion
  import opened SpanTracker
  import opened Dispatch
  import opened Routing

  // ---------- The cache ----------

  /** No record charges a request that used no tokens. */
  predicate ChargesNothing(e: Event) {
    && (e.Requested? ==> FreeWhilePending(CodexRow(e.q)))
    && (e.Completed? && e.u.tok == NO_TOKENS ==> e.u.cost == 0)
  }

  lemma {:induction false} FillingKeepsSound(day: int -> int, db: Db, id: int, session: string, model: string, obs: seq<Observation>)
    requires Sound(day, db)
    ensures Sound(day, FillAll(db, id, session, model, obs))
    decreases |obs|
  {
    hide Sound, UpdateTtft;
    if obs != [] {
      var n := |obs| - 1;
      FillingKeepsSound(day, db, id, session, model, obs[..n]);
      LatencyKeepsSound(day, FillAll(db, id, session, model, obs[..n]), id, session, "", model, obs[n].nanos / NANOS, obs[n].ms);
    }
  }

  lemma ClosingKeepsSound(day: int -> int, db: Db, info: SpanInfo, observed: int, ts: int)
    requires Sound(day, db)
    ensures Sound(day, CloseStream(day, db, info, observed, ts))
  {
    hide Sound, UpdateDuration, UpdateTtft, UpdateTurnTtft, DurationRow, InsertRequest, CleanService;
    var ms := Elapsed(info, observed);
    LatencyKeepsSound(day, db, info.rowId, info.session, "", info.model, ts, ms);
    CodexIsClean();
    InsertKeepsSound(day, db, DurationOnly(info, ts, ms));
  }

  lemma RequestKeepsSound(day: int -> int, w: World, e: Event, next: World)
    requires Sound(day, w.db) && e.Requested? && Handles(day, w, e, next) && ChargesNothing(e)
    ensures Sound(day, next.db)
  {
    hide Sound, InsertRequest, CleanService, FillAll, AnchorId, Drains, Records;
    var obs: seq<Observation> :| Anchors(day, w, e.q, e.at, AnchorId(w.db, e.q), obs, next);
    CodexIsClean();
    InsertKeepsSound(day, w.db, CodexRow(e.q));
    FillingKeepsSound(day, InsertRequest(day, w.db, CodexRow(e.q)), AnchorId(w.db, e.q), e.q.session, e.q.model, obs);
  }

  lemma CompletionKeepsSound(day: int -> int, w: World, e: Event, next: World)
    requires Sound(day, w.db) && e.Completed? && Handles(day, w, e, next) && ChargesNothing(e)
    ensures Sound(day, next.db)
  {
    hide Sound, Complete, Answers, Tokenless;
    if !Tokenless(e.u) {
      var key: Option<SpanKey> :| Completes(day, w, e, key, next);
      CompleteKeepsSound(day, w.db, if key.Some? then WithTracker(e.u, w.spans[key.value], e.observed) else e.u);
    }
  }

  /** Handling one record, of either transport, keeps the cache right. */
  lemma HandlingKeepsSound(day: int -> int, w: World, e: Event, next: World)
    requires Sound(day, w.db) && Handles(day, w, e, next) && ChargesNothing(e)
    ensures Sound(day, next.db)
  {
    hide Sound, UpdateTtft, UpdateDuration, UpdateTurnTtft, CloseStream, Answers, Records, Anchors, Completes, Stashed, Applies;
    match e
    case Requested(_, _, _, _, _, _) =>
      RequestKeepsSound(day, w, e, next);
    case Completed(_, _, _) =>
      CompletionKeepsSound(day, w, e, next);
    case Created(span, session, model, observed, ts) =>
      var key: Option<SpanKey> :| Finds(w, span, session, model, observed, key) && next == w.(db :=
        if key.None? then w.db
        else var info := w.spans[key.value]; UpdateTtft(w.db, info.rowId, info.session, info.model, ts, Elapsed(info, observed)));
      if key.Some? {
        var info := w.spans[key.value];
        LatencyKeepsSound(day, w.db, info.rowId, info.session, "", info.model, ts, Elapsed(info, observed));
      }
    case TurnOutput(conversation, model, at, now, ms) =>
      LatencyKeepsSound(day, w.db, 0, "", conversation, model, at / NANOS, ms);
    case Opened(_, _, _, _, _) =>
    case Closed(span, session, model, observed, ts) =>
      var key: Option<SpanKey> :| Finds(w, span, session, model, observed, key)
        && next == w.(db := if key.None? then w.db else CloseStream(day, w.db, w.spans[key.value], observed, ts));
      if key.Some? {
        ClosingKeepsSound(day, w.db, w.spans[key.value], observed, ts);
      }
  }

  /** In a run of the receiver, in order or not, the cache never drifts. */
  lemma {:induction false} StepsKeepSound(day: int -> int, base: Db, events: seq<Event>, worlds: seq<World>, i: nat)
    requires Sound(day, base) && Steps(day, base, events, worlds) && i <= |events|
    requires forall k :: 0 <= k < |events| ==> ChargesNothing(events[k])
    ensures Sound(day, worlds[i].db)
  {
    hide Sound, Handles, ChargesNothing;
    if i > 0 {
      StepsKeepSound(day, base, events, worlds, i - 1);
      assert Handles(day, worlds[i - 1], events[i - 1], worlds[i - 1 + 1]);
      HandlingKeepsSound(day, worlds[i - 1], events[i - 1], worlds[i]);
    }
  }

  /** Each request is one row, holds the usage of its own completion, and is counted
      once: the cache is what the rows add up to. */
  lemma EachRequestIsCountedOnce(day: int -> int, base: Db, events: seq<Event>, worlds: seq<World>)
    requires Sound(day, base) && Trace(day, base, events, worlds)
    requires forall k :: 0 <= k < |events| ==> ChargesNothing(events[k])
    ensures var db, os := worlds[|events|].db, OwnersOf(events, worlds);
      && RowsAreDue(base.rows, events, os, db.rows) && Named(os) == Requests(events)
      && db.agg == GroupBy(day, db.rows)
  {
    hide RowsAreDue, OwnersOf, Orderly, Handles, Named, Requests, ChargesNothing, PendingFree, GroupBy, Routed;
    EveryCompletionReachesItsOwnRow(day, base, events, worlds);
    OwnersAreTheRequests(events, worlds);
    StepsKeepSound(day, base, events, worlds, |events|);
  }

  // ---------- When a completion reaches its row ----------

  /** The i-th row is the one that a row id names or, if it names none of the
      completion's session and model, the newest pending one of them. */
  predicate Aims(rows: seq<Stored>, i: int, id: int, u: Update)
    requires 0 <= i < |rows|
  {
    if HasExact(rows, id, u.session, u.model) then IsExact(rows[i], id, u.session, u.model)
    else IsPending(rows[i], u) && forall j :: i < j < |rows| ==> !IsPending(rows[j], u)
  }

  predicate WithoutTokens(s: Stored) {
    s.row.Api? && s.row.req.tok == NO_TOKENS
  }

  /** The row id of the entry found, or the completion's own, leads to the row of
      its request or, if it has none, to no waiting row of a request and to none
      that was there. */
  predicate Reaches(n: nat, os: Owners, rows: seq<Stored>, id: int, e: Event)
    requires e.Completed? && |rows| == n + |os|
  {
    if Known(os, e.span) then exists k :: 0 <= k < |os| && Streams(os[k], e.span) && Aims(rows, n + k, id, e.u)
    else forall i :: 0 <= i < |rows| && Aims(rows, i, id, e.u) && WithoutTokens(rows[i]) ==> i >= n && os[i - n].None?
  }

  /** The same, said of the row that is finalized. */
  predicate Lands(n: nat, os: Owners, e: Event, d: Decision)
    requires e.Completed? && (d.Finalize? ==> 0 <= d.i < n + |os|)
  {
    if Known(os, e.span) then d.Finalize? && d.i >= n && Streams(os[d.i - n], e.span)
    else d.Finalize? ==> d.i >= n && os[d.i - n].None?
  }

  /** A completion with usage finalizes a row if and only if it aims at it and the
      row has no tokens. */
  lemma FinalizesItsAim(db: Db, u: Update, i: int)
    requires IdsAscend(db.rows, db.last) && u.tok != NO_TOKENS && 0 <= i < |db.rows|
    ensures Decide(db.rows, u) == Finalize(i) <==> Aims(db.rows, i, u.rowId, u) && WithoutTokens(db.rows[i])
  {
    hide IdsAscend, HasTwin;
    var exact := ExactRow(db.rows, u);
    if exact >= 0 && IsExact(db.rows[i], u.rowId, u.session, u.model) {
      OneExactRow(db, i, exact, u.rowId, u.session, u.model);
    }
  }

  lemma TakenRowIsNotDue(events: seq<Event>, o: Option<Asked>, s: Stored, t: Stored)
    requires AsDue(events, o, s) && o.Some? && s.row.Api? && t.row.Api? && t.row.req.tok != s.row.req.tok
    ensures !AsDue(events, o, t)
  {
    hide CompletionOf;
  }

  /** One completion with usage, the first under its span, whether in order or not:
      all rows are as due after it if and only if it reaches its own row. */
  lemma CompletionIsRightExactly(day: int -> int, base: seq<Stored>, events: seq<Event>, os: Owners, w: World, e: Event, key: Option<SpanKey>, next: World)
    requires Routed(base, events, os, w) && e.Completed? && e.u.tok != NO_TOKENS && CompletionOf(events, e.span).None?
    requires Completes(day, w, e, key, next)
    ensures |w.db.rows| == |base| + |os|
    ensures RowsAreDue(base, events + [e], os + Added(w, e, next), next.db.rows)
       <==> Reaches(|base|, os, w.db.rows, if key.Some? then w.spans[key.value].rowId else e.u.rowId, e)
  {
    hide IdsAscend, TrackerPoints, StreamsAreDistinct, StartsAreKnown, Answers, Complete, Decide, RowsAreDue, Known, CompletionOf, Lands, Reaches;
    RoutedRows(base, events, os, w);
    var u := if key.Some? then WithTracker(e.u, w.spans[key.value], e.observed) else e.u;
    ReachesAsItLands(base, events, os, w, e, u);
    if Known(os, e.span) {
      OwnedIsRightExactly(day, base, events, os, w, e, u, next);
    } else {
      StrayIsRightExactly(day, base, events, os, w, e, u, next);
    }
  }

  /** What the tracker adds to an update leaves its usage alone. */
  predicate SameUsage(u: Update, e: Event)
    requires e.Completed?
  {
    u.tok == e.u.tok && u.cost == e.u.cost && u.session == e.u.session && u.model == e.u.model
  }

  lemma FinalizesOneRow(day: int -> int, db: Db, u: Update)
    requires Decide(db.rows, u).Finalize?
    ensures var i := Decide(db.rows, u).i;
      && Waiting(db.rows[i], u.session, u.model)
      && Complete(day, db, u).rows == db.rows[i := db.rows[i].(row := Api(Finalized(db.rows[i].row.req, u)))]
  {
    hide Decide, Upsert, Contribution;
  }

  lemma OwnerAt(base: seq<Stored>, events: seq<Event>, os: Owners, rows: seq<Stored>, i: int)
    requires RowsAreDue(base, events, os, rows) && |base| <= i < |base| + |os|
    ensures AsDue(events, os[i - |base|], rows[i])
  {
    hide AsDue;
    assert rows[i] == rows[|base| + (i - |base|)];
  }

  lemma BaseRowIsTaken(base: seq<Stored>, events: seq<Event>, os: Owners, rows: seq<Stored>, more: Owners, next: seq<Stored>, i: int)
    requires RowsAreDue(base, events, os, rows) && 0 <= i < |base| && i < |next|
    requires rows[i].row.Api? && next[i].row.Api? && rows[i].row.req.tok != next[i].row.req.tok
    ensures !RowsAreDue(base, events, more, next)
  {
    assert UpToLatency(rows[i], base[i]) && !UpToLatency(next[i], base[i]);
  }

  lemma RequestRowIsTaken(base: seq<Stored>, events: seq<Event>, os: Owners, rows: seq<Stored>, next: seq<Stored>, i: int)
    requires RowsAreDue(base, events, os, rows) && |base| <= i < |rows| && i < |next| && os[i - |base|].Some?
    requires rows[i].row.Api? && next[i].row.Api? && rows[i].row.req.tok != next[i].row.req.tok
    ensures !RowsAreDue(base, events, os, next)
  {
    hide AsDue;
    OwnerAt(base, events, os, rows, i);
    TakenRowIsNotDue(events, os[i - |base|], rows[i], next[i]);
    if RowsAreDue(base, events, os, next) {
      OwnerAt(base, events, os, next, i);
    }
  }

  lemma StrayIsRightExactly(day: int -> int, base: seq<Stored>, events: seq<Event>, os: Owners, w: World, e: Event, u: Update, next: World)
    requires RowsAreDue(base, events, os, w.db.rows) && |w.db.rows| == |base| + |os| && IdsAscend(w.db.rows, w.db.last)
    requires e.Completed? && e.u.tok != NO_TOKENS && !Known(os, e.span) && SameUsage(u, e) && next.db == Complete(day, w.db, u)
    ensures RowsAreDue(base, events + [e], os + Added(w, e, next), next.db.rows) <==> Lands(|base|, os, e, Decide(w.db.rows, u))
  {
    hide IdsAscend, Complete, Decide, RowsAreDue, Known, LeavesDue, Due, UpToLatency;
    var n, rows, d := |base|, w.db.rows, Decide(w.db.rows, u);
    RowsStayDue(base, events, os, rows, e);
    if Lands(n, os, e, d) {
      if d.Finalize? {
        OwnerAt(base, events + [e], os, rows, d.i);
      }
      StrayCompletionLeavesDue(day, n, os, w.db, u);
      SparedRowsAreDue(base, events + [e], os, rows, next.db.rows);
    } else {
      FinalizesOneRow(day, w.db, u);
      assert os + [] == os;
      if d.i < n {
        BaseRowIsTaken(base, events + [e], os, rows, os, next.db.rows, d.i);
      } else {
        RequestRowIsTaken(base, events + [e], os, rows, next.db.rows, d.i);
      }
    }
  }

  lemma OnlyStream(os: Owners, span: string, j: int, k: int)
    requires StreamsAreDistinct(os) && 0 <= j < |os| && 0 <= k < |os| && Streams(os[j], span) && Streams(os[k], span)
    ensures j == k
  {
  }

  /** Before its completion a request's row holds no tokens, and afterwards it
      should hold the completion's. */
  lemma DueOfOwner(events: seq<Event>, o: Option<Asked>, e: Event, s: Stored)
    requires e.Completed? && !Tokenless(e.u) && Streams(o, e.span) && CompletionOf(events, e.span).None?
    requires AsDue(events, o, s) && WellFormedStream(o.value)
    ensures s.row.Api? && s.row.req.tok == NO_TOKENS && UpToLatency(s, Stored(s.id, Api(CodexRow(o.value.q))))
    ensures forall t: Stored :: AsDue(events + [e], o, t) ==> t.row.Api? && t.row.req.tok == e.u.tok
  {
    hide CompletionOf;
    CompletionOfNext(events, e, e.span);
  }

  lemma OwnedIsRightExactly(day: int -> int, base: seq<Stored>, events: seq<Event>, os: Owners, w: World, e: Event, u: Update, next: World)
    requires RowsAreDue(base, events, os, w.db.rows) && |w.db.rows| == |base| + |os| && StreamsAreDistinct(os)
    requires e.Completed? && e.u.tok != NO_TOKENS && Known(os, e.span) && CompletionOf(events, e.span).None?
    requires SameUsage(u, e) && next.db == Complete(day, w.db, u)
    ensures RowsAreDue(base, events + [e], os + Added(w, e, next), next.db.rows) <==> Lands(|base|, os, e, Decide(w.db.rows, u))
  {
    hide StreamsAreDistinct, Complete, Decide, RowsAreDue, CompletionOf, UpToLatency, AsDue, WellFormedStream, Finalized, CodexRow, Waiting;
    var n, rows, d := |base|, w.db.rows, Decide(w.db.rows, u);
    var k :| 0 <= k < |os| && Streams(os[k], e.span);
    if d.Finalize? && d.i >= n && Streams(os[d.i - n], e.span) {
      OnlyStream(os, e.span, d.i - n, k);
    }
    StreamIsWellFormed(os, k);
    OwnerAt(base, events, os, rows, n + k);
    DueOfOwner(events, os[k], e, rows[n + k]);
    if d == Finalize(n + k) {
      FinalizesOneRow(day, w.db, u);
      assert os + [] == os;
      OwnRowFinalized(rows[n + k], os[k].value, u);
      RowsAfterCompletion(base, events, os, rows, e, k, Finalized(rows[n + k].row.req, u));
    } else {
      CompleteTouchesOneRow(day, w.db, u, n + k);
      if RowsAreDue(base, events + [e], os + Added(w, e, next), next.db.rows) {
        OwnerAt(base, events + [e], os + Added(w, e, next), next.db.rows, n + k);
      }
    }
  }

  /** The row a completion lands on is the one its row id leads to. */
  lemma ReachesAsItLands(base: seq<Stored>, events: seq<Event>, os: Owners, w: World, e: Event, u: Update)
    requires Routed(base, events, os, w) && e.Completed? && e.u.tok != NO_TOKENS && CompletionOf(events, e.span).None?
    requires u == e.u.(rowId := u.rowId, duration := u.duration)
    ensures |w.db.rows| == |base| + |os|
    ensures Reaches(|base|, os, w.db.rows, u.rowId, e) <==> Lands(|base|, os, e, Decide(w.db.rows, u))
  {
    hide IdsAscend, TrackerPoints, StreamsAreDistinct, StartsAreKnown, Decide, RowsAreDue, CompletionOf, Aims, WithoutTokens;
    RoutedRows(base, events, os, w);
    var n, rows, d := |base|, w.db.rows, Decide(w.db.rows, u);
    forall i | 0 <= i < |rows| ensures d == Finalize(i) <==> Aims(rows, i, u.rowId, e.u) && WithoutTokens(rows[i]) {
      FinalizesItsAim(w.db, u, i);
      SameAim(rows, i, u, e.u);
    }
    forall k | 0 <= k < |os| && Streams(os[k], e.span) ensures WithoutTokens(rows[n + k]) {
      OwnRowHasNoTokens(base, events, os, w, e, k);
    }
    if Known(os, e.span) && d.Finalize? && d.i >= n && Streams(os[d.i - n], e.span) {
      assert Aims(rows, n + (d.i - n), u.rowId, e.u);
    }
  }

  lemma SameAim(rows: seq<Stored>, i: int, u: Update, v: Update)
    requires 0 <= i < |rows| && u.session == v.session && u.model == v.model && u.ts == v.ts
    ensures Aims(rows, i, u.rowId, u) == Aims(rows, i, u.rowId, v)
  {
  }

  lemma OwnRowHasNoTokens(base: seq<Stored>, events: seq<Event>, os: Owners, w: World, e: Event, k: int)
    requires Routed(base, events, os, w) && e.Completed? && e.u.tok != NO_TOKENS && CompletionOf(events, e.span).None?
    requires 0 <= k < |os| && Streams(os[k], e.span)
    ensures |w.db.rows| == |base| + |os| && WithoutTokens(w.db.rows[|base| + k])
  {
    hide IdsAscend, TrackerPoints, RowsAreDue, StreamsAreDistinct, StartsAreKnown, CompletionOf, AsDue, WellFormedStream, UpToLatency;
    RoutedRows(base, events, os, w);
    OwnerAt(base, events, os, w.db.rows, |base| + k);
    StreamIsWellFormed(os, k);
    DueOfOwner(events, os[k], e, w.db.rows[|base| + k]);
  }

  lemma StreamIsWellFormed(os: Owners, k: int)
    requires StreamsAreDistinct(os) && 0 <= k < |os| && os[k].Some? && os[k].value.streams
    ensures WellFormedStream(os[k].value)
  {
  }

  // ---------- A websocket completion that takes a row ----------

  const NOTHING := Db([], map[], map[], map[])

  /** A request under one span, a websocket request of the same session and model
      under another, and both completions, the websocket one first. */
  function Crossing(q: Request, u: Update, v: Update, now: int): seq<Event> {
    [Requested("a", q, now, now, 0, true), Opened("b", q.session, q.model, now, 0), Completed("b", u, now), Completed("a", v, now)]
  }

  function CrossingWorlds(day: int -> int, q: Request, u: Update, v: Update, now: int): seq<World> {
    var a, b := SpanInfo(1, q.session, q.model, now), SpanInfo(0, q.session, q.model, now);
    var stored := InsertRequest(day, NOTHING, CodexRow(q));
    var first := Complete(day, stored, WithTracker(u, b, now));
    [World(NOTHING, map[], map[]),
     World(stored, map[Span("a") := a], map[]),
     World(stored, map[Span("a") := a, Span("b") := b], map[]),
     World(first, map[Span("a") := a], map[]),
     World(Complete(day, first, WithTracker(v, a, now)), map[], map[])]
  }

  lemma RecordsFresh(spans: Spans, span: string, info: SpanInfo, next: Spans)
    requires span != "" && Span(span) !in spans && |spans| <= MAX_ENTRIES && next == spans[Span(span) := info]
    requires forall k :: k in spans ==> spans[k].start == info.start
    ensures Records(spans, span, info, next)
  {
    assert Unexpired(spans, info.start - 30 * MINUTE) == spans;
    assert Capped(spans, spans);
    assert Recorded(spans, span, info, spans, Span(span), next);
  }

  lemma CrossingAnchors(day: int -> int, q: Request, now: int, spans: Spans)
    ensures AnchorId(NOTHING, q) == 1
    ensures Anchors(day, World(NOTHING, map[], map[]), q, now, 1, [], World(InsertRequest(day, NOTHING, CodexRow(q)), spans, map[]))
  {
    hide InsertRequest;
    var empty: Stash := map[];
    assert empty - {(q.conversation, q.model)} == empty;
  }

  lemma CrossingRequest(day: int -> int, q: Request, now: int, next: World)
    requires now > 0
    requires next == World(InsertRequest(day, NOTHING, CodexRow(q)), map[Span("a") := SpanInfo(1, q.session, q.model, now)], map[])
    ensures Handles(day, World(NOTHING, map[], map[]), Requested("a", q, now, now, 0, true), next)
  {
    hide Anchors, Records, InsertRequest, AnchorId;
    RecordsFresh(map[], "a", SpanInfo(1, q.session, q.model, now), next.spans);
    CrossingAnchors(day, q, now, next.spans);
  }

  lemma CrossingCompletion(day: int -> int, w: World, span: string, u: Update, now: int, next: World)
    requires span != "" && Span(span) in w.spans && Eligible(w.spans[Span(span)], u.session, u.model, now, 10 * MINUTE) && !Tokenless(u)
    requires next == World(Complete(day, w.db, WithTracker(u, w.spans[Span(span)], now)), w.spans - {Span(span)}, w.stash)
    ensures Handles(day, w, Completed(span, u, now), next)
  {
    hide Complete, Tokenless, WithTracker;
    assert Completes(day, w, Completed(span, u, now), Some(Span(span)), next);
  }

  /** The websocket completion takes the request's row, the request's own
      completion is then skipped, and the request stays with another's usage. */
  lemma SocketCompletionTakesRow(day: int -> int, q: Request, u: Update, v: Update, now: int)
    requires now > 0 && q.tok == NO_TOKENS && q.ts >= u.ts - 1800
    requires u.rowId == 0 && u.session == q.session && u.model == q.model && u.tok != NO_TOKENS
    requires v.session == q.session && v.model == q.model && v.tok != NO_TOKENS && v.tok != u.tok
    ensures var events, worlds := Crossing(q, u, v, now), CrossingWorlds(day, q, u, v, now);
      && Steps(day, NOTHING, events, worlds)
      && worlds[4].db.rows == [Stored(1, Api(Finalized(CodexRow(q), WithTracker(u, SpanInfo(0, q.session, q.model, now), now))))]
      && CompletionOf(events, "a") == Some(v)
  {
    hide Handles, Complete, InsertRequest, Finalized, WithTracker;
    var events, worlds := Crossing(q, u, v, now), CrossingWorlds(day, q, u, v, now);
    CrossingRequest(day, q, now, worlds[1]);
    CrossingOpened(day, q, now, worlds[1], worlds[2]);
    CrossingRows(day, q, u, v, now);
    assert worlds[2].spans - {Span("b")} == worlds[3].spans && worlds[3].spans - {Span("a")} == worlds[4].spans;
    CrossingCompletion(day, worlds[2], "b", u, now, worlds[3]);
    CrossingCompletion(day, worlds[3], "a", v, now, worlds[4]);
    forall i | 0 <= i < 4 ensures Handles(day, worlds[i], events[i], worlds[i + 1]) {
      if i == 0 {} else if i == 1 {} else if i == 2 {} else {}
    }
    CompletionOfNext(events[..3], events[3], "a");
    assert events == events[..3] + [events[3]];
  }

  lemma CrossingOpened(day: int -> int, q: Request, now: int, w: World, next: World)
    requires now > 0 && w.spans.Keys == {Span("a")} && w.spans[Span("a")].start == now
    requires next == w.(spans := w.spans[Span("b") := SpanInfo(0, q.session, q.model, now)])
    ensures Handles(day, w, Opened("b", q.session, q.model, now, 0), next)
  {
    hide Records;
    assert |w.spans| == |w.spans.Keys| == 1;
    RecordsFresh(w.spans, "b", SpanInfo(0, q.session, q.model, now), next.spans);
  }

  lemma CrossingRows(day: int -> int, q: Request, u: Update, v: Update, now: int)
    requires q.tok == NO_TOKENS && q.ts >= u.ts - 1800
    requires u.rowId == 0 && u.session == q.session && u.model == q.model && u.tok != NO_TOKENS
    requires v.session == q.session && v.model == q.model && v.tok != NO_TOKENS
    ensures CrossingWorlds(day, q, u, v, now)[4].db.rows
         == [Stored(1, Api(Finalized(CodexRow(q), WithTracker(u, SpanInfo(0, q.session, q.model, now), now))))]
  {
    hide Upsert, LiveKey, Contribution, HasTwin;
    var stored := InsertRequest(day, NOTHING, CodexRow(q));
    assert stored.rows == [Stored(1, Api(CodexRow(q)))];
    var taken := WithTracker(u, SpanInfo(0, q.session, q.model, now), now);
    assert IsPending(stored.rows[0], taken) && PendingRow(stored.rows, taken) == 0;
    var first := Complete(day, stored, taken);
    assert first.rows == [Stored(1, Api(Finalized(CodexRow(q), taken)))];
    var late := WithTracker(v, SpanInfo(1, q.session, q.model, now), now);
    assert IsExact(first.rows[0], late.rowId, late.session, late.model) && ExactRow(first.rows, late) == 0;
  }
}
