/** Who gets which tokens: with several requests in flight, on either transport,
    every completion reaches the row of its own request. */
module Routing {
  import opened Rows
  import opened Aggregate
  import opened Pool
  import opened Completion
  import opened SpanTracker
  import opened Dispatch

  // ---------- Requests and what they are due ----------

  /** A stored request: its span, its row, its start, and whether it streams. */
  datatype Asked = Asked(span: string, q: Request, start: int, streams: bool)

  function AskedBy(e: Event): Asked
    requires e.Requested?
  {
    Asked(e.span, e.q, StartNanos(e.observed, e.setupMs), e.pendingStream)
  }

  /** The last record with usage under this span. */
  function CompletionOf(events: seq<Event>, span: string): Option<Update> {
    if events == [] then None
    else
      var e := events[|events| - 1];
      if e.Completed? && e.span == span && !Tokenless(e.u) then Some(e.u)
      else CompletionOf(events[..|events| - 1], span)
  }

  /** The earliest known start recorded under this span, 0 for none. */
  function FirstStart(events: seq<Event>, span: string): (start: int)
    ensures start >= 0
  {
    if events == [] then 0
    else
      var e, before := events[|events| - 1], FirstStart(events[..|events| - 1], span);
      if (e.Requested? && e.pendingStream && e.span == span) || (e.Opened? && e.span == span) then
        Earlier(StartNanos(e.observed, e.setupMs), before)
      else before
  }

  function Earlier(a: int, b: int): (r: int)
    requires b >= 0
    ensures r >= 0
  {
    if a <= 0 then b else if b <= 0 || a < b then a else b
  }

  /** The row a request should have: its own fields, and the usage of its own
      completion once that has arrived. */
  function Due(events: seq<Event>, r: Asked): Request {
    var c := if r.streams then CompletionOf(events, r.span) else None;
    if c.Some? then CodexRow(r.q).(tok := c.value.tok, cost := c.value.cost) else CodexRow(r.q)
  }

  predicate UpToLatency(s: Stored, t: Stored) {
    s == t || (s.id == t.id && s.row.Api? && t.row.Api? && s.row.req == t.row.req.(duration := s.row.req.duration, ttft := s.row.req.ttft))
  }

  /** Whose rows were added, in order: a request's, or one that a websocket record
      or a completion without a request left. */
  type Owners = seq<Option<Asked>>

  /** A row that no request owns. */
  predicate Stray(s: Stored) {
    s.row.Api? && s.row.req.service == CODEX_SERVICE && s.row.req.requestId == ""
  }

  predicate AsDue(events: seq<Event>, owner: Option<Asked>, s: Stored) {
    if owner.Some? then UpToLatency(s, Stored(s.id, Api(Due(events, owner.value)))) else Stray(s)
  }

  /** The rows there were, then one per owner, each request's as it is due. */
  predicate RowsAreDue(base: seq<Stored>, events: seq<Event>, os: Owners, rows: seq<Stored>) {
    && |rows| == |base| + |os|
    && (forall k :: 0 <= k < |base| ==> UpToLatency(rows[k], base[k]))
    && (forall k :: 0 <= k < |os| ==> AsDue(events, os[k], rows[|base| + k]))
  }

  // ---------- The tracker ----------

  predicate Streams(o: Option<Asked>, span: string) {
    o.Some? && o.value.streams && o.value.span == span
  }

  predicate Known(os: Owners, span: string) {
    exists k :: 0 <= k < |os| && Streams(os[k], span)
  }

  /** A streaming request waits for its completion. */
  predicate Open(events: seq<Event>, o: Option<Asked>) {
    o.Some? && o.value.streams && CompletionOf(events, o.value.span).None?
  }

  predicate OpenUnder(events: seq<Event>, os: Owners, span: string) {
    exists k :: 0 <= k < |os| && Streams(os[k], span) && Open(events, os[k])
  }

  /** Streaming requests name span, session and model, carry no usage of their
      own, and no span twice. */
  predicate StreamsAreDistinct(os: Owners) {
    && (forall k :: 0 <= k < |os| && os[k].Some? && os[k].value.streams ==> WellFormedStream(os[k].value))
    && (forall j, k :: 0 <= j < k < |os| && os[j].Some? && os[k].Some? && os[j].value.streams && os[k].value.streams ==>
          os[j].value.span != os[k].value.span)
  }

  predicate WellFormedStream(r: Asked) {
    r.span != "" && r.q.session != "" && r.q.model != "" && r.q.tok == NO_TOKENS && r.start > 0
  }

  /** The entry of an open request leads to its own row. */
  predicate PointsAtRow(spans: Spans, events: seq<Event>, o: Option<Asked>, id: int) {
    Open(events, o) ==>
      && Span(o.value.span) in spans
      && LeadsTo(spans[Span(o.value.span)], o.value, id)
  }

  predicate LeadsTo(info: SpanInfo, r: Asked, id: int) {
    info.rowId == id && info.session == r.q.session && info.model == r.q.model && 0 < info.start <= r.start
  }

  predicate TrackerPoints(n: nat, events: seq<Event>, os: Owners, rows: seq<Stored>, spans: Spans)
    requires |rows| == n + |os|
  {
    && (forall k :: 0 <= k < |os| ==> PointsAtRow(spans, events, os[k], rows[n + k].id))
    && (forall key :: key in spans && spans[key].rowId != 0 ==> key.Span? && OpenUnder(events, os, key.id))
  }

  /** No entry is older than what was recorded under its span. */
  predicate StartsAreKnown(events: seq<Event>, spans: Spans) {
    forall key :: key in spans && key.Span? && spans[key].start > 0 ==> 0 < FirstStart(events, key.id) <= spans[key].start
  }

  predicate Routed(base: seq<Stored>, events: seq<Event>, os: Owners, w: World) {
    && IdsAscend(w.db.rows, w.db.last)
    && RowsAreDue(base, events, os, w.db.rows)
    && StreamsAreDistinct(os)
    && TrackerPoints(|base|, events, os, w.db.rows, w.spans)
    && StartsAreKnown(events, w.spans)
  }

  // ---------- In order ----------

  /** Recording a start now evicts nothing. */
  predicate Calm(spans: Spans, start: int) {
    |spans| <= MAX_ENTRIES && forall k :: k in spans ==> !Expired(spans[k], start - 30 * MINUTE)
  }

  /** The completion e belongs to the request r: it names the same span, session
      and model, and comes within ten minutes of all that was recorded there. */
  predicate Owns(events: seq<Event>, o: Option<Asked>, e: Event)
    requires e.Completed?
  {
    && Streams(o, e.span) && o.value.q.session == e.u.session && o.value.q.model == e.u.model
    && o.value.start <= e.observed <= FirstStart(events, e.span) + 10 * MINUTE
  }

  /** A completion with no request of its own, as one of a websocket request: it
      finds no row of a request, and none that was there before, to finalize. */
  predicate LeavesRequestsAlone(base: seq<Stored>, events: seq<Event>, os: Owners, e: Event)
    requires e.Completed?
  {
    && e.u.rowId == 0 && e.u.session != "" && e.u.model != "" && !Known(os, e.span)
    && (forall k :: 0 <= k < |base| ==> !IsPending(base[k], e.u))
    && (forall k :: 0 <= k < |os| && os[k].Some? && os[k].value.q.session == e.u.session && os[k].value.q.model == e.u.model ==>
          !Open(events, os[k]) && (Due(events, os[k].value).tok != NO_TOKENS || os[k].value.q.ts < e.u.ts - 1800))
  }

  /** e may arrive after `events`: a new streaming request has a new span, a known
      start, and meets a tracker with nothing to evict; a record of a websocket
      request does not contradict a request under its span; a completion follows
      its own request, once, or has none and leaves the requests alone. */
  predicate Orderly(base: seq<Stored>, events: seq<Event>, os: Owners, e: Event, spans: Spans) {
    match e
    case Requested(span, q, at, observed, setupMs, pendingStream) =>
      && !IdTaken(base, q.requestId)
      && (forall k :: 0 <= k < |os| && os[k].Some? ==> q.requestId == "" || os[k].value.q.requestId != q.requestId)
      && (pendingStream ==>
            && WellFormedStream(AskedBy(e)) && !Known(os, span) && CompletionOf(events, span).None?
            && Calm(spans, StartNanos(observed, setupMs)))
    case Completed(span, u, observed) =>
      || Tokenless(u)
      || (CompletionOf(events, span).None? && exists k :: 0 <= k < |os| && Owns(events, os[k], e))
      || LeavesRequestsAlone(base, events, os, e)
    case Opened(span, session, model, observed, setupMs) =>
      && Calm(spans, StartNanos(observed, setupMs))
      && (forall k :: 0 <= k < |os| && Streams(os[k], span) ==>
            (session == "" || session == os[k].value.q.session) && (model == "" || model == os[k].value.q.model))
    case _ => true
  }

  // ---------- How rows and tracker follow the records ----------

  lemma CompletionOfNext(events: seq<Event>, e: Event, span: string)
    ensures CompletionOf(events + [e], span)
         == if e.Completed? && e.span == span && !Tokenless(e.u) then Some(e.u) else CompletionOf(events, span)
  {
    assert (events + [e])[..|events|] == events;
  }

  lemma FirstStartNext(events: seq<Event>, e: Event, span: string)
    ensures FirstStart(events + [e], span) ==
      if (e.Requested? && e.pendingStream && e.span == span) || (e.Opened? && e.span == span)
      then Earlier(StartNanos(e.observed, e.setupMs), FirstStart(events, span)) else FirstStart(events, span)
  {
    assert (events + [e])[..|events|] == events;
  }

  predicate CarriesUsage(e: Event) {
    e.Completed? && !Tokenless(e.u)
  }

  /** Only a completion with usage changes what rows are due. */
  lemma DueStaysDue(events: seq<Event>, e: Event, r: Asked)
    requires CarriesUsage(e) ==> !(r.streams && r.span == e.span)
    ensures Due(events + [e], r) == Due(events, r)
    ensures r.streams ==> CompletionOf(events + [e], r.span) == CompletionOf(events, r.span)
  {
    CompletionOfNext(events, e, r.span);
  }

  /** The completion does not carry the span of a streaming request. */
  predicate Foreign(os: Owners, e: Event) {
    CarriesUsage(e) ==> !Known(os, e.span)
  }

  lemma RowsStayDue(base: seq<Stored>, events: seq<Event>, os: Owners, rows: seq<Stored>, e: Event)
    requires RowsAreDue(base, events, os, rows) && Foreign(os, e)
    ensures RowsAreDue(base, events + [e], os, rows)
  {
    hide UpToLatency, Due, CompletionOf, Tokenless;
    forall k | 0 <= k < |os| ensures AsDue(events + [e], os[k], rows[|base| + k]) {
      if os[k].Some? {
        if CarriesUsage(e) && os[k].value.streams {
          assert !Streams(os[k], e.span);
        }
        DueStaysDue(events, e, os[k].value);
      }
    }
  }

  lemma OpenStaysOpen(events: seq<Event>, os: Owners, e: Event, k: int)
    requires 0 <= k < |os| && Foreign(os, e)
    ensures Open(events + [e], os[k]) == Open(events, os[k])
  {
    hide CompletionOf, Tokenless;
    if os[k].Some? && os[k].value.streams {
      assert Streams(os[k], os[k].value.span);
      CompletionOfNext(events, e, os[k].value.span);
    }
  }

  predicate IdsStay(rows: seq<Stored>, next: seq<Stored>) {
    |rows| <= |next| && forall i :: 0 <= i < |rows| ==> next[i].id == rows[i].id
  }

  /** The rows as they were up to their latency columns. */
  predicate OnlyLatency(db: Db, next: Db) {
    && next.last == db.last && |next.rows| == |db.rows|
    && forall k :: 0 <= k < |db.rows| ==> UpToLatency(next.rows[k], db.rows[k])
  }

  lemma LatencyKeepsRows(base: seq<Stored>, events: seq<Event>, os: Owners, db: Db, next: Db)
    requires IdsAscend(db.rows, db.last) && RowsAreDue(base, events, os, db.rows) && OnlyLatency(db, next)
    ensures IdsAscend(next.rows, next.last) && RowsAreDue(base, events, os, next.rows)
    ensures |next.rows| == |db.rows| && IdsStay(db.rows, next.rows)
  {
    hide Due;
    forall k | 0 <= k < |db.rows| ensures next.rows[k].id == db.rows[k].id && TableOf(next.rows[k].row) == TableOf(db.rows[k].row) {
    }
    forall k | 0 <= k < |os| ensures AsDue(events, os[k], next.rows[|base| + k]) {
      assert UpToLatency(next.rows[|base| + k], db.rows[|base| + k]);
    }
  }

  lemma OnlyLatencyTwice(a: Db, b: Db, c: Db)
    requires OnlyLatency(a, b) && OnlyLatency(b, c)
    ensures OnlyLatency(a, c)
  {
  }

  lemma RewriteIsLatency(db: Db, i: int, q: Request)
    requires 0 <= i < |db.rows| && db.rows[i].row.Api?
    requires q == db.rows[i].row.req.(duration := q.duration, ttft := q.ttft)
    ensures OnlyLatency(db, SetRequest(db, i, q))
  {
  }

  lemma LatencyWriters(db: Db, id: int, session: string, conversation: string, model: string, ts: int, ms: int)
    ensures OnlyLatency(db, UpdateDuration(db, id, session, model, ts, ms))
    ensures OnlyLatency(db, UpdateTtft(db, id, session, model, ts, ms))
    ensures OnlyLatency(db, UpdateTurnTtft(db, conversation, model, ts, ms))
  {
    hide DurationRow, TtftRow, TurnRow, OnlyLatency, SetRequest;
    NothingIsLatency(db);
    var d, t, c := DurationRow(db.rows, id, session, model, ts), TtftRow(db.rows, id, session, model, ts), TurnRow(db.rows, conversation, model, ts);
    if d >= 0 { RewriteIsLatency(db, d, db.rows[d].row.req.(duration := ms)); }
    if t >= 0 { RewriteIsLatency(db, t, db.rows[t].row.req.(ttft := ms)); }
    if c >= 0 { RewriteIsLatency(db, c, db.rows[c].row.req.(ttft := ms)); }
  }

  lemma {:induction false} FillsAreLatency(db: Db, id: int, session: string, model: string, obs: seq<Observation>)
    ensures OnlyLatency(db, FillAll(db, id, session, model, obs))
    decreases |obs|
  {
    hide UpdateTtft, OnlyLatency;
    if obs == [] {
      NothingIsLatency(db);
    } else {
      var n := |obs| - 1;
      FillsAreLatency(db, id, session, model, obs[..n]);
      var before := FillAll(db, id, session, model, obs[..n]);
      LatencyWriters(before, id, session, "", model, obs[n].nanos / NANOS, obs[n].ms);
      OnlyLatencyTwice(db, before, FillAll(db, id, session, model, obs));
    }
  }

  lemma NothingIsLatency(db: Db)
    ensures OnlyLatency(db, db)
  {
  }

  lemma TrackerStays(n: nat, events: seq<Event>, os: Owners, rows: seq<Stored>, next: seq<Stored>, spans: Spans, e: Event)
    requires |rows| == n + |os| && TrackerPoints(n, events, os, rows, spans) && Foreign(os, e)
    requires |next| == |rows| && IdsStay(rows, next)
    ensures TrackerPoints(n, events + [e], os, next, spans)
  {
    hide CompletionOf, LeadsTo, Foreign, Streams, Open;
    forall k | 0 <= k < |os| ensures Open(events + [e], os[k]) == Open(events, os[k]) {
      OpenStaysOpen(events, os, e, k);
    }
    forall k | 0 <= k < |os| ensures PointsAtRow(spans, events + [e], os[k], next[n + k].id) {
      assert PointsAtRow(spans, events, os[k], rows[n + k].id);
    }
    forall span | OpenUnder(events, os, span) ensures OpenUnder(events + [e], os, span) {
      var k :| 0 <= k < |os| && Streams(os[k], span) && Open(events, os[k]);
      assert Open(events + [e], os[k]);
    }
  }

  /** One more owner, one more row. */
  lemma RowsGrow(base: seq<Stored>, events: seq<Event>, os: Owners, rows: seq<Stored>, owner: Option<Asked>, s: Stored)
    requires RowsAreDue(base, events, os, rows) && AsDue(events, owner, s)
    ensures RowsAreDue(base, events, os + [owner], rows + [s])
  {
    hide AsDue, UpToLatency;
  }

  lemma TrackerGrows(n: nat, events: seq<Event>, os: Owners, rows: seq<Stored>, next: seq<Stored>, spans: Spans, owner: Option<Asked>)
    requires |rows| == n + |os| && TrackerPoints(n, events, os, rows, spans) && !Open(events, owner)
    requires |next| == |rows| + 1 && IdsStay(rows, next)
    ensures TrackerPoints(n, events, os + [owner], next, spans)
  {
    hide CompletionOf, LeadsTo, Streams, Open;
    OpenUnderGrows(events, os, owner);
    forall k | 0 <= k < |os| + 1 ensures PointsAtRow(spans, events, (os + [owner])[k], next[n + k].id) {
      if k < |os| {
        assert PointsAtRow(spans, events, os[k], rows[n + k].id);
      }
    }
  }

  lemma OpenUnderGrows(events: seq<Event>, os: Owners, owner: Option<Asked>)
    ensures forall span :: OpenUnder(events, os, span) ==> OpenUnder(events, os + [owner], span)
  {
    hide CompletionOf, Streams, Open;
    forall span | OpenUnder(events, os, span) ensures OpenUnder(events, os + [owner], span) {
      var k :| 0 <= k < |os| && Streams(os[k], span) && Open(events, os[k]);
      assert Streams((os + [owner])[k], span);
    }
  }

  lemma DistinctGrows(os: Owners, owner: Option<Asked>)
    requires StreamsAreDistinct(os)
    requires owner.Some? && owner.value.streams ==> WellFormedStream(owner.value) && !Known(os, owner.value.span)
    ensures StreamsAreDistinct(os + [owner])
  {
    hide WellFormedStream;
    forall k | 0 <= k < |os| && owner.Some? && owner.value.streams ensures !Streams(os[k], owner.value.span) {
    }
  }

  // ---------- A request ----------

  lemma NewIdIsFree(base: seq<Stored>, events: seq<Event>, os: Owners, rows: seq<Stored>, e: Event, spans: Spans)
    requires RowsAreDue(base, events, os, rows) && e.Requested? && Orderly(base, events, os, e, spans)
    ensures !IdTaken(rows, e.q.requestId)
  {
    hide CompletionOf, Known, StartNanos, Calm;
    forall i | 0 <= i < |rows| && rows[i].row.Api? && e.q.requestId != "" ensures rows[i].row.req.requestId != e.q.requestId {
      if i < |base| {
        assert UpToLatency(rows[i], base[i]);
      } else {
        var k := i - |base|;
        assert AsDue(events, os[k], rows[|base| + k]);
      }
    }
  }

  lemma InsertedRow(day: int -> int, db: Db, q: Request)
    requires IdsAscend(db.rows, db.last) && !IdTaken(db.rows, q.requestId)
    ensures AnchorId(db, q) > 0
    ensures var next := InsertRequest(day, db, CodexRow(q));
      next.rows == db.rows + [Stored(AnchorId(db, q), Api(CodexRow(q)))] && IdsAscend(next.rows, next.last)
  {
    hide Upsert, LiveKey, Contribution, IdTaken;
    AppendKeepsAscent(db, Api(CodexRow(q)));
  }

  lemma RecordedSpan(spans: Spans, span: string, info: SpanInfo, next: Spans)
    requires Records(spans, span, info, next) && span != "" && Calm(spans, info.start)
    ensures next == spans[Span(span) := Remembered(spans, span, info)]
  {
    hide Capped, Unexpired, Expired;
    var kept: Spans, key: SpanKey :| Recorded(spans, span, info, kept, key, next);
    NothingEvicted(spans, kept, info.start - 30 * MINUTE);
  }

  lemma RecordedFallback(spans: Spans, info: SpanInfo, next: Spans) returns (key: SpanKey)
    requires Records(spans, "", info, next) && Calm(spans, info.start)
    ensures key.Fallback? && next == spans[key := if key in spans then MergeInfo(info, spans[key]) else info]
  {
    hide Capped, Unexpired, Expired;
    var kept: Spans;
    kept, key :| Recorded(spans, "", info, kept, key, next);
    NothingEvicted(spans, kept, info.start - 30 * MINUTE);
  }

  /** Storing the request, before the tracker hears of it. */
  lemma RowsAfterRequest(day: int -> int, base: seq<Stored>, events: seq<Event>, os: Owners, w: World, e: Event, next: World)
    requires Routed(base, events, os, w) && e.Requested? && Orderly(base, events, os, e, w.spans) && Handles(day, w, e, next)
    ensures var more := os + [Some(AskedBy(e))];
      && IdsAscend(next.db.rows, next.db.last) && RowsAreDue(base, events + [e], more, next.db.rows)
      && |w.db.rows| == |base| + |os| && IdsStay(w.db.rows, next.db.rows)
      && next.db.rows[|base| + |os|].id == AnchorId(w.db, e.q) > 0
  {
    hide IdsAscend, RowsAreDue, TrackerPoints, StreamsAreDistinct, Records, FillAll, Drains, InsertRequest, Calm, Known, CompletionOf, AnchorId, IdTaken;
    var obs: seq<Observation> :| Anchors(day, w, e.q, e.at, AnchorId(w.db, e.q), obs, next);
    NewIdIsFree(base, events, os, w.db.rows, e, w.spans);
    InsertedRow(day, w.db, e.q);
    var mid := InsertRequest(day, w.db, CodexRow(e.q));
    var s := Stored(AnchorId(w.db, e.q), Api(CodexRow(e.q)));
    RowsStayDue(base, events, os, w.db.rows, e);
    NewRequestIsDue(events, os, e, s, w.spans, base);
    RowsGrow(base, events + [e], os, w.db.rows, Some(AskedBy(e)), s);
    FillsAreLatency(mid, AnchorId(w.db, e.q), e.q.session, e.q.model, obs);
    LatencyKeepsRows(base, events + [e], os + [Some(AskedBy(e))], mid, next.db);
    RowCount(base, events, os, w.db.rows);
    RowCount(base, events + [e], os + [Some(AskedBy(e))], next.db.rows);
  }

  lemma RowCount(base: seq<Stored>, events: seq<Event>, os: Owners, rows: seq<Stored>)
    requires RowsAreDue(base, events, os, rows)
    ensures |rows| == |base| + |os|
  {
  }

  lemma NewRequestIsDue(events: seq<Event>, os: Owners, e: Event, s: Stored, spans: Spans, base: seq<Stored>)
    requires e.Requested? && Orderly(base, events, os, e, spans) && s.row == Api(CodexRow(e.q))
    ensures AsDue(events + [e], Some(AskedBy(e)), s)
  {
    hide Known, Calm, StartNanos, CompletionOf;
    CompletionOfNext(events, e, e.span);
  }

  /** What the tracker holds under the span of a request it has just recorded. */
  lemma EntryOfRequest(spans: Spans, r: Asked, id: int)
    requires WellFormedStream(r) && id != 0
    requires Span(r.span) in spans ==> spans[Span(r.span)].rowId == 0
    ensures LeadsTo(Remembered(spans, r.span, SpanInfo(id, r.q.session, r.q.model, r.start)), r, id)
  {
  }

  function Remembered(spans: Spans, span: string, info: SpanInfo): SpanInfo {
    if Span(span) in spans then MergeInfo(info, spans[Span(span)]) else info
  }

  lemma TrackerAfterRequest(n: nat, events: seq<Event>, os: Owners, rows: seq<Stored>, next: seq<Stored>, spans: Spans, r: Asked, id: int)
    requires |rows| == n + |os| && TrackerPoints(n, events, os, rows, spans)
    requires WellFormedStream(r) && r.streams && !Known(os, r.span) && CompletionOf(events, r.span).None? && id > 0
    requires |next| == |rows| + 1 && IdsStay(rows, next) && next[|rows|].id == id
    ensures TrackerPoints(n, events, os + [Some(r)], next,
              spans[Span(r.span) := Remembered(spans, r.span, SpanInfo(id, r.q.session, r.q.model, r.start))])
  {
    hide CompletionOf, LeadsTo, WellFormedStream, Remembered;
    var key := Span(r.span);
    assert !OpenUnder(events, os, r.span);
    EntryOfRequest(spans, r, id);
    OpenUnderGrows(events, os, Some(r));
    var more := os + [Some(r)];
    var after := spans[key := Remembered(spans, r.span, SpanInfo(id, r.q.session, r.q.model, r.start))];
    forall k | 0 <= k < |more| ensures PointsAtRow(after, events, more[k], next[n + k].id) {
      if k < |os| {
        assert PointsAtRow(spans, events, os[k], rows[n + k].id);
        assert !Streams(os[k], r.span);
      }
    }
    assert Streams(more[|os|], r.span) && Open(events, more[|os|]);
  }

  /** A start recorded now is the earliest of its span, or an earlier one stays. */
  lemma RecordKeepsStarts(events: seq<Event>, spans: Spans, e: Event, info: SpanInfo, next: Spans)
    requires e.Opened? || (e.Requested? && e.pendingStream)
    requires StartsAreKnown(events, spans) && Records(spans, e.span, info, next)
    requires info.start == StartNanos(e.observed, e.setupMs)
    ensures StartsAreKnown(events + [e], next)
  {
    hide Unexpired, StartNanos, FirstStart, Capped;
    var kept: Spans, key: SpanKey :| Recorded(spans, e.span, info, kept, key, next);
    KeptIsPart(spans, kept, info.start - 30 * MINUTE);
    forall k | k in next && k.Span? && next[k].start > 0 ensures 0 < FirstStart(events + [e], k.id) <= next[k].start {
      FirstStartNext(events, e, k.id);
    }
  }

  lemma KeptIsPart(spans: Spans, kept: Spans, cutoff: int)
    requires Capped(Unexpired(spans, cutoff), kept)
    ensures forall k :: k in kept ==> k in spans && kept[k] == spans[k]
  {
  }

  lemma StartsStayKnown(events: seq<Event>, spans: Spans, e: Event, next: Spans)
    requires StartsAreKnown(events, spans) && Forgets(spans, next) && !e.Opened? && !(e.Requested? && e.pendingStream)
    ensures StartsAreKnown(events + [e], next)
  {
    hide FirstStart;
    forall k | k in next && k.Span? && next[k].start > 0 ensures 0 < FirstStart(events + [e], k.id) <= next[k].start {
      FirstStartNext(events, e, k.id);
    }
  }

  /** The tracker loses at most entries that lead to no row. */
  predicate Forgets(spans: Spans, next: Spans) {
    && (forall key :: key in next ==> key in spans && next[key] == spans[key])
    && (forall key :: key in spans && spans[key].rowId != 0 ==> key in next)
  }

  lemma RequestKeepsRouted(day: int -> int, base: seq<Stored>, events: seq<Event>, os: Owners, w: World, e: Event, next: World)
    requires Routed(base, events, os, w) && e.Requested? && Orderly(base, events, os, e, w.spans) && Handles(day, w, e, next)
    ensures Routed(base, events + [e], os + [Some(AskedBy(e))], next)
  {
    hide IdsAscend, RowsAreDue, TrackerPoints, StreamsAreDistinct, Records, StartNanos, Calm, Known, CompletionOf, IdTaken,
         Anchors, StartsAreKnown, IdsStay, WellFormedStream, FirstStart, AnchorId, Remembered;
    var n, r := |base|, AskedBy(e);
    RowsAfterRequest(day, base, events, os, w, e, next);
    RowCount(base, events + [e], os + [Some(r)], next.db.rows);
    DistinctGrows(os, Some(r));
    NothingMoved(w.db.rows);
    TrackerStays(n, events, os, w.db.rows, w.db.rows, w.spans, e);
    if e.pendingStream {
      var info := SpanInfo(AnchorId(w.db, e.q), e.q.session, e.q.model, r.start);
      SpanIsNamed(r);
      RecordedSpan(w.spans, e.span, info, next.spans);
      RecordKeepsStarts(events, w.spans, e, info, next.spans);
      CompletionOfNext(events, e, e.span);
      TrackerAfterRequest(n, events + [e], os, w.db.rows, next.db.rows, w.spans, r, info.rowId);
    } else {
      StartsStayKnown(events, w.spans, e, next.spans);
      TrackerGrows(n, events + [e], os, w.db.rows, next.db.rows, w.spans, Some(r));
    }
  }

  lemma SpanIsNamed(r: Asked)
    requires WellFormedStream(r)
    ensures r.span != ""
  {
  }

  lemma NothingMoved(rows: seq<Stored>)
    ensures IdsStay(rows, rows)
  {
  }

  // ---------- A websocket request ----------

  lemma MergedEntryLeads(info: SpanInfo, known: SpanInfo, r: Asked, id: int)
    requires LeadsTo(known, r, id) && info.rowId == 0 && info.start >= 0
    requires (info.session == "" || info.session == r.q.session) && (info.model == "" || info.model == r.q.model)
    ensures LeadsTo(MergeInfo(info, known), r, id)
  {
  }

  /** The entry under this key stays where it leads, whatever is merged into it. */
  lemma TrackerAfterOpened(n: nat, events: seq<Event>, os: Owners, rows: seq<Stored>, spans: Spans, key: SpanKey, info: SpanInfo)
    requires |rows| == n + |os| && TrackerPoints(n, events, os, rows, spans) && info.rowId == 0 && info.start >= 0
    requires key.Span? ==> forall k :: 0 <= k < |os| && Streams(os[k], key.id) ==>
               (info.session == "" || info.session == os[k].value.q.session) && (info.model == "" || info.model == os[k].value.q.model)
    ensures TrackerPoints(n, events, os, rows, spans[key := if key in spans then MergeInfo(info, spans[key]) else info])
  {
    hide CompletionOf, LeadsTo;
    var after := spans[key := if key in spans then MergeInfo(info, spans[key]) else info];
    forall k | 0 <= k < |os| ensures PointsAtRow(after, events, os[k], rows[n + k].id) {
      assert PointsAtRow(spans, events, os[k], rows[n + k].id);
      if Open(events, os[k]) && key == Span(os[k].value.span) {
        assert Streams(os[k], key.id);
        MergedEntryLeads(info, spans[key], os[k].value, rows[n + k].id);
      }
    }
  }

  lemma OpenedKeepsRouted(day: int -> int, base: seq<Stored>, events: seq<Event>, os: Owners, w: World, e: Event, next: World)
    requires Routed(base, events, os, w) && e.Opened? && Orderly(base, events, os, e, w.spans) && Handles(day, w, e, next)
    ensures Routed(base, events + [e], os, next)
  {
    hide IdsAscend, RowsAreDue, TrackerPoints, StreamsAreDistinct, Records, StartNanos, Calm, StartsAreKnown, IdsStay, Streams, FirstStart;
    var info := SpanInfo(0, e.session, e.model, StartNanos(e.observed, e.setupMs));
    RowCount(base, events, os, w.db.rows);
    RowsStayDue(base, events, os, w.db.rows, e);
    NothingMoved(w.db.rows);
    TrackerStays(|base|, events, os, w.db.rows, w.db.rows, w.spans, e);
    RecordKeepsStarts(events, w.spans, e, info, next.spans);
    if e.span == "" {
      var key := RecordedFallback(w.spans, info, next.spans);
      TrackerAfterOpened(|base|, events + [e], os, w.db.rows, w.spans, key, info);
    } else {
      RecordedSpan(w.spans, e.span, info, next.spans);
      TrackerAfterOpened(|base|, events + [e], os, w.db.rows, w.spans, Span(e.span), info);
    }
  }

  // ---------- A request's own completion ----------

  /** e completes the request that owns the k-th row. */
  predicate Serves(events: seq<Event>, os: Owners, e: Event, k: int) {
    && e.Completed? && !Tokenless(e.u) && CompletionOf(events, e.span).None?
    && 0 <= k < |os| && Owns(events, os[k], e)
  }

  /** e is a completion under the span of the request that owns the k-th row. */
  predicate Finishes(os: Owners, e: Event, k: int) {
    e.Completed? && !Tokenless(e.u) && 0 <= k < |os| && Streams(os[k], e.span)
  }

  lemma OwnEntryAnswers(spans: Spans, events: seq<Event>, r: Asked, e: Event, id: int, key: Option<SpanKey>)
    requires e.Completed? && Owns(events, Some(r), e) && WellFormedStream(r)
    requires Span(e.span) in spans && LeadsTo(spans[Span(e.span)], r, id) && StartsAreKnown(events, spans)
    requires Answers(spans, e.span, e.u.session, e.u.model, e.observed, 10 * MINUTE, key)
    ensures key == Some(Span(e.span))
  {
    hide FirstStart;
    assert FirstStart(events, e.span) <= spans[Span(e.span)].start;
  }

  lemma OwnRowWaits(base: seq<Stored>, events: seq<Event>, os: Owners, w: World, e: Event, k: int)
    requires Routed(base, events, os, w) && Serves(events, os, e, k)
    ensures |w.db.rows| == |base| + |os| && WellFormedStream(os[k].value)
    ensures var s := w.db.rows[|base| + k];
      && Span(e.span) in w.spans && LeadsTo(w.spans[Span(e.span)], os[k].value, s.id)
      && Waiting(s, e.u.session, e.u.model) && UpToLatency(s, Stored(s.id, Api(CodexRow(os[k].value.q))))
  {
    hide CompletionOf, IdsAscend, FirstStart, LeadsTo, StartsAreKnown;
    assert PointsAtRow(w.spans, events, os[k], w.db.rows[|base| + k].id);
    assert AsDue(events, os[k], w.db.rows[|base| + k]);
  }

  /** Any other request is due what it was due. */
  lemma OthersStayDue(events: seq<Event>, os: Owners, e: Event, k: int, j: int)
    requires StreamsAreDistinct(os) && Finishes(os, e, k) && 0 <= j < |os| && j != k
    ensures os[j].Some? ==> Due(events + [e], os[j].value) == Due(events, os[j].value)
    ensures Open(events + [e], os[j]) == Open(events, os[j])
  {
    hide CompletionOf, FirstStart, Due;
    if os[j].Some? {
      DueStaysDue(events, e, os[j].value);
    }
  }

  lemma RowsAfterCompletion(base: seq<Stored>, events: seq<Event>, os: Owners, rows: seq<Stored>, e: Event, k: int, q: Request)
    requires RowsAreDue(base, events, os, rows) && StreamsAreDistinct(os) && Finishes(os, e, k)
    requires q == CodexRow(os[k].value.q).(tok := e.u.tok, cost := e.u.cost, duration := q.duration, ttft := q.ttft)
    ensures RowsAreDue(base, events + [e], os, rows[|base| + k := rows[|base| + k].(row := Api(q))])
  {
    hide CompletionOf, CodexRow, UpToLatency, Tokenless, Due, StreamsAreDistinct;
    var after := rows[|base| + k := rows[|base| + k].(row := Api(q))];
    forall j | 0 <= j < |os| ensures AsDue(events + [e], os[j], after[|base| + j]) {
      if j == k {
        OwnRowIsDue(events, os[k], e, q, after[|base| + j].id);
      } else {
        OthersStayDue(events, os, e, k, j);
        assert AsDue(events, os[j], rows[|base| + j]);
      }
    }
  }

  lemma OwnRowIsDue(events: seq<Event>, o: Option<Asked>, e: Event, q: Request, id: int)
    requires e.Completed? && !Tokenless(e.u) && Streams(o, e.span)
    requires q == CodexRow(o.value.q).(tok := e.u.tok, cost := e.u.cost, duration := q.duration, ttft := q.ttft)
    ensures AsDue(events + [e], o, Stored(id, Api(q)))
  {
    hide CompletionOf, Tokenless, CodexRow;
    CompletionOfNext(events, e, e.span);
  }

  lemma TrackerAfterCompletion(n: nat, events: seq<Event>, os: Owners, rows: seq<Stored>, next: seq<Stored>, spans: Spans, e: Event, k: int)
    requires |rows| == n + |os| && TrackerPoints(n, events, os, rows, spans) && StreamsAreDistinct(os) && Serves(events, os, e, k)
    requires |next| == |rows| && IdsStay(rows, next)
    ensures TrackerPoints(n, events + [e], os, next, spans - {Span(e.span)})
  {
    hide CompletionOf, LeadsTo, Tokenless, FirstStart, StreamsAreDistinct, Owns;
    OwnsItsSpan(events, os[k], e);
    CompletionOfNext(events, e, e.span);
    forall j | 0 <= j < |os| ensures PointsAtRow(spans - {Span(e.span)}, events + [e], os[j], next[n + j].id) {
      assert PointsAtRow(spans, events, os[j], rows[n + j].id);
      if j != k {
        OthersStayDue(events, os, e, k, j);
      }
    }
    forall span | span != e.span && OpenUnder(events, os, span) ensures OpenUnder(events + [e], os, span) {
      var j :| 0 <= j < |os| && Streams(os[j], span) && Open(events, os[j]);
      OthersStayDue(events, os, e, k, j);
      assert Open(events + [e], os[j]);
    }
  }

  lemma OwnsItsSpan(events: seq<Event>, o: Option<Asked>, e: Event)
    requires e.Completed? && Owns(events, o, e)
    ensures Streams(o, e.span)
  {
  }

  lemma CompletionKeepsRouted(day: int -> int, base: seq<Stored>, events: seq<Event>, os: Owners, w: World, e: Event, k: int, next: World)
    requires Routed(base, events, os, w) && Serves(events, os, e, k) && Handles(day, w, e, next)
    ensures Routed(base, events + [e], os, next)
  {
    hide CompletionOf, StartNanos, IdsAscend, TrackerPoints, StreamsAreDistinct, Answers, Complete, RowsAreDue, StartsAreKnown, LeadsTo,
         WellFormedStream, FirstStart, IdsStay, Waiting, Finalized, Tokenless, Owns;
    OwnRowWaits(base, events, os, w, e, k);
    OwnsItsSpan(events, os[k], e);
    var i := |base| + k;
    var key: Option<SpanKey> :| Completes(day, w, e, key, next);
    OwnEntryAnswers(w.spans, events, os[k].value, e, w.db.rows[i].id, key);
    var u := WithTracker(e.u, w.spans[Span(e.span)], e.observed);
    OwnUpdate(w.spans[Span(e.span)], os[k].value, e.u, e.observed, w.db.rows[i]);
    FinalizedRow(day, w.db, i, u);
    OwnRowFinalized(w.db.rows[i], os[k].value, u);
    OneMoved(w.db.rows, i, next.db.rows[i]);
    RowsAfterCompletion(base, events, os, w.db.rows, e, k, Finalized(w.db.rows[i].row.req, u));
    TrackerAfterCompletion(|base|, events, os, w.db.rows, next.db.rows, w.spans, e, k);
    CompletionForgets(events, w.spans, e);
  }

  lemma OwnUpdate(info: SpanInfo, r: Asked, u: Update, observed: int, s: Stored)
    requires LeadsTo(info, r, s.id) && Waiting(s, u.session, u.model) && !Tokenless(u)
    ensures var v := WithTracker(u, info, observed);
      v.rowId == s.id && Waiting(s, v.session, v.model) && v.tok == u.tok && v.cost == u.cost && (v.tok != NO_TOKENS || v.ttft != 0)
  {
  }

  lemma OwnRowFinalized(s: Stored, r: Asked, u: Update)
    requires UpToLatency(s, Stored(s.id, Api(CodexRow(r.q))))
    ensures s.row.Api?
    ensures var q := Finalized(s.row.req, u);
      q == CodexRow(r.q).(tok := u.tok, cost := u.cost, duration := q.duration, ttft := q.ttft)
  {
  }

  lemma OneMoved(rows: seq<Stored>, i: int, s: Stored)
    requires 0 <= i < |rows| && s.id == rows[i].id
    ensures IdsStay(rows, rows[i := s])
  {
  }

  lemma CompletionForgets(events: seq<Event>, spans: Spans, e: Event)
    requires StartsAreKnown(events, spans) && e.Completed?
    ensures StartsAreKnown(events + [e], spans - {Span(e.span)})
  {
    hide FirstStart;
    forall k | k in spans - {Span(e.span)} && k.Span? && spans[k].start > 0 ensures 0 < FirstStart(events + [e], k.id) <= spans[k].start {
      FirstStartNext(events, e, k.id);
    }
  }

  // ---------- Records that no request owns ----------

  /** The owner that handling e adds: its request, or nobody for another new row. */
  function Added(w: World, e: Event, next: World): Owners {
    if e.Requested? then [Some(AskedBy(e))] else if |next.db.rows| > |w.db.rows| then [None] else []
  }

  /** The i-th row keeps all but its latency, or is no request's. */
  predicate Spares(n: nat, os: Owners, i: int, s: Stored, t: Stored)
    requires 0 <= i < n + |os|
  {
    UpToLatency(t, s) || (t.id == s.id && i >= n && os[i - n].None? && Stray(t))
  }

  predicate SparesAt(n: nat, os: Owners, i: int, rows: seq<Stored>, next: seq<Stored>)
    requires |rows| == n + |os| && |rows| <= |next| && 0 <= i < |rows|
  {
    Spares(n, os, i, rows[i], next[i])
  }

  /** No row that was there or that a request owns changes, and a new row is no request's. */
  predicate LeavesDue(n: nat, os: Owners, rows: seq<Stored>, next: seq<Stored>)
    requires |rows| == n + |os|
  {
    && |rows| <= |next| <= |rows| + 1
    && (forall i :: 0 <= i < |rows| ==> SparesAt(n, os, i, rows, next))
    && (|next| > |rows| ==> Stray(next[|rows|]))
  }

  lemma SparedRowsAreDue(base: seq<Stored>, events: seq<Event>, os: Owners, rows: seq<Stored>, next: seq<Stored>)
    requires RowsAreDue(base, events, os, rows) && LeavesDue(|base|, os, rows, next)
    ensures RowsAreDue(base, events, os + (if |next| > |rows| then [None] else []), next)
    ensures IdsStay(rows, next)
  {
    hide Due, Stray;
    var n := |base|;
    forall i | 0 <= i < |rows| ensures next[i].id == rows[i].id {
      assert SparesAt(n, os, i, rows, next);
    }
    forall k | 0 <= k < n ensures UpToLatency(next[k], base[k]) {
      assert SparesAt(n, os, k, rows, next) && UpToLatency(rows[k], base[k]);
    }
    forall k | 0 <= k < |os| ensures AsDue(events, os[k], next[n + k]) {
      assert SparesAt(n, os, n + k, rows, next) && AsDue(events, os[k], rows[n + k]);
      SparedIsDue(n, events, os, k, rows[n + k], next[n + k]);
    }
  }

  lemma SparedIsDue(n: nat, events: seq<Event>, os: Owners, k: int, s: Stored, t: Stored)
    requires 0 <= k < |os| && Spares(n, os, n + k, s, t) && AsDue(events, os[k], s)
    ensures AsDue(events, os[k], t)
  {
    hide Due;
  }

  lemma ForeignKeepsRouted(base: seq<Stored>, events: seq<Event>, os: Owners, w: World, e: Event, next: World)
    requires Routed(base, events, os, w) && Foreign(os, e) && !e.Requested? && !e.Opened?
    requires IdsAscend(next.db.rows, next.db.last) && Forgets(w.spans, next.spans)
    requires |w.db.rows| == |base| + |os| && LeavesDue(|base|, os, w.db.rows, next.db.rows)
    ensures Routed(base, events + [e], os + Added(w, e, next), next)
  {
    hide RowsAreDue, TrackerPoints, StreamsAreDistinct, StartsAreKnown, IdsStay, Foreign, Forgets;
    var n, rows := |base|, w.db.rows;
    RowsStayDue(base, events, os, rows, e);
    SparedRowsAreDue(base, events + [e], os, rows, next.db.rows);
    StartsStayKnown(events, w.spans, e, next.spans);
    NothingMoved(rows);
    TrackerStays(n, events, os, rows, rows, w.spans, e);
    IdsAreKnown(w.db);
    TrackerForgets(n, events + [e], os, rows, w.spans, next.spans);
    if |next.db.rows| > |rows| {
      DistinctGrows(os, None);
      TrackerGrows(n, events + [e], os, rows, next.db.rows, next.spans, None);
    } else {
      assert os + [] == os;
      TrackerMoves(n, events + [e], os, rows, next.db.rows, next.spans);
    }
  }

  lemma IdsAreKnown(db: Db)
    requires IdsAscend(db.rows, db.last)
    ensures forall i :: 0 <= i < |db.rows| ==> db.rows[i].id != 0
  {
  }

  lemma TrackerForgets(n: nat, events: seq<Event>, os: Owners, rows: seq<Stored>, spans: Spans, next: Spans)
    requires |rows| == n + |os| && TrackerPoints(n, events, os, rows, spans) && Forgets(spans, next)
    requires forall i :: 0 <= i < |rows| ==> rows[i].id != 0
    ensures TrackerPoints(n, events, os, rows, next)
  {
    hide Open, OpenUnder;
    forall k | 0 <= k < |os| ensures PointsAtRow(next, events, os[k], rows[n + k].id) {
      assert PointsAtRow(spans, events, os[k], rows[n + k].id);
    }
  }

  lemma TrackerMoves(n: nat, events: seq<Event>, os: Owners, rows: seq<Stored>, next: seq<Stored>, spans: Spans)
    requires |rows| == n + |os| && TrackerPoints(n, events, os, rows, spans) && |next| == |rows| && IdsStay(rows, next)
    ensures TrackerPoints(n, events, os, next, spans)
  {
    hide Open, OpenUnder;
    forall k | 0 <= k < |os| ensures PointsAtRow(spans, events, os[k], next[n + k].id) {
      assert PointsAtRow(spans, events, os[k], rows[n + k].id);
    }
  }

  lemma LatencyLeavesDue(n: nat, os: Owners, db: Db, next: Db)
    requires |db.rows| == n + |os| && IdsAscend(db.rows, db.last) && OnlyLatency(db, next)
    ensures LeavesDue(n, os, db.rows, next.rows) && IdsAscend(next.rows, next.last)
  {
    forall i | 0 <= i < |db.rows| ensures SparesAt(n, os, i, db.rows, next.rows) && TableOf(next.rows[i].row) == TableOf(db.rows[i].row) {
    }
  }

  lemma StrayRowIsAdded(day: int -> int, n: nat, os: Owners, db: Db, q: Request)
    requires |db.rows| == n + |os| && IdsAscend(db.rows, db.last) && q.service == CODEX_SERVICE && q.requestId == ""
    ensures var next := InsertRequest(day, db, q);
      LeavesDue(n, os, db.rows, next.rows) && IdsAscend(next.rows, next.last) && |next.rows| == |db.rows| + 1
  {
    hide Upsert, LiveKey, Contribution;
    AppendKeepsAscent(db, Api(q));
    var next := InsertRequest(day, db, q);
    forall i | 0 <= i < |db.rows| ensures SparesAt(n, os, i, db.rows, next.rows) {
    }
  }

  lemma StrayRowIsRewritten(n: nat, os: Owners, db: Db, i: int, q: Request)
    requires |db.rows| == n + |os| && IdsAscend(db.rows, db.last) && n <= i < |db.rows| && os[i - n].None? && db.rows[i].row.Api?
    requires q.service == CODEX_SERVICE && q.requestId == ""
    ensures LeavesDue(n, os, db.rows, SetRequest(db, i, q).rows) && IdsAscend(SetRequest(db, i, q).rows, db.last)
  {
    var next := SetRequest(db, i, q);
    forall j | 0 <= j < |db.rows| ensures SparesAt(n, os, j, db.rows, next.rows) && TableOf(next.rows[j].row) == TableOf(db.rows[j].row) {
    }
  }

  /** Neither a turn observation, a first event, the end of a stream, nor a record
      without usage touches what a request is due. */
  lemma LatencyEvents(day: int -> int, n: nat, os: Owners, w: World, e: Event, next: World)
    requires |w.db.rows| == n + |os| && IdsAscend(w.db.rows, w.db.last) && Handles(day, w, e, next)
    requires e.Created? || e.TurnOutput? || e.Closed? || (e.Completed? && Tokenless(e.u))
    ensures LeavesDue(n, os, w.db.rows, next.db.rows) && IdsAscend(next.db.rows, next.db.last) && Forgets(w.spans, next.spans)
  {
    hide LeavesDue, IdsAscend, OnlyLatency, UpdateTtft, UpdateDuration, UpdateTurnTtft, DurationRow, InsertRequest, Answers, Stashed, Applies, DurationOnly;
    NothingIsLatency(w.db);
    match e
    case Created(span, session, model, observed, ts) =>
      var key: Option<SpanKey> :| Finds(w, span, session, model, observed, key) && next == w.(db :=
        if key.None? then w.db
        else var info := w.spans[key.value]; UpdateTtft(w.db, info.rowId, info.session, info.model, ts, Elapsed(info, observed)));
      if key.Some? {
        var info := w.spans[key.value];
        LatencyWriters(w.db, info.rowId, info.session, "", info.model, ts, Elapsed(info, observed));
      }
      LatencyLeavesDue(n, os, w.db, next.db);
    case TurnOutput(conversation, model, at, now, ms) =>
      LatencyWriters(w.db, 0, "", conversation, model, at / NANOS, ms);
      LatencyLeavesDue(n, os, w.db, next.db);
    case Completed(_, _, _) =>
      LatencyLeavesDue(n, os, w.db, next.db);
    case Closed(span, session, model, observed, ts) =>
      var key: Option<SpanKey> :| Finds(w, span, session, model, observed, key)
        && next == w.(db := if key.None? then w.db else CloseStream(day, w.db, w.spans[key.value], observed, ts));
      if key.Some? {
        ClosingIsLatency(day, n, os, w.db, w.spans[key.value], observed, ts);
      } else {
        LatencyLeavesDue(n, os, w.db, next.db);
      }
  }

  lemma ClosingIsLatency(day: int -> int, n: nat, os: Owners, db: Db, info: SpanInfo, observed: int, ts: int)
    requires |db.rows| == n + |os| && IdsAscend(db.rows, db.last)
    ensures var next := CloseStream(day, db, info, observed, ts);
      LeavesDue(n, os, db.rows, next.rows) && IdsAscend(next.rows, next.last)
  {
    hide LeavesDue, IdsAscend, OnlyLatency, UpdateDuration, DurationRow, InsertRequest;
    var ms := Elapsed(info, observed);
    NothingIsLatency(db);
    LatencyLeavesDue(n, os, db, db);
    LatencyWriters(db, info.rowId, info.session, "", info.model, ts, ms);
    LatencyLeavesDue(n, os, db, UpdateDuration(db, info.rowId, info.session, info.model, ts, ms));
    StrayRowIsAdded(day, n, os, db, DurationOnly(info, ts, ms));
  }

  // ---------- A completion that no request owns ----------

  lemma StrayMeetsNoOpenRequest(base: seq<Stored>, events: seq<Event>, os: Owners, w: World, e: Event, span: string, k: int)
    requires Routed(base, events, os, w) && e.Completed? && LeavesRequestsAlone(base, events, os, e)
    requires Span(span) in w.spans && Eligible(w.spans[Span(span)], e.u.session, e.u.model, e.observed, 10 * MINUTE)
    requires 0 <= k < |os| && Streams(os[k], span)
    ensures !Open(events, os[k])
  {
    hide IdsAscend, RowsAreDue, StreamsAreDistinct, StartsAreKnown, CompletionOf, Due;
    RowCount(base, events, os, w.db.rows);
    assert PointsAtRow(w.spans, events, os[k], w.db.rows[|base| + k].id);
  }

  lemma StrayEntryHasNoRow(base: seq<Stored>, events: seq<Event>, os: Owners, w: World, e: Event, key: SpanKey)
    requires Routed(base, events, os, w) && e.Completed? && LeavesRequestsAlone(base, events, os, e)
    requires key in w.spans && Eligible(w.spans[key], e.u.session, e.u.model, e.observed, 10 * MINUTE)
    ensures w.spans[key].rowId == 0
  {
    hide IdsAscend, RowsAreDue, StreamsAreDistinct, StartsAreKnown, CompletionOf, Due, LeavesRequestsAlone, Open, Eligible;
    RowCount(base, events, os, w.db.rows);
    if key.Span? {
      forall k | 0 <= k < |os| && Streams(os[k], key.id) ensures !Open(events, os[k]) {
        StrayMeetsNoOpenRequest(base, events, os, w, e, key.id, k);
      }
    }
  }

  /** The update of a completion without a row: what it carried, and a duration. */
  predicate Rowless(u: Update, e: Event)
    requires e.Completed?
  {
    u.rowId == 0 && u.(rowId := e.u.rowId, duration := e.u.duration) == e.u
  }

  lemma NoRequestIsPending(base: seq<Stored>, events: seq<Event>, os: Owners, rows: seq<Stored>, e: Event, u: Update, i: int)
    requires RowsAreDue(base, events, os, rows) && e.Completed? && LeavesRequestsAlone(base, events, os, e) && Rowless(u, e)
    requires 0 <= i < |rows| && (i < |base| || os[i - |base|].Some?)
    ensures !IsPending(rows[i], u)
  {
    hide CompletionOf, Known;
    if i < |base| {
      assert UpToLatency(rows[i], base[i]);
    } else {
      assert AsDue(events, os[i - |base|], rows[|base| + (i - |base|)]);
    }
  }

  lemma StrayFinalizesStray(base: seq<Stored>, events: seq<Event>, os: Owners, rows: seq<Stored>, e: Event, u: Update)
    requires RowsAreDue(base, events, os, rows) && e.Completed? && LeavesRequestsAlone(base, events, os, e) && Rowless(u, e)
    ensures var d := Decide(rows, u); d.Finalize? ==> d.i >= |base| && os[d.i - |base|].None?
  {
    hide CompletionOf, HasTwin, Known, LeavesRequestsAlone, IsPending, Waiting;
    RowCount(base, events, os, rows);
    forall i | 0 <= i < |rows| && (i < |base| || os[i - |base|].Some?) ensures !IsPending(rows[i], u) {
      NoRequestIsPending(base, events, os, rows, e, u, i);
    }
  }

  /** Finalizing a row that no request owns, or leaving one, spares all others. */
  lemma StrayCompletionLeavesDue(day: int -> int, n: nat, os: Owners, db: Db, u: Update)
    requires |db.rows| == n + |os| && IdsAscend(db.rows, db.last)
    requires var d := Decide(db.rows, u); d.Finalize? ==> d.i >= n && os[d.i - n].None? && Stray(db.rows[d.i])
    ensures var next := Complete(day, db, u); LeavesDue(n, os, db.rows, next.rows) && IdsAscend(next.rows, next.last)
  {
    hide LeavesDue, IdsAscend, Upsert, Contribution, ExactRow, PendingRow, HasTwin, OnlyLatency, InsertRequest;
    match Decide(db.rows, u)
    case Skip =>
      NothingIsLatency(db);
      LatencyLeavesDue(n, os, db, db);
    case Finalize(i) =>
      StrayRowIsRewritten(n, os, db, i, Finalized(db.rows[i].row.req, u));
    case Orphan =>
      StrayRowIsAdded(day, n, os, db, OrphanRow(u));
  }

  lemma StrayEvent(day: int -> int, base: seq<Stored>, events: seq<Event>, os: Owners, w: World, e: Event, next: World)
    requires Routed(base, events, os, w) && e.Completed? && !Tokenless(e.u) && LeavesRequestsAlone(base, events, os, e)
    requires Handles(day, w, e, next)
    ensures |w.db.rows| == |base| + |os| && LeavesDue(|base|, os, w.db.rows, next.db.rows)
    ensures IdsAscend(next.db.rows, next.db.last) && Forgets(w.spans, next.spans)
  {
    hide IdsAscend, TrackerPoints, StreamsAreDistinct, StartsAreKnown, LeavesDue, Complete, Decide, LeavesRequestsAlone, UpToLatency, Due, Tokenless;
    RowCount(base, events, os, w.db.rows);
    var key: Option<SpanKey> :| Completes(day, w, e, key, next);
    var u := if key.Some? then WithTracker(e.u, w.spans[key.value], e.observed) else e.u;
    if key.Some? {
      AnswersAnEntry(w.spans, e.span, e.u.session, e.u.model, e.observed, key);
      StrayEntryHasNoRow(base, events, os, w, e, key.value);
    }
    StrayHasNoRow(base, events, os, e);
    StrayFinalizesStray(base, events, os, w.db.rows, e, u);
    var d := Decide(w.db.rows, u);
    if d.Finalize? {
      assert AsDue(events, os[d.i - |base|], w.db.rows[|base| + (d.i - |base|)]);
    }
    StrayCompletionLeavesDue(day, |base|, os, w.db, u);
  }

  lemma StrayHasNoRow(base: seq<Stored>, events: seq<Event>, os: Owners, e: Event)
    requires e.Completed? && LeavesRequestsAlone(base, events, os, e)
    ensures e.u.rowId == 0 && Foreign(os, e)
  {
  }

  // ---------- Runs ----------

  lemma StepKeepsRouted(day: int -> int, base: seq<Stored>, events: seq<Event>, os: Owners, w: World, e: Event, next: World)
    requires Routed(base, events, os, w) && Orderly(base, events, os, e, w.spans) && Handles(day, w, e, next)
    ensures Routed(base, events + [e], os + Added(w, e, next), next)
  {
    hide Routed, Handles, LeavesDue, LeavesRequestsAlone, IdsAscend, Forgets, CompletionOf, Owns, Calm, Known, IdTaken, WellFormedStream;
    RoutedRows(base, events, os, w);
    if e.Requested? {
      RequestKeepsRouted(day, base, events, os, w, e, next);
    } else if e.Opened? {
      OpenedKeepsRouted(day, base, events, os, w, e, next);
      OpeningAddsNothing(day, w, e, next);
      assert os + [] == os;
    } else if e.Completed? && !Tokenless(e.u) {
      if LeavesRequestsAlone(base, events, os, e) {
        StrayEvent(day, base, events, os, w, e, next);
        StrayHasNoRow(base, events, os, e);
        ForeignKeepsRouted(base, events, os, w, e, next);
      } else {
        var k :| 0 <= k < |os| && Owns(events, os[k], e);
        CompletionKeepsRouted(day, base, events, os, w, e, k, next);
        RoutedRows(base, events + [e], os, next);
        assert os + [] == os;
      }
    } else {
      LatencyEvents(day, |base|, os, w, e, next);
      ForeignKeepsRouted(base, events, os, w, e, next);
    }
  }

  lemma RoutedRows(base: seq<Stored>, events: seq<Event>, os: Owners, w: World)
    requires Routed(base, events, os, w)
    ensures RowsAreDue(base, events, os, w.db.rows) && |w.db.rows| == |base| + |os| && IdsAscend(w.db.rows, w.db.last)
  {
  }

  lemma OpeningAddsNothing(day: int -> int, w: World, e: Event, next: World)
    requires e.Opened? && Handles(day, w, e, next)
    ensures Added(w, e, next) == []
  {
  }

  /** A run of the receiver from its start: tracker and stash are empty, and every
      record is handled in turn. */
  ghost predicate Steps(day: int -> int, base: Db, events: seq<Event>, worlds: seq<World>) {
    && |worlds| == |events| + 1 && worlds[0] == World(base, map[], map[])
    && forall i :: 0 <= i < |events| ==> Handles(day, worlds[i], events[i], worlds[i + 1])
  }

  function OwnersOf(events: seq<Event>, worlds: seq<World>): Owners
    requires |worlds| == |events| + 1
  {
    if events == [] then []
    else
      var n := |events| - 1;
      OwnersOf(events[..n], worlds[..n + 1]) + Added(worlds[n], events[n], worlds[n + 1])
  }

  /** A run in which every record arrives in order. */
  ghost predicate Trace(day: int -> int, base: Db, events: seq<Event>, worlds: seq<World>) {
    && Steps(day, base, events, worlds)
    && forall i :: 0 <= i < |events| ==>
         Orderly(base.rows, events[..i], OwnersOf(events[..i], worlds[..i + 1]), events[i], worlds[i].spans)
  }

  lemma StepsPrefix(day: int -> int, base: Db, events: seq<Event>, worlds: seq<World>)
    requires Steps(day, base, events, worlds) && events != []
    ensures Steps(day, base, events[..|events| - 1], worlds[..|events|])
  {
    hide Handles;
  }

  lemma TracePrefix(day: int -> int, base: Db, events: seq<Event>, worlds: seq<World>)
    requires Trace(day, base, events, worlds) && events != []
    ensures Trace(day, base, events[..|events| - 1], worlds[..|events|])
  {
    hide Handles, Orderly, OwnersOf, Steps;
    StepsPrefix(day, base, events, worlds);
    assert |worlds| == |events| + 1 by {
      assert Steps(day, base, events, worlds);
      StepsCount(day, base, events, worlds);
    }
    var n := |events| - 1;
    forall i | 0 <= i < n ensures events[..n][..i] == events[..i] && worlds[..n + 1][..i + 1] == worlds[..i + 1] {
    }
  }

  lemma StepsCount(day: int -> int, base: Db, events: seq<Event>, worlds: seq<World>)
    requires Steps(day, base, events, worlds)
    ensures |worlds| == |events| + 1
  {
  }

  /** Whatever the interleaving, with several requests in flight on either transport:
      the rows there were, then one row per request, each with the usage of its own
      completion or none yet; nothing else changed but latencies, and every further
      row is one that no request owns. */
  lemma {:induction false} EveryCompletionReachesItsOwnRow(day: int -> int, base: Db, events: seq<Event>, worlds: seq<World>)
    requires IdsAscend(base.rows, base.last) && Trace(day, base, events, worlds)
    ensures Routed(base.rows, events, OwnersOf(events, worlds), worlds[|events|])
    ensures RowsAreDue(base.rows, events, OwnersOf(events, worlds), worlds[|events|].db.rows)
    decreases |events|
  {
    hide Handles, Orderly, Routed, IdsAscend, RowsAreDue;
    if events == [] {
      NothingToRoute(base);
    } else {
      var n := |events| - 1;
      TracePrefix(day, base, events, worlds);
      EveryCompletionReachesItsOwnRow(day, base, events[..n], worlds[..n + 1]);
      StepKeepsRouted(day, base.rows, events[..n], OwnersOf(events[..n], worlds[..n + 1]), worlds[n], events[n], worlds[n + 1]);
      assert events == events[..n] + [events[n]];
    }
    RoutedRows(base.rows, events, OwnersOf(events, worlds), worlds[|events|]);
  }

  lemma NothingToRoute(base: Db)
    requires IdsAscend(base.rows, base.last)
    ensures Routed(base.rows, [], [], World(base, map[], map[]))
  {
  }

  /** The requests among the records, in order. */
  function Requests(events: seq<Event>): seq<Asked> {
    if events == [] then []
    else
      var e := events[|events| - 1];
      Requests(events[..|events| - 1]) + if e.Requested? then [AskedBy(e)] else []
  }

  function Named(os: Owners): seq<Asked> {
    if os == [] then []
    else
      var o := os[|os| - 1];
      Named(os[..|os| - 1]) + if o.Some? then [o.value] else []
  }

  /** The rows that requests own are owned by all of them, in order. */
  lemma {:induction false} OwnersAreTheRequests(events: seq<Event>, worlds: seq<World>)
    requires |worlds| == |events| + 1
    ensures Named(OwnersOf(events, worlds)) == Requests(events)
    decreases |events|
  {
    if events != [] {
      var n := |events| - 1;
      OwnersAreTheRequests(events[..n], worlds[..n + 1]);
      var before, added := OwnersOf(events[..n], worlds[..n + 1]), Added(worlds[n], events[n], worlds[n + 1]);
      if added != [] {
        assert (before + added)[..|before|] == before;
      } else {
        assert before + added == before;
      }
    }
  }
}
