/** Dispatching Codex records: what each kind of record does to the database, to
    the tracker and to the stash of turn observations. */
module Dispatch {
  import opened Rows
  import opened Aggregate
  import opened Pool
  import opened Completion
  import Effects
  import opened RepositoryModule
  import opened SpanTracker
  import opened Tokens64

  const NANOS := 1_000_000_000

  /** A Codex log record, reduced to what reaches the repository. q is the row of
      codex.api_request, `at` its time in nanoseconds; u the update of an
      authoritative response.completed before the tracker adds row id and duration.
      Opened is codex.websocket_request; Closed the response.completed of
      codex.websocket_event; Created any response.created. */
  datatype Event =
    | Requested(span: string, q: Request, at: int, observed: int, setupMs: int, pendingStream: bool)
    | Completed(span: string, u: Update, observed: int)
    | Created(span: string, session: string, model: string, observed: int, ts: int)
    | TurnOutput(conversation: string, model: string, at: int, now: int, ms: int)
    | Opened(span: string, session: string, model: string, observed: int, setupMs: int)
    | Closed(span: string, session: string, model: string, observed: int, ts: int)

  /** A completion as the client reports it. */
  datatype Report = Report(session: string, model: string, ts: int, usage: Usage, ttft: int)

  /** What the receiver makes of it: the categories apart, at the local price. */
  function UpdateOf(c: Report, price: (string, Tokens) -> int): Update {
    var tok := Normalized(c.usage);
    Update(0, c.session, c.model, c.ts, tok, price(c.model, tok), 0, c.ttft)
  }

  datatype World = World(db: Db, spans: Spans, stash: Stash)

  /** The per-poll record that carries no usage. */
  predicate Tokenless(u: Update) {
    u.tok == NO_TOKENS && u.ttft == 0
  }

  /** The update with what the tracker knows. */
  function WithTracker(u: Update, info: SpanInfo, observed: int): Update {
    var ms := (observed - info.start) / NANOS_PER_MS;
    u.(rowId := info.rowId, duration := if ms > 0 then ms else u.duration)
  }

  function Elapsed(info: SpanInfo, observed: int): int {
    var ms := (observed - info.start) / NANOS_PER_MS;
    if ms < 0 then 0 else ms
  }

  predicate Recorded(spans: Spans, span: string, info: SpanInfo, kept: Spans, key: SpanKey, next: Spans) {
    && (if span != "" then key == Span(span) else key.Fallback?)
    && Capped(Unexpired(spans, info.start - 30 * MINUTE), kept)
    && next == kept[key := if key in kept then MergeInfo(info, kept[key]) else info]
  }

  ghost predicate Records(spans: Spans, span: string, info: SpanInfo, next: Spans) {
    exists kept: Spans, key: SpanKey :: Recorded(spans, span, info, kept, key, next)
  }

  /** The drained observations applied to the anchor, one after the other. */
  function FillAll(db: Db, id: int, session: string, model: string, obs: seq<Observation>): Db {
    if obs == [] then db
    else
      var o := obs[|obs| - 1];
      UpdateTtft(FillAll(db, id, session, model, obs[..|obs| - 1]), id, session, model, o.nanos / NANOS, o.ms)
  }

  /** The insert, and what the stash held for it. */
  ghost predicate Anchors(day: int -> int, w: World, q: Request, at: int, id: int, obs: seq<Observation>, next: World) {
    var inserted := InsertRequest(day, w.db, CodexRow(q));
    if id > 0 then
      next.db == FillAll(inserted, id, q.session, q.model, obs) && Drains(w.stash, (q.conversation, q.model), at, obs, next.stash)
    else next.db == inserted && next.stash == w.stash
  }

  function AnchorId(db: Db, q: Request): int {
    if IdTaken(db.rows, q.requestId) then 0 else LastId(db.last, ApiRequests) + 1
  }

  ghost predicate Completes(day: int -> int, w: World, e: Event, key: Option<SpanKey>, next: World)
    requires e.Completed?
  {
    && (key.Some? ==> key.value in w.spans)
    && Answers(w.spans, e.span, e.u.session, e.u.model, e.observed, 10 * MINUTE, key)
    && next.db == Complete(day, w.db, if key.Some? then WithTracker(e.u, w.spans[key.value], e.observed) else e.u)
    && next.spans == (if key.Some? then w.spans - {key.value} else w.spans) && next.stash == w.stash
  }

  /** A duration for a row of the entry, or a row of its own if there is none. */
  function CloseStream(day: int -> int, db: Db, info: SpanInfo, observed: int, ts: int): Db {
    var ms := Elapsed(info, observed);
    if info.session == "" || info.model == "" || ms <= 0 then db
    else if DurationRow(db.rows, info.rowId, info.session, info.model, ts) >= 0 then
      UpdateDuration(db, info.rowId, info.session, info.model, ts, ms)
    else InsertRequest(day, db, DurationOnly(info, ts, ms))
  }

  function DurationOnly(info: SpanInfo, ts: int, ms: int): Request {
    Request(ts, info.session, "", 0, info.model, NO_TOKENS, 0, ms, 0, "",
            CODEX_SERVICE, "codex.websocket_event:response.completed", info.session, "", [])
  }

  ghost predicate Finds(w: World, span: string, session: string, model: string, observed: int, key: Option<SpanKey>) {
    (key.Some? ==> key.value in w.spans) && Answers(w.spans, span, session, model, observed, 10 * MINUTE, key)
  }

  /** What handling one record may do; the lookup leaves a choice only among
      equally new entries. */
  ghost predicate Handles(day: int -> int, w: World, e: Event, next: World) {
    match e
    case Requested(span, q, at, observed, setupMs, pendingStream) =>
      && (exists obs: seq<Observation> :: Anchors(day, w, q, at, AnchorId(w.db, q), obs, next))
      && (if pendingStream then
            Records(w.spans, span, SpanInfo(AnchorId(w.db, q), q.session, q.model, StartNanos(observed, setupMs)), next.spans)
          else next.spans == w.spans)
    case Completed(span, u, observed) =>
      if Tokenless(u) then next == w
      else exists key: Option<SpanKey> :: Completes(day, w, e, key, next)
    case Created(span, session, model, observed, ts) =>
      exists key: Option<SpanKey> :: Finds(w, span, session, model, observed, key) && next == w.(db :=
        if key.None? then w.db
        else var info := w.spans[key.value]; UpdateTtft(w.db, info.rowId, info.session, info.model, ts, Elapsed(info, observed)))
    case TurnOutput(conversation, model, at, now, ms) =>
      next == World(UpdateTurnTtft(w.db, conversation, model, at / NANOS, ms), w.spans,
                    if Applies(w.db, conversation, model, at / NANOS, ms) then w.stash
                    else Stashed(w.stash, (conversation, model), Observation(at, ms), now))
    case Opened(span, session, model, observed, setupMs) =>
      Records(w.spans, span, SpanInfo(0, session, model, StartNanos(observed, setupMs)), next.spans)
      && next.db == w.db && next.stash == w.stash
    case Closed(span, session, model, observed, ts) =>
      exists key: Option<SpanKey> :: Finds(w, span, session, model, observed, key)
        && next == w.(db := if key.None? then w.db else CloseStream(day, w.db, w.spans[key.value], observed, ts))
  }

  /** A turn observation finds its anchor. */
  predicate Applies(db: Db, conversation: string, model: string, ts: int, ms: int) {
    conversation != "" && model != "" && ms > 0 && exists j :: 0 <= j < |db.rows| && TurnAnchor(db.rows[j], conversation, model, ts)
  }

  class Dispatcher {
    const repo: Repository
    const tracker: Tracker

    constructor (repo: Repository, tracker: Tracker)
      ensures this.repo == repo && this.tracker == tracker
    {
      this.repo, this.tracker := repo, tracker;
    }

    ghost function State(): World
      reads repo, tracker
    {
      World(repo.State(), tracker.spans, tracker.turnTtft)
    }

    method OnRequest(span: string, q: Request, at: int, observed: int, setupMs: int, pendingStream: bool)
      requires 0 <= LastId(repo.last, ApiRequests)
      modifies repo, tracker
      ensures Handles(repo.day, old(State()), Requested(span, q, at, observed, setupMs, pendingStream), State())
    {
      hide Capped, Unexpired, Drains, FillAll, IdTaken;
      ghost var before := State();
      var id, obs := Anchor(q, at);
      if pendingStream {
        Remember(span, SpanInfo(id, q.session, q.model, StartNanos(observed, setupMs)));
      }
      assert Anchors(repo.day, before, q, at, AnchorId(before.db, q), obs, State());
    }

    /** Stores the row and fills in what arrived before it. */
    method Anchor(q: Request, at: int) returns (id: int, obs: seq<Observation>)
      requires 0 <= LastId(repo.last, ApiRequests)
      modifies repo, tracker`turnTtft
      ensures id == AnchorId(old(repo.State()), q)
      ensures Anchors(repo.day, old(State()), q, at, id, obs, State()) && State().spans == old(State()).spans
    {
      hide Drains, IdTaken, Upsert, UpdateTtft;
      obs := [];
      var stored;
      id, stored := repo.InsertCodexRow(q);
      if id > 0 {
        ghost var inserted := repo.State();
        obs := tracker.DrainTurn((q.conversation, q.model), at);
        for n := 0 to |obs|
          invariant repo.State() == FillAll(inserted, id, q.session, q.model, obs[..n])
          invariant Drains(old(tracker.turnTtft), (q.conversation, q.model), at, obs, tracker.turnTtft)
        {
          assert obs[..n + 1][..n] == obs[..n];
          repo.UpdateCodexRequestTtft(id, q.session, q.model, obs[n].nanos / NANOS, obs[n].ms);
        }
        assert obs[..|obs|] == obs;
      }
    }

    method Remember(span: string, info: SpanInfo)
      modifies tracker`spans, tracker`nextFallback
      ensures Records(old(tracker.spans), span, info, tracker.spans)
    {
      hide Capped, Unexpired;
      ghost var before := tracker.spans;
      var key := tracker.Record(span, info);
      ghost var kept :| Capped(Unexpired(before, info.start - 30 * MINUTE), kept)
                        && tracker.spans == kept[key := if key in kept then MergeInfo(info, kept[key]) else info];
      assert Recorded(before, span, info, kept, key, tracker.spans);
    }

    /** Returns whether the record had an effect worth announcing. */
    method OnCompleted(span: string, c: Report, price: (string, Tokens) -> int, observed: int) returns (handled: bool)
      modifies repo, tracker
      ensures Handles(repo.day, old(State()), Completed(span, UpdateOf(c, price), observed), State())
      ensures handled == !(c.usage == NO_USAGE && c.ttft == 0)
    {
      hide Complete, Answers, UncachedInput, Handles, Completes, WithTracker;
      NoUsageStaysNone(c.usage);
      if c.usage.input == 0 && c.usage.output == 0 && c.usage.cacheRead == 0 && c.usage.cacheCreate == 0
         && c.usage.reasoning == 0 && c.usage.total == 0 && c.ttft == 0 {
        NothingHappens(repo.day, State(), span, UpdateOf(c, price), observed);
        return false;
      }
      var input, total := c.usage.input, c.usage.total;
      if total == 0 {
        total := SatAdd(c.usage.input, c.usage.output);
      }
      if input > 0 {
        input := UncachedInput(input, c.usage.cacheRead, c.usage.cacheCreate);
      }
      var tok := Tokens(input, c.usage.output, c.usage.cacheRead, c.usage.cacheCreate, c.usage.reasoning, total);
      Finish(span, Update(0, c.session, c.model, c.ts, tok, price(c.model, tok), 0, c.ttft), observed);
      return true;
    }

    /** Finds the row's entry, completes the row and forgets the entry. */
    method Finish(span: string, u: Update, observed: int)
      requires !Tokenless(u) && u.duration == 0
      modifies repo, tracker
      ensures Handles(repo.day, old(State()), Completed(span, u, observed), State())
    {
      hide Complete, Answers, StartNanos, Eligible, Tokenless;
      var upd := u;
      var key := tracker.Lookup(span, u.session, u.model, observed, 10 * MINUTE);
      if key.Some? {
        AnswersAnEntry(tracker.spans, span, u.session, u.model, observed, key);
        var info := tracker.spans[key.value];
        upd := upd.(rowId := info.rowId);
        var ms := (observed - info.start) / NANOS_PER_MS;
        if ms > 0 {
          upd := upd.(duration := ms);
        }
      }
      ghost var before := State();
      var _ := repo.UpdateCodexTokens(upd);
      tracker.Remove(key);
      assert Completes(repo.day, before, Completed(span, u, observed), key, State());
    }

    method OnCreated(span: string, session: string, model: string, observed: int, ts: int)
      modifies repo`rows
      ensures Handles(repo.day, old(State()), Created(span, session, model, observed, ts), State())
    {
      hide Answers, Eligible, UpdateTtft;
      ghost var before := State();
      var key := tracker.Lookup(span, session, model, observed, 10 * MINUTE);
      if key.Some? {
        AnswersAnEntry(tracker.spans, span, session, model, observed, key);
        var info := tracker.spans[key.value];
        repo.UpdateCodexRequestTtft(info.rowId, info.session, info.model, ts, Elapsed(info, observed));
      }
      assert Finds(before, span, session, model, observed, key);
    }

    method OnTurnOutput(conversation: string, model: string, at: int, now: int, ms: int)
      modifies repo`rows, tracker`turnTtft
      ensures Handles(repo.day, old(State()), TurnOutput(conversation, model, at, now, ms), State())
    {
      hide TurnAnchor, Stashed, UpdateTurnTtft;
      var applied := repo.UpdateCodexTurnTtft(conversation, model, at / NANOS, ms);
      if !applied {
        tracker.StashTurn((conversation, model), Observation(at, ms), now);
      }
    }

    method OnOpened(span: string, session: string, model: string, observed: int, setupMs: int)
      modifies tracker
      ensures Handles(repo.day, old(State()), Opened(span, session, model, observed, setupMs), State())
    {
      Remember(span, SpanInfo(0, session, model, StartNanos(observed, setupMs)));
    }

    method OnClosed(span: string, session: string, model: string, observed: int, ts: int)
      modifies repo
      ensures Handles(repo.day, old(State()), Closed(span, session, model, observed, ts), State())
    {
      hide Answers, Eligible, DurationRow, UpdateDuration;
      ghost var before := State();
      var key := tracker.Lookup(span, session, model, observed, 10 * MINUTE);
      if key.Some? {
        AnswersAnEntry(tracker.spans, span, session, model, observed, key);
        Close(tracker.spans[key.value], observed, ts);
      }
      assert Finds(before, span, session, model, observed, key);
    }

    method Close(info: SpanInfo, observed: int, ts: int)
      modifies repo
      ensures repo.State() == CloseStream(repo.day, old(repo.State()), info, observed, ts)
    {
      hide DurationRow, Upsert, LiveKey, Contribution;
      var ms := Elapsed(info, observed);
      var updated := repo.UpdateCodexRequestDuration(info.rowId, info.session, info.model, ts, ms);
      if !updated && ms > 0 && info.session != "" && info.model != "" {
        var _, _ := repo.InsertCodexRow(DurationOnly(info, ts, ms));
      }
    }
  }

  lemma AnswersAnEntry(spans: Spans, span: string, session: string, model: string, observed: int, key: Option<SpanKey>)
    requires Answers(spans, span, session, model, observed, 10 * MINUTE, key) && key.Some?
    ensures key.value in spans && Eligible(spans[key.value], session, model, observed, 10 * MINUTE)
  {
  }

  lemma NothingHappens(day: int -> int, w: World, span: string, u: Update, observed: int)
    requires Tokenless(u)
    ensures Handles(day, w, Completed(span, u, observed), w)
  {
  }

  // ---------- What the milliseconds are ----------

  /** ms is the time from start to end, in whole milliseconds. */
  predicate IsTimeBetween(start: int, end: int, ms: int) {
    ms * 1_000_000 <= end - start && end - start < (ms + 1) * 1_000_000
  }

  /** A latency is the time from the recorded start to the observation, zero for an
      observation that came before it. */
  lemma ElapsedIsTheTime(info: SpanInfo, observed: int)
    ensures observed >= info.start ==> IsTimeBetween(info.start, observed, Elapsed(info, observed))
    ensures observed < info.start ==> Elapsed(info, observed) == 0
  {
  }

  /** The update of a completion: the row the tracker knows, and the time since its
      start if that is a millisecond or more; all else as reported. */
  lemma TrackerAddsTheTime(u: Update, info: SpanInfo, observed: int)
    ensures var v := WithTracker(u, info, observed);
      && v == u.(rowId := info.rowId, duration := v.duration)
      && if observed - info.start >= 1_000_000 then IsTimeBetween(info.start, observed, v.duration) else v.duration == u.duration
  {
  }

  /** What a reported completion leaves in the row it finalizes, column by column. */
  lemma CompletionStoresTheReport(day: int -> int, w: World, span: string, c: Report, price: (string, Tokens) -> int, observed: int,
                                  key: Option<SpanKey>, next: World, i: int)
    requires Completes(day, w, Completed(span, UpdateOf(c, price), observed), key, next)
    requires Decide(w.db.rows, if key.Some? then WithTracker(UpdateOf(c, price), w.spans[key.value], observed) else UpdateOf(c, price)) == Finalize(i)
    ensures |next.db.rows| == |w.db.rows| && next.db.rows[i].id == w.db.rows[i].id && next.db.rows[i].row.Api? && w.db.rows[i].row.Api?
    ensures var q, r := w.db.rows[i].row.req, next.db.rows[i].row.req;
      && r == q.(tok := r.tok, cost := r.cost, duration := r.duration, ttft := r.ttft)
      && r.session == c.session && r.model == c.model && r.service == "codex" && q.tok == Tokens(0, 0, 0, 0, 0, 0)
      && r.tok.output == c.usage.output && r.tok.cacheRead == c.usage.cacheRead && r.tok.cacheCreate == c.usage.cacheCreate
      && r.tok.reasoning == c.usage.reasoning && (c.usage.total != 0 ==> r.tok.total == c.usage.total)
      && (c.usage.cacheRead >= 0 && c.usage.cacheCreate >= 0 && c.usage.input > 0 ==>
            r.tok.input == if c.usage.input > c.usage.cacheRead + c.usage.cacheCreate
                           then c.usage.input - c.usage.cacheRead - c.usage.cacheCreate else 0)
      && r.cost == price(c.model, r.tok)
      && r.ttft == (if c.ttft > 0 then c.ttft else q.ttft)
      && if key.Some? && observed - w.spans[key.value].start >= 1_000_000 then IsTimeBetween(w.spans[key.value].start, observed, r.duration)
         else r.duration == q.duration
  {
    hide Answers, Upsert, Contribution, UncachedInput, Normalized, SatAdd, StaysInRange, WithTracker, ExactRow, PendingRow, HasTwin, IsTimeBetween;
    UsageKeepsItsCategories(c.usage);
    UncachedInputIsExact(c.usage.input, c.usage.cacheRead, c.usage.cacheCreate);
    if key.Some? {
      TrackerAddsTheTime(UpdateOf(c, price), w.spans[key.value], observed);
      PositiveTime(w.spans[key.value].start, observed);
    }
  }

  lemma PositiveTime(start: int, end: int)
    ensures forall ms :: IsTimeBetween(start, end, ms) && end - start >= 1_000_000 ==> ms > 0
  {
  }

  /** A row that only a websocket record left: when, whose and how long, nothing else. */
  lemma ClosedRowHoldsItsDuration(day: int -> int, db: Db, info: SpanInfo, observed: int, ts: int)
    requires |CloseStream(day, db, info, observed, ts).rows| > |db.rows|
    ensures var rows := CloseStream(day, db, info, observed, ts).rows;
      && |rows| == |db.rows| + 1 && rows[|db.rows|].row.Api?
      && var q := rows[|db.rows|].row.req;
         && q.ts == ts && q.session == info.session && q.conversation == info.session && q.model == info.model && q.eventSeq == 0
         && q.service == "codex" && q.requestId == "" && q.tok == Tokens(0, 0, 0, 0, 0, 0) && q.cost == 0 && q.ttft == 0
         && q.duration > 0 && IsTimeBetween(info.start, observed, q.duration)
  {
    hide DurationRow, Upsert, LiveKey, Contribution, IsTimeBetween, Elapsed, IdTaken, LastId;
    ElapsedIsTheTime(info, observed);
  }

  /** The row of the entry, or one of its session and model in the ten minutes before
      that has no duration. */
  predicate AwaitsDuration(s: Stored, info: SpanInfo, ts: int) {
    s.row.Api? && s.row.req.session == info.session && s.row.req.model == info.model && s.row.req.service == "codex"
    && ((info.rowId > 0 && s.id == info.rowId) || (s.row.req.duration == 0 && s.row.req.ts >= ts - 10 * 60))
  }

  /** A closed response adds a row exactly if it took a millisecond and no row awaits it. */
  lemma ClosingAddsExactly(day: int -> int, db: Db, info: SpanInfo, observed: int, ts: int)
    ensures |CloseStream(day, db, info, observed, ts).rows| != |db.rows| <==>
      && info.session != "" && info.model != "" && observed - info.start >= 1_000_000
      && forall i :: 0 <= i < |db.rows| ==> !AwaitsDuration(db.rows[i], info, ts)
  {
    hide Upsert, LiveKey, Contribution, LastId;
    var rows := db.rows;
    forall i | 0 <= i < |rows| && AwaitsDuration(rows[i], info, ts) ensures DurationRow(rows, info.rowId, info.session, info.model, ts) >= 0 {
    }
  }

  /** Before the tracker adds to it an update names no row and no duration, and keeps
      whose and when it is. */
  lemma ReportNamesNoRow(c: Report, price: (string, Tokens) -> int)
    ensures var u := UpdateOf(c, price);
      u.rowId == 0 && u.duration == 0 && u.session == c.session && u.model == c.model && u.ts == c.ts && u.ttft == c.ttft
  {
  }

  /** A turn observation waits in the stash if and only if no request is its anchor. */
  lemma TurnWaitsForItsAnchor(day: int -> int, w: World, conversation: string, model: string, at: int, now: int, ms: int, next: World)
    requires Handles(day, w, TurnOutput(conversation, model, at, now, ms), next)
    ensures var found := conversation != "" && model != "" && ms > 0
        && exists i :: 0 <= i < |w.db.rows| && Effects.IsAnchorOf(w.db.rows[i], conversation, model, at / 1_000_000_000);
      next.stash == if found then w.stash else Stashed(w.stash, (conversation, model), Observation(at, ms), now)
  {
    hide Stashed, UpdateTurnTtft, TurnAnchor, Effects.IsAnchorOf;
    forall i | 0 <= i < |w.db.rows|
      ensures TurnAnchor(w.db.rows[i], conversation, model, at / NANOS) <==> Effects.IsAnchorOf(w.db.rows[i], conversation, model, at / 1_000_000_000)
    {
      Effects.PlainAnchor(w.db.rows[i], conversation, model, at / NANOS);
    }
  }

  /** A request whose id is stored already leaves rows and stash alone, and its entry
      leads to no row. */
  lemma DuplicateLeadsNowhere(day: int -> int, w: World, e: Event, next: World, j: int)
    requires e.Requested? && Handles(day, w, e, next)
    requires 0 <= j < |w.db.rows| && w.db.rows[j].row.Api? && e.q.requestId != "" && w.db.rows[j].row.req.requestId == e.q.requestId
    ensures next.db == w.db && next.stash == w.stash
    ensures if e.pendingStream then Records(w.spans, e.span, SpanInfo(0, e.q.session, e.q.model, StartNanos(e.observed, e.setupMs)), next.spans)
            else next.spans == w.spans
  {
    hide Records, Drains, FillAll, Upsert, LiveKey, Contribution, StartNanos;
    var obs: seq<Observation> :| Anchors(day, w, e.q, e.at, AnchorId(w.db, e.q), obs, next);
  }
}
