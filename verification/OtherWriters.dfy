/** The pool's own writers are writers the auto-import allows beside it. */
module OtherWriters {
  import opened Rows
  import opened Aggregate
  import opened Pool
  import opened Completion
  import opened Batches
  import opened Merge
  import opened MergeSoundness
  import opened Runs
  import AutoImport

  /** The rows one transaction adds, if any, get ids above everything their table
      ever used. */
  predicate AddsOnTop(before: Db, after: Db) {
    && |before.rows| <= |after.rows|
    && (forall t: Table :: LastId(before.last, t) <= LastId(after.last, t))
    && forall i :: |before.rows| <= i < |after.rows| ==> after.rows[i].id > LastId(before.last, TableOf(after.rows[i].row))
  }

  lemma InsertAddsOnTop(day: int -> int, db: Db, q: Request)
    ensures AddsOnTop(db, InsertRequest(day, db, q))
  {
    hide Upsert, LiveKey, Contribution, IdTaken;
  }

  lemma InsertWithSpanAddsOnTop(day: int -> int, db: Db, q: Request, span: int)
    ensures AddsOnTop(db, InsertWithSpan(day, db, q, span))
  {
    hide Upsert, LiveKey, Contribution, IdTaken, InsertRequest;
    InsertAddsOnTop(day, db, q);
    if SpanApplies(db, q, span) {
      InsertAddsOnTop(day, db.(rows := Process(db.rows, span)), q.(ttft := db.rows[span].row.span.ttft));
    }
  }

  lemma CompleteAddsOnTop(day: int -> int, db: Db, u: Update)
    ensures AddsOnTop(db, Complete(day, db, u))
  {
    hide Upsert, LastId, TableOf, IdTaken;
    if Completion.Decide(db.rows, u).Orphan? {
      InsertAddsOnTop(day, db, OrphanRow(u));
    }
  }

  lemma StepAddsOnTop(e: AutoImport.Env, db: Db, s: Step)
    requires IdsAscend(db.rows, db.last)
    ensures AddsOnTop(db, Apply(e.day, db, s))
  {
    hide AddsOnTop, Upsert, RunBatch, Complete, InsertRequest, InsertWithSpan, UpdateDuration, UpdateTtft, UpdateTurnTtft;
    match s
    case LiveInsert(q, span) => InsertWithSpanAddsOnTop(e.day, db, q, span);
    case CodexInsert(q) => InsertAddsOnTop(e.day, db, CodexRow(q));
    case Completed(u) => CompleteAddsOnTop(e.day, db, u);
    case Duration(id, session, model, ts, ms) => LatencyAddsNothing(db, id, session, "", model, ts, ms);
    case Ttft(id, session, model, ts, ms) => LatencyAddsNothing(db, id, session, "", model, ts, ms);
    case TurnTtft(conversation, model, ts, ms) => LatencyAddsNothing(db, 0, "", conversation, model, ts, ms);
    case ImportedBatch(b, source, at) => BatchAddsOnTop(e.day, db, b, source, at);
    case Rebuilt => NothingOnTop(db, Rebuild(e.day, db));
    case Busy => NothingOnTop(db, db);
  }

  lemma NothingOnTop(before: Db, after: Db)
    requires |after.rows| == |before.rows| && after.last == before.last
    ensures AddsOnTop(before, after)
  {
  }

  lemma LatencyAddsNothing(db: Db, id: int, session: string, conversation: string, model: string, ts: int, ms: int)
    ensures AddsOnTop(db, UpdateDuration(db, id, session, model, ts, ms))
    ensures AddsOnTop(db, UpdateTtft(db, id, session, model, ts, ms))
    ensures AddsOnTop(db, UpdateTurnTtft(db, conversation, model, ts, ms))
  {
    hide AddsOnTop, DurationRow, TtftRow, TurnRow;
    NothingOnTop(db, UpdateDuration(db, id, session, model, ts, ms));
    NothingOnTop(db, UpdateTtft(db, id, session, model, ts, ms));
    NothingOnTop(db, UpdateTurnTtft(db, conversation, model, ts, ms));
  }

  lemma BatchAddsOnTop(day: int -> int, db: Db, b: Batch, source: string, at: int)
    requires IdsAscend(db.rows, db.last)
    ensures AddsOnTop(db, RunBatch(day, db, b, source, at))
  {
    hide FanOut, Note, IdsAscend, LastId;
    LandAppends(day, db, FanOut(db.rows, b.cands));
    LandIds(day, db, FanOut(db.rows, b.cands));
  }

  /** Every transaction of the pool's own writers, on a sound pool, is one that
      the lifecycle allows between any two of its steps: live inserts, anchors,
      completions, latencies, imports and rebuilds. */
  lemma OwnWritersAreOtherWriters(e: AutoImport.Env, db: Db, s: Step)
    requires Sound(e.day, db) && Allowed(s)
    ensures AutoImport.OtherWriter(e, db, Apply(e.day, db, s))
  {
    hide Agrees, IdsAscend, UniqueRequestIds, PendingFree, Apply, Allowed, LastId, TableOf, GroupColumns;
    var next := Apply(e.day, db, s);
    StepKeepsSound(e.day, db, s);
    StepRemembers(e.day, db, s);
    StepAddsOnTop(e, db, s);
    forall i | 0 <= i < |next.rows| && next.rows[i].id <= LastId(db.last, TableOf(next.rows[i].row))
      ensures exists j :: 0 <= j < |db.rows| && AutoImport.SameIdentity(db.rows[j], next.rows[i])
    {
      assert i < |db.rows|;
      RememberedIdentity(db.rows[i], next.rows[i]);
    }
  }

  lemma RememberedIdentity(a: Stored, b: Stored)
    requires SameRow(a, b)
    ensures AutoImport.SameIdentity(a, b)
  {
  }
}
