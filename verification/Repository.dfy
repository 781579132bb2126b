/** The repository that owns the pool: each method is one transaction, written
    the way the program writes it and proved against the pool's functions. */
module RepositoryModule {
  import opened Rows
  import opened Aggregate
  import opened Pool
  import opened Completion

  /** The two queries for a waiting span, each keeping the closest so far. */
  method TakenSpan(rows: seq<Stored>, q: Request) returns (i: int)
    ensures Takes(rows, q, i)
  {
    hide Gap;
    i := -1;
    for j := 0 to |rows|
      invariant -1 <= i < j
      invariant i < 0 ==> forall k :: 0 <= k < j ==> !WaitsById(rows[k].row, q)
      invariant i >= 0 ==> WaitsById(rows[i].row, q) && forall k :: 0 <= k < j && WaitsById(rows[k].row, q) ==> Gap(rows[i].row, q) <= Gap(rows[k].row, q)
    {
      if WaitsById(rows[j].row, q) && (i < 0 || Gap(rows[j].row, q) < Gap(rows[i].row, q)) {
        i := j;
      }
    }
    if i >= 0 {
      return;
    }
    for j := 0 to |rows|
      invariant -1 <= i < j
      invariant i < 0 ==> forall k :: 0 <= k < j ==> !WaitsNearby(rows[k].row, q)
      invariant i >= 0 ==> WaitsNearby(rows[i].row, q) && forall k :: 0 <= k < j && WaitsNearby(rows[k].row, q) ==> Gap(rows[i].row, q) <= Gap(rows[k].row, q)
    {
      if WaitsNearby(rows[j].row, q) && (i < 0 || Gap(rows[j].row, q) < Gap(rows[i].row, q)) {
        i := j;
      }
    }
  }

  lemma TakenIsPending(rows: seq<Stored>, q: Request, i: int)
    requires Takes(rows, q, i) && i >= 0
    ensures i < |rows| && rows[i].row.Pending?
  {
  }

  lemma TtftCountsNowhere(day: int -> int, q: Request, ms: int)
    ensures LiveKey(day, q.(ttft := ms)) == LiveKey(day, q) && Contribution(q.(ttft := ms)) == Contribution(q)
  {
  }

  class Repository {
    /** The local calendar day of a Unix timestamp. */
    const day: int -> int
    var rows: seq<Stored>
    var agg: Agg
    var ledger: map<Identity, LedgerEntry>
    var last: map<Table, int>

    constructor (day: int -> int)
      ensures this.day == day && State() == Db([], map[], map[], map[])
      ensures Sound(day, State())
    {
      this.day := day;
      rows, agg, ledger, last := [], map[], map[], map[];
    }

    function State(): Db
      reads this
    {
      Db(rows, agg, ledger, last)
    }

    /** INSERT OR IGNORE, then the TTFT of a trace span that arrived first, then
        the aggregate upsert. */
    method InsertRequest(q: Request) returns (inserted: bool, ghost span: int)
      modifies this
      ensures inserted == !IdTaken(old(rows), q.requestId)
      ensures Takes(old(rows), q, span)
      ensures State() == InsertWithSpan(day, old(State()), q, span)
    {
      hide Takes, Upsert, LiveKey, Contribution, IdTaken;
      var before := rows;
      var taken := TakenSpan(before, q);
      span := taken;
      if IdTaken(rows, q.requestId) {
        return false, span;
      }
      var id := LastId(last, ApiRequests) + 1;
      rows, last := rows + [Stored(id, Api(q))], last[ApiRequests := id];
      if q.ttft == 0 && taken >= 0 {
        TakenIsPending(before, q, taken);
        if before[taken].row.span.ttft > 0 {
          rows := rows[|rows| - 1 := Stored(id, Api(q.(ttft := before[taken].row.span.ttft)))];
          rows := Process(rows, taken);
          ProcessKeepsIds(before, taken, q.requestId);
          TtftCountsNowhere(day, q, before[taken].row.span.ttft);
        }
      }
      agg := Upsert(agg, LiveKey(day, q), Contribution(q));
      return true, span;
    }

    method InsertCodexRow(q: Request) returns (id: int, stored: bool)
      modifies this
      ensures stored == !IdTaken(old(rows), q.requestId)
      ensures State() == Pool.InsertRequest(day, old(State()), CodexRow(q))
      ensures id == if stored then LastId(last, ApiRequests) else 0
    {
      CodexIsClean();
      if IdTaken(rows, q.requestId) {
        return 0, false;
      }
      id := LastId(last, ApiRequests) + 1;
      rows, last := rows + [Stored(id, Api(CodexRow(q)))], last[ApiRequests := id];
      agg := Upsert(agg, Key(day(q.ts), q.model, CODEX_SERVICE), Contribution(q));
      return id, true;
    }

    /** The completion path; false only when a fallback row was inserted. */
    method UpdateCodexTokens(u: Update) returns (handled: bool)
      modifies this
      ensures State() == Complete(day, old(State()), u)
      ensures handled == !Decide(old(rows), u).Orphan?
    {
      if CarriesNothing(u) {
        return true;
      }
      var row := -1;
      if u.rowId > 0 {
        row := Newest(rows, s => IsExact(s, u.rowId, u.session, u.model));
        if row >= 0 && rows[row].row.req.tok != NO_TOKENS {
          return true;
        }
      }
      if row < 0 {
        row := Newest(rows, s => IsPending(s, u));
      }
      if row < 0 {
        if HasTwin(rows, u) {
          return true;
        }
        if u.tok == NO_TOKENS {
          return true;
        }
        var _, _ := InsertCodexRow(OrphanRow(u));
        return false;
      }
      // The guarded UPDATE: the transaction read this row, so the guard holds
      // and the re-select of a lost race is never needed.
      var q := rows[row].row.req;
      assert q.tok == NO_TOKENS;
      rows := rows[row := rows[row].(row := Api(Finalized(q, u)))];
      agg := Upsert(agg, Key(day(q.ts), u.model, CODEX_SERVICE), Contribution(OrphanRow(u)).(requests := 0));
      return true;
    }

    method UpdateCodexRequestDuration(id: int, session: string, model: string, ts: int, ms: int) returns (handled: bool)
      modifies this`rows
      ensures State() == UpdateDuration(old(State()), id, session, model, ts, ms)
      ensures handled <==> session != "" && model != "" && ms > 0 && DurationRow(old(rows), id, session, model, ts) >= 0
    {
      if session == "" || model == "" || ms <= 0 {
        return false;
      }
      if id > 0 {
        var exact := Newest(rows, s => IsExact(s, id, session, model));
        if exact >= 0 {
          if rows[exact].row.req.duration == 0 {
            rows := rows[exact := rows[exact].(row := Api(rows[exact].row.req.(duration := ms)))];
          }
          return true;
        }
      }
      var row := Newest(rows, s => IsCodex(s, session, model) && s.row.req.duration == 0 && s.row.req.ts >= ts - 600);
      if row < 0 {
        return false;
      }
      rows := rows[row := rows[row].(row := Api(rows[row].row.req.(duration := ms)))];
      return true;
    }

    method UpdateCodexRequestTtft(id: int, session: string, model: string, ts: int, ms: int)
      modifies this`rows
      ensures State() == UpdateTtft(old(State()), id, session, model, ts, ms)
    {
      if session == "" || model == "" || ms <= 0 {
        return;
      }
      if id > 0 {
        var exact := Newest(rows, s => IsExact(s, id, session, model));
        if exact >= 0 {
          if rows[exact].row.req.ttft == 0 {
            rows := rows[exact := rows[exact].(row := Api(rows[exact].row.req.(ttft := ms)))];
          }
          return;
        }
      }
      var row := Newest(rows, s => IsCodex(s, session, model) && s.row.req.ttft == 0 && s.row.req.error == "" && s.row.req.ts >= ts - 600);
      if row >= 0 {
        rows := rows[row := rows[row].(row := Api(rows[row].row.req.(ttft := ms)))];
      }
    }

    method UpdateCodexTurnTtft(conversation: string, model: string, ts: int, ms: int) returns (applied: bool)
      modifies this`rows
      ensures State() == UpdateTurnTtft(old(State()), conversation, model, ts, ms)
      ensures applied <==> conversation != "" && model != "" && ms > 0
                           && exists j :: 0 <= j < |old(rows)| && TurnAnchor(old(rows)[j], conversation, model, ts)
    {
      if conversation == "" || model == "" || ms <= 0 {
        return false;
      }
      var row := TurnRow(rows, conversation, model, ts);
      if row < 0 {
        return false;
      }
      rows := rows[row := rows[row].(row := Api(rows[row].row.req.(ttft := ms)))];
      return true;
    }

    /** DELETE, then the grouped INSERT ... SELECT, row by row. */
    method RebuildDailyAggregates()
      modifies this`agg
      ensures State() == Rebuild(day, old(State()))
    {
      agg := map[];
      for i := 0 to |rows|
        invariant agg == GroupBy(day, rows[..i])
      {
        assert rows[..i + 1] == rows[..i] + [rows[i]];
        if rows[i].row.Api? {
          GroupByOfAppend(day, rows[..i], rows[i]);
          agg := Upsert(agg, GroupKey(day, rows[i].row.req), Contribution(rows[i].row.req));
        } else {
          AppendOtherKeepsAgreement(day, rows[..i], rows[i]);
        }
      }
      assert rows[..|rows|] == rows;
    }
  }
}
