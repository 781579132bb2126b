/** The rows of the database and the two ways they are named: by identity
    (what the merge engine deduplicates on) and by aggregate key (what the
    dashboards group on). */
module Rows {

  datatype Option<+T> = None | Some(value: T)

  /** The importable tables of the schema registry. */
  datatype Table =
    | ApiRequests
    | UserPromptEvents
    | ToolDecisionEvents
    | ToolResultEvents
    | ApiErrorEvents
    | OtelMetricPoints
    | Events
    | RawOtlpEvents
    | PendingTtftSpans
    | CodexApiRequests
    | CodexUserPromptEvents
    | CodexToolDecisionEvents
    | CodexToolResultEvents
    | CodexRawOtlpEvents

  /** The tables whose rows are not modelled column by column. */
  type OtherTable = t: Table | t != ApiRequests && t != PendingTtftSpans witness UserPromptEvents

  datatype Cell = Null | Number(n: int) | Text(s: string)

  datatype Tokens = Tokens(input: int, output: int, cacheRead: int, cacheCreate: int, reasoning: int, total: int)

  const NO_TOKENS := Tokens(0, 0, 0, 0, 0, 0)

  /** One row of api_requests. `rest` holds the columns no modelled query reads. */
  datatype Request = Request(
    ts: int, session: string, prompt: string, eventSeq: int, model: string,
    tok: Tokens, cost: int, duration: int, ttft: int, requestId: string,
    service: string, eventName: string, conversation: string, error: string,
    rest: seq<Cell>)

  /** What a pending trace span reports, and the request row it waits for. */
  datatype TraceSpan = TraceSpan(session: string, model: string, end: int, ttft: int)

  /** Rows of api_requests, of pending_ttft_spans, and of every other table.
      `tuple` is the fallback identity tuple of the table, `rest` the other columns. */
  datatype Row =
    | Api(req: Request)
    | Pending(requestId: string, span: TraceSpan, processed: bool, rest: seq<Cell>)
    | Plain(table: OtherTable, tuple: seq<Cell>, rest: seq<Cell>)

  /** A row with its AUTOINCREMENT id. */
  datatype Stored = Stored(id: int, row: Row)

  function TableOf(r: Row): Table {
    match r
    case Api(_) => ApiRequests
    case Pending(_, _, _, _) => PendingTtftSpans
    case Plain(t, _, _) => t
  }

  // ---------- Identities ----------

  datatype Identity = ById(table: Table, id: string) | ByTuple(table: Table, tuple: seq<Cell>)

  /** '' for the tables whose identity never is a request id. */
  function RequestIdOf(r: Row): string {
    match r
    case Api(q) => q.requestId
    case Pending(id, _, _, _) => id
    case Plain(_, _, _) => ""
  }

  function TupleOf(r: Row): seq<Cell> {
    match r
    case Api(q) => [Number(q.ts), Text(q.session), Text(q.prompt), Number(q.eventSeq), Text(q.model),
                    Number(q.tok.input), Number(q.tok.output), Number(q.duration)]
    case Pending(_, s, _, _) => [Text(s.session), Text(s.model), Number(s.end), Number(s.ttft)]
    case Plain(_, t, _) => t
  }

  function IdentityOf(r: Row): Identity {
    if RequestIdOf(r) != "" then ById(TableOf(r), RequestIdOf(r)) else ByTuple(TableOf(r), TupleOf(r))
  }

  /** The predicate the staged SQL joins on: a tuple identity matches every
      target row with that tuple, including rows that carry a request id. */
  predicate Matches(r: Row, i: Identity) {
    TableOf(r) == i.table && (if i.ById? then RequestIdOf(r) == i.id else TupleOf(r) == i.tuple)
  }

  // ---------- Service names and aggregate keys ----------

  const DEFAULT_SERVICE := "claude-code"
  const CODEX_SERVICE := "codex"

  /** Unicode White_Space, the characters strings.TrimSpace removes. */
  predicate IsSpace(c: char) {
    '\t' <= c <= '\r' || c == ' ' || c == '\U{85}' || c == '\U{A0}' || c == '\U{1680}'
    || '\U{2000}' <= c <= '\U{200A}' || c == '\U{2028}' || c == '\U{2029}' || c == '\U{202F}'
    || c == '\U{205F}' || c == '\U{3000}'
  }

  predicate Blank(s: string) {
    forall i :: 0 <= i < |s| ==> IsSpace(s[i])
  }

  /** What the incremental writers fold a service name to. */
  function Normalize(s: string): string {
    if Blank(s) then DEFAULT_SERVICE else s
  }

  /** What the rebuild SQL folds a service name to. */
  function SqlFold(s: string): string {
    if s == "" then DEFAULT_SERVICE else s
  }

  /** The rows on which the two foldings agree. */
  predicate CleanService(s: string) {
    s == "" || !Blank(s)
  }

  datatype Key = Key(day: int, model: string, service: string)

  datatype Sums = Sums(input: int, output: int, cacheRead: int, cacheCreate: int, cost: int, requests: int)

  const ZERO_SUMS := Sums(0, 0, 0, 0, 0, 0)

  function Plus(a: Sums, b: Sums): Sums {
    Sums(a.input + b.input, a.output + b.output, a.cacheRead + b.cacheRead, a.cacheCreate + b.cacheCreate,
         a.cost + b.cost, a.requests + b.requests)
  }

  /** What one request adds to its aggregate row. */
  function Contribution(q: Request): Sums {
    Sums(q.tok.input, q.tok.output, q.tok.cacheRead, q.tok.cacheCreate, q.cost, 1)
  }

  /** The group a row belongs to under the rebuild SQL. */
  function GroupKey(day: int -> int, q: Request): Key {
    Key(day(q.ts), q.model, SqlFold(q.service))
  }

  /** The aggregate row an incremental writer adds a request to. */
  function LiveKey(day: int -> int, q: Request): Key {
    Key(day(q.ts), q.model, Normalize(q.service))
  }

  lemma FoldingsAgree(s: string)
    ensures Normalize(s) == SqlFold(s) <==> CleanService(s)
  {
    if s != "" && Blank(s) {
      assert IsSpace(s[0]);
      assert !IsSpace(DEFAULT_SERVICE[0]);
    }
  }
}
