/** Saturating 64-bit token arithmetic, and the Codex archive rows it normalises
    into the unified pool. */
module Tokens64 {
  import opened Rows
  import opened AutoImport

  const MAX_INT64 := 0x7fff_ffff_ffff_ffff
  const MIN_INT64 := -0x8000_0000_0000_0000

  type int64 = n: int | MIN_INT64 <= n <= MAX_INT64

  function SatAdd(a: int64, b: int64): int64 {
    if a > 0 && b > MAX_INT64 - a then MAX_INT64
    else if a < 0 && b < MIN_INT64 - a then MIN_INT64
    else a + b
  }

  function SatSub(a: int64, b: int64): int64 {
    if b == MIN_INT64 then MAX_INT64 else SatAdd(a, -b)
  }

  function UncachedInput(input: int64, cacheRead: int64, cacheCreate: int64): int64 {
    var v := SatSub(SatSub(input, cacheRead), cacheCreate);
    if v < 0 then 0 else v
  }

  /** Neither difference runs over the top of int64, and a counter that has no
      negation there meets one of the few inputs for which that does no harm. */
  predicate StaysInRange(input: int64, cacheRead: int64, cacheCreate: int64) {
    && input - cacheRead <= MAX_INT64 && input - cacheRead - cacheCreate <= MAX_INT64
    && (cacheRead == MIN_INT64 ==> input == -1 || cacheCreate == MAX_INT64 || input - cacheRead - cacheCreate == MAX_INT64)
    && (cacheCreate == MIN_INT64 ==> input - cacheRead == -1)
  }

  /** The result is the true difference floored at zero exactly when nothing runs
      over the top: only negative cache counters can make it, and then it is too
      small or at the limit, never wrapped. */
  lemma UncachedInputIsExact(input: int64, cacheRead: int64, cacheCreate: int64)
    ensures UncachedInput(input, cacheRead, cacheCreate) == Floored(input - cacheRead - cacheCreate)
       <==> StaysInRange(input, cacheRead, cacheCreate)
    ensures cacheRead >= 0 && cacheCreate >= 0 ==> StaysInRange(input, cacheRead, cacheCreate)
  {
    SatSubClamps(input, cacheRead);
    SatSubClamps(SatSub(input, cacheRead), cacheCreate);
  }

  function Clamped(n: int): int64 {
    if n > MAX_INT64 then MAX_INT64 else if n < MIN_INT64 then MIN_INT64 else n
  }

  lemma SatSubClamps(a: int64, b: int64)
    ensures SatSub(a, b) == if b == MIN_INT64 then MAX_INT64 else Clamped(a - b)
  {
  }

  function Floored(n: int): nat {
    if n < 0 then 0 else n
  }

  /** The raw input stays recoverable from a normalised row exactly when nothing
      ran over the top and the input includes what was cached. */
  lemma RawInputIsRecoverable(input: int64, cacheRead: int64, cacheCreate: int64)
    ensures UncachedInput(input, cacheRead, cacheCreate) + cacheRead + cacheCreate == input
       <==> StaysInRange(input, cacheRead, cacheCreate) && cacheRead + cacheCreate <= input
  {
    UncachedInputIsExact(input, cacheRead, cacheCreate);
  }

  /** The usage a completion reports: its input includes what was cached. */
  datatype Usage = Usage(input: int64, output: int64, cacheRead: int64, cacheCreate: int64, reasoning: int64, total: int64)

  const NO_USAGE := Usage(0, 0, 0, 0, 0, 0)

  /** The four categories apart, and the total the client reported or, where it
      reported none, input and output. */
  function Normalized(r: Usage): Tokens {
    Tokens(if r.input > 0 then UncachedInput(r.input, r.cacheRead, r.cacheCreate) else r.input,
           r.output, r.cacheRead, r.cacheCreate, r.reasoning,
           if r.total == 0 then SatAdd(r.input, r.output) else r.total)
  }

  /** Normalization neither loses all usage nor invents some: the record that is
      recognised as carrying none is the one stored as none. */
  lemma NoUsageStaysNone(r: Usage)
    ensures Normalized(r) == NO_TOKENS <==> r == NO_USAGE
  {
    if r.cacheRead == 0 && r.cacheCreate == 0 && r.input > 0 {
      UncachedInputIsExact(r.input, 0, 0);
    }
  }

  /** Every reported category is stored under its own name; the total is the client's
      own or, where it reports none, input and output. */
  lemma UsageKeepsItsCategories(r: Usage)
    ensures var t := Normalized(r);
      && t.output == r.output && t.cacheRead == r.cacheRead && t.cacheCreate == r.cacheCreate && t.reasoning == r.reasoning
      && (r.total != 0 ==> t.total == r.total)
      && (r.total == 0 ==> t.total == Clamped(r.input + r.output))
      && (r.input <= 0 ==> t.input == r.input)
      && (r.input > 0 && StaysInRange(r.input, r.cacheRead, r.cacheCreate) ==>
            t.input == if r.input > r.cacheRead + r.cacheCreate then r.input - r.cacheRead - r.cacheCreate else 0)
  {
    UncachedInputIsExact(r.input, r.cacheRead, r.cacheCreate);
  }

  /** A row of the read-only archive; `raw` counts cached input inside input. */
  datatype ArchiveRow =
    | ArchivedRequest(ts: int, session: string, model: string, input: int64, cacheRead: int64, cacheCreate: int64,
                      output: int64, reasoning: int64, total: int64, cost: int, duration: int, ttft: int,
                      eventName: string, eventSeq: int, conversation: string, error: string, rest: seq<Cell>)
    | ArchivedPrompt(tuple: seq<Cell>, rest: seq<Cell>)
    | ArchivedDecision(tuple: seq<Cell>, rest: seq<Cell>)
    | ArchivedResult(tuple: seq<Cell>, rest: seq<Cell>)
    | ArchivedRaw(tuple: seq<Cell>, rest: seq<Cell>)

  /** The shape an archive row takes in its unified table. */
  function Unify(a: ArchiveRow): Row {
    match a
    case ArchivedRequest(ts, session, model, input, cacheRead, cacheCreate, output, reasoning, total, cost, duration, ttft,
                         eventName, eventSeq, conversation, error, rest) =>
      Api(Request(ts, session, "", eventSeq, model,
                  Tokens(UncachedInput(input, cacheRead, cacheCreate), output, cacheRead, cacheCreate, reasoning, total),
                  cost, duration, ttft, "", CODEX_SERVICE, eventName, conversation, error, rest))
    case ArchivedPrompt(tuple, rest) => Plain(UserPromptEvents, tuple, rest)
    case ArchivedDecision(tuple, rest) => Plain(ToolDecisionEvents, tuple, rest)
    case ArchivedResult(tuple, rest) => Plain(ToolResultEvents, tuple, rest)
    case ArchivedRaw(tuple, rest) => Plain(RawOtlpEvents, tuple, rest)
  }

  function UnifyAll(archive: seq<ArchiveRow>): seq<Row> {
    seq(|archive|, i requires 0 <= i < |archive| => Unify(archive[i]))
  }

  /** Every unified archive row goes to a target table, tagged codex, and is
      identified by its fallback tuple. */
  lemma UnifiedArchiveIsShaped(archive: seq<ArchiveRow>)
    ensures ArchiveShaped(UnifyAll(archive))
    ensures forall i :: 0 <= i < |archive| ==> RequestIdOf(UnifyAll(archive)[i]) == ""
  {
    assert TARGETS[0] == ApiRequests && TARGETS[1] == UserPromptEvents && TARGETS[2] == ToolDecisionEvents
        && TARGETS[3] == ToolResultEvents && TARGETS[4] == RawOtlpEvents;
  }

  /** Every archived column is found under its own name; only what was cached is
      taken out of the input. */
  lemma UnifiedKeepsColumns(a: ArchiveRow)
    requires a.ArchivedRequest?
    ensures Unify(a).Api?
    ensures var q := Unify(a).req;
      && q.ts == a.ts && q.session == a.session && q.model == a.model && q.prompt == "" && q.eventSeq == a.eventSeq
      && q.tok.output == a.output && q.tok.cacheRead == a.cacheRead && q.tok.cacheCreate == a.cacheCreate
      && q.tok.reasoning == a.reasoning && q.tok.total == a.total
      && (StaysInRange(a.input, a.cacheRead, a.cacheCreate) ==>
            q.tok.input == if a.input > a.cacheRead + a.cacheCreate then a.input - a.cacheRead - a.cacheCreate else 0)
      && q.cost == a.cost && q.duration == a.duration && q.ttft == a.ttft
      && q.eventName == a.eventName && q.conversation == a.conversation && q.error == a.error && q.rest == a.rest
  {
    UncachedInputIsExact(a.input, a.cacheRead, a.cacheCreate);
  }

  /** A request that was archived with its usage is stored with the usage the live
      path would have stored. */
  lemma ArchiveAgreesWithLive(a: ArchiveRow)
    requires a.ArchivedRequest? && a.input > 0 && a.total != 0
    ensures Unify(a).Api? && Unify(a).req.tok == Normalized(Usage(a.input, a.output, a.cacheRead, a.cacheCreate, a.reasoning, a.total))
  {
  }

  /** Archived events keep their cells, each in the table of its kind. */
  lemma UnifiedKeepsEvents(a: ArchiveRow)
    requires !a.ArchivedRequest?
    ensures Unify(a).Plain? && Unify(a).tuple == a.tuple && Unify(a).rest == a.rest
    ensures Unify(a).table == match a
      case ArchivedPrompt(_, _) => UserPromptEvents
      case ArchivedDecision(_, _) => ToolDecisionEvents
      case ArchivedResult(_, _) => ToolResultEvents
      case _ => RawOtlpEvents
  {
  }
}
