/** The in-memory map from an OTLP span to the row its completion belongs to. */
module SpanTracker {
  import opened Rows

  const NANOS_PER_MS := 1_000_000
  const MINUTE := 60_000_000_000
  const MAX_ENTRIES := 10000

  /** A span id, or the internal key of an entry that came without one. */
  datatype SpanKey = Span(id: string) | Fallback(n: nat)

  datatype SpanInfo = SpanInfo(rowId: int, session: string, model: string, start: int)

  type Spans = map<SpanKey, SpanInfo>

  /** A turn's first-output time that arrived before the turn's request. */
  datatype Observation = Observation(nanos: int, ms: int)

  /** Waiting observations by conversation and model, in order of arrival. */
  type Stash = map<(string, string), seq<Observation>>

  const STASH_TTL := 10 * MINUTE
  const STASH_PER_KEY := 8
  const HOUR := 60 * MINUTE

  /** Request start reconstructed from the observed time and the setup duration. */
  function StartNanos(observed: int, durationMs: int): (start: int)
    ensures observed > 0 ==> 0 <= start <= observed
    ensures observed <= 0 ==> start == 0
    ensures 0 < durationMs && durationMs * NANOS_PER_MS <= observed ==> observed - start == durationMs * NANOS_PER_MS
    ensures 0 < observed && (durationMs <= 0 || durationMs * NANOS_PER_MS > observed) ==> start == observed
  {
    if observed <= 0 then 0
    else if durationMs <= 0 || durationMs > observed / NANOS_PER_MS then observed
    else observed - durationMs * NANOS_PER_MS
  }

  predicate Expired(info: SpanInfo, cutoff: int) {
    cutoff > 0 && 0 < info.start < cutoff
  }

  function Unexpired(spans: Spans, cutoff: int): Spans {
    map k | k in spans && !Expired(spans[k], cutoff) :: spans[k]
  }

  /** The size cap keeps the newest starts; which of several equally old entries
      go is left open, as the sort leaves it. */
  predicate Capped(before: Spans, after: Spans) {
    && (forall k :: k in after ==> k in before && after[k] == before[k])
    && |after| == (if |before| > MAX_ENTRIES then MAX_ENTRIES else |before|)
    && (forall k, m :: k in after && m in before && m !in after ==> before[m].start <= after[k].start)
  }

  /** What a second record under the same key leaves: known fields stay known,
      and the earlier start wins. */
  function MergeInfo(info: SpanInfo, known: SpanInfo): SpanInfo {
    SpanInfo(if info.rowId == 0 then known.rowId else info.rowId,
             if info.session == "" then known.session else info.session,
             if info.model == "" then known.model else info.model,
             if info.start <= 0 || 0 < known.start < info.start then known.start else info.start)
  }

  predicate Eligible(info: SpanInfo, session: string, model: string, observed: int, maxAge: int) {
    0 < info.start <= observed && info.start >= observed - maxAge
    && (session != "" ==> info.session == session) && (model != "" ==> info.model == model)
  }

  /** What a lookup may answer: the exact span if eligible, otherwise one of the
      newest eligible entries, otherwise nothing. */
  predicate Answers(spans: Spans, span: string, session: string, model: string, observed: int, maxAge: int, r: Option<SpanKey>) {
    if observed > 0 && span != "" && Span(span) in spans && Eligible(spans[Span(span)], session, model, observed, maxAge) then
      r == Some(Span(span))
    else if r.None? then
      observed <= 0 || forall k :: k in spans ==> !Eligible(spans[k], session, model, observed, maxAge)
    else
      && observed > 0 && r.value in spans && Eligible(spans[r.value], session, model, observed, maxAge)
      && forall k :: k in spans && Eligible(spans[k], session, model, observed, maxAge) ==> spans[k].start <= spans[r.value].start
  }

  // ---------- The stash of turn observations ----------

  function StashOf(stash: Stash, key: (string, string)): seq<Observation> {
    if key in stash then stash[key] else []
  }

  function SetWaiting(stash: Stash, key: (string, string), list: seq<Observation>): Stash {
    if list == [] then stash - {key} else stash[key := list]
  }

  function Recent(list: seq<Observation>, now: int): (r: seq<Observation>)
    ensures |r| <= |list|
    ensures forall o :: o in r <==> o in list && now - o.nanos < STASH_TTL
  {
    if list == [] then []
    else
      var o := list[|list| - 1];
      Recent(list[..|list| - 1], now) + if now - o.nanos < STASH_TTL then [o] else []
  }

  function Newest8(list: seq<Observation>): (r: seq<Observation>)
    ensures |r| <= STASH_PER_KEY
  {
    if |list| > STASH_PER_KEY then list[|list| - STASH_PER_KEY..] else list
  }

  function Stashed(stash: Stash, key: (string, string), o: Observation, now: int): Stash {
    SetWaiting(stash, key, Newest8(Recent(StashOf(stash, key) + [o], now)))
  }

  /** The observation belongs to an anchor at lo: it is not earlier, and at most an
      hour later. */
  predicate BelongsTo(o: Observation, lo: int) {
    lo <= o.nanos <= lo + HOUR
  }

  function Belonging(list: seq<Observation>, lo: int, wanted: bool): seq<Observation> {
    if list == [] then []
    else
      var o := list[|list| - 1];
      Belonging(list[..|list| - 1], lo, wanted) + if BelongsTo(o, lo) == wanted then [o] else []
  }

  predicate Ascends(list: seq<Observation>) {
    forall i, j :: 0 <= i < j < |list| ==> list[i].nanos <= list[j].nanos
  }

  /** Draining hands out what belongs to the anchor, earliest first, and keeps the rest. */
  predicate Drains(stash: Stash, key: (string, string), lo: int, out: seq<Observation>, next: Stash) {
    && multiset(out) == multiset(Belonging(StashOf(stash, key), lo, true)) && Ascends(out)
    && next == SetWaiting(stash, key, Belonging(StashOf(stash, key), lo, false))
  }

  class Tracker {
    var spans: Spans
    var nextFallback: nat
    var turnTtft: Stash

    constructor ()
      ensures spans == map[] && nextFallback == 0 && turnTtft == map[]
    {
      spans, nextFallback, turnTtft := map[], 0, map[];
    }

    method StashTurn(key: (string, string), o: Observation, now: int)
      modifies this`turnTtft
      ensures turnTtft == Stashed(old(turnTtft), key, o, now)
    {
      var recent := Prune(StashOf(turnTtft, key) + [o], now);
      if |recent| > STASH_PER_KEY {
        recent := recent[|recent| - STASH_PER_KEY..];
      }
      turnTtft := SetWaiting(turnTtft, key, recent);
    }

    method DrainTurn(key: (string, string), lo: int) returns (out: seq<Observation>)
      modifies this`turnTtft
      ensures Drains(old(turnTtft), key, lo, out, turnTtft)
    {
      var list := StashOf(turnTtft, key);
      var found, keep := [], [];
      for n := 0 to |list|
        invariant found == Belonging(list[..n], lo, true) && keep == Belonging(list[..n], lo, false)
      {
        assert list[..n + 1][..n] == list[..n];
        if BelongsTo(list[n], lo) {
          found := found + [list[n]];
        } else {
          keep := keep + [list[n]];
        }
      }
      assert list[..|list|] == list;
      out := Sorted(found);
      turnTtft := SetWaiting(turnTtft, key, keep);
    }

    method EvictExpired(cutoff: int)
      modifies this`spans
      ensures spans == Unexpired(old(spans), cutoff)
    {
      if cutoff > 0 {
        var all := spans;
        var todo := all.Keys;
        while todo != {}
          invariant todo <= all.Keys
          invariant spans == map k | k in all && (k in todo || !Expired(all[k], cutoff)) :: all[k]
          decreases |todo|
        {
          var k :| k in todo;
          if 0 < all[k].start < cutoff {
            spans := spans - {k};
          }
          todo := todo - {k};
        }
      }
    }

    /** Drops the oldest entries beyond the cap. */
    method EnforceCap()
      modifies this`spans
      ensures Capped(old(spans), spans)
    {
      var all := spans;
      while |spans| > MAX_ENTRIES
        invariant forall k :: k in spans ==> k in all && spans[k] == all[k]
        invariant |spans| == |all| || MAX_ENTRIES <= |spans| <= |all|
        invariant forall k, m :: k in spans && m in all && m !in spans ==> all[m].start <= spans[k].start
        decreases |spans|
      {
        var oldest := Oldest(spans);
        RemoveShrinks(spans, oldest);
        spans := spans - {oldest};
      }
      SubmapIsNoLarger(all, spans);
    }

    /** recordRequest. */
    method Record(span: string, info: SpanInfo) returns (key: SpanKey)
      modifies this`spans, this`nextFallback
      ensures key == if span != "" then Span(span) else Fallback(nextFallback)
      ensures nextFallback == old(nextFallback) + if span == "" then 1 else 0
      ensures exists kept :: Capped(Unexpired(old(spans), info.start - 30 * MINUTE), kept)
                             && spans == kept[key := if key in kept then MergeInfo(info, kept[key]) else info]
    {
      hide Capped, Unexpired, MergeInfo;
      EvictExpired(info.start - 30 * MINUTE);
      EnforceCap();
      if span != "" {
        key := Span(span);
      } else {
        nextFallback := nextFallback + 1;
        key := Fallback(nextFallback);
      }
      var merged := info;
      if key in spans {
        merged := Merge(info, spans[key]);
      }
      spans := spans[key := merged];
    }

    /** The part of recordRequest that completes what is known. */
    static method Merge(info: SpanInfo, existing: SpanInfo) returns (merged: SpanInfo)
      ensures merged == MergeInfo(info, existing)
    {
      merged := info;
      if merged.rowId == 0 {
        merged := merged.(rowId := existing.rowId);
      }
      if merged.session == "" {
        merged := merged.(session := existing.session);
      }
      if merged.model == "" {
        merged := merged.(model := existing.model);
      }
      if merged.start <= 0 || (existing.start > 0 && existing.start < merged.start) {
        merged := merged.(start := existing.start);
      }
    }

    /** lookupRequest; never changes the map. */
    method Lookup(span: string, session: string, model: string, observed: int, maxAge: int) returns (r: Option<SpanKey>)
      ensures Answers(spans, span, session, model, observed, maxAge, r)
    {
      if observed <= 0 {
        return None;
      }
      if span != "" && Span(span) in spans && Eligible(spans[Span(span)], session, model, observed, maxAge) {
        return Some(Span(span));
      }
      var todo := spans.Keys;
      r := None;
      while todo != {}
        invariant todo <= spans.Keys
        invariant r.None? ==> forall k :: k in spans && k !in todo ==> !Eligible(spans[k], session, model, observed, maxAge)
        invariant r.Some? ==> r.value in spans && Eligible(spans[r.value], session, model, observed, maxAge)
        invariant r.Some? ==> forall k :: k in spans && k !in todo && Eligible(spans[k], session, model, observed, maxAge) ==>
                    spans[k].start <= spans[r.value].start
        decreases |todo|
      {
        var k :| k in todo;
        if Eligible(spans[k], session, model, observed, maxAge) {
          if r.None? || spans[k].start > spans[r.value].start {
            r := Some(k);
          }
        }
        todo := todo - {k};
      }
    }

    method Remove(key: Option<SpanKey>)
      modifies this`spans
      ensures spans == if key.Some? then old(spans) - {key.value} else old(spans)
    {
      if key.Some? {
        spans := spans - {key.value};
      }
    }
  }

  method Prune(list: seq<Observation>, now: int) returns (recent: seq<Observation>)
    ensures recent == Recent(list, now)
  {
    recent := [];
    for n := 0 to |list|
      invariant recent == Recent(list[..n], now)
    {
      assert list[..n + 1][..n] == list[..n];
      if now - list[n].nanos < STASH_TTL {
        recent := recent + [list[n]];
      }
    }
    assert list[..|list|] == list;
  }

  /** Ascending by time, by insertion. */
  method Sorted(list: seq<Observation>) returns (out: seq<Observation>)
    ensures multiset(out) == multiset(list) && Ascends(out)
  {
    hide Inserted;
    out := [];
    for n := 0 to |list|
      invariant multiset(out) == multiset(list[..n]) && Ascends(out)
    {
      assert list[..n + 1] == list[..n] + [list[n]];
      var k := |out|;
      while k > 0 && out[k - 1].nanos > list[n].nanos
        invariant 0 <= k <= |out|
        invariant k < |out| ==> out[k].nanos > list[n].nanos
      {
        k := k - 1;
      }
      InsertedHolds(out, k, list[n]);
      InsertedAscends(out, k, list[n]);
      out := Inserted(out, k, list[n]);
    }
    assert list[..|list|] == list;
  }

  function Inserted(list: seq<Observation>, k: int, o: Observation): seq<Observation>
    requires 0 <= k <= |list|
  {
    list[..k] + [o] + list[k..]
  }

  lemma InsertedHolds(list: seq<Observation>, k: int, o: Observation)
    requires 0 <= k <= |list|
    ensures multiset(Inserted(list, k, o)) == multiset(list) + multiset{o}
  {
    assert list == list[..k] + list[k..];
  }

  lemma InsertedAscends(list: seq<Observation>, k: int, o: Observation)
    requires 0 <= k <= |list| && Ascends(list)
    requires k > 0 ==> list[k - 1].nanos <= o.nanos
    requires k < |list| ==> o.nanos <= list[k].nanos
    ensures Ascends(Inserted(list, k, o))
  {
    var r := Inserted(list, k, o);
    forall i, j | 0 <= i < j < |r| ensures r[i].nanos <= r[j].nanos {
      assert r[i] == if i < k then list[i] else if i == k then o else list[i - 1];
      assert r[j] == if j < k then list[j] else if j == k then o else list[j - 1];
    }
  }

  method Oldest(spans: Spans) returns (oldest: SpanKey)
    requires |spans| > 0
    ensures oldest in spans && forall k :: k in spans ==> spans[oldest].start <= spans[k].start
  {
    var todo := spans.Keys;
    oldest :| oldest in todo;
    while todo != {}
      invariant todo <= spans.Keys && oldest in spans
      invariant forall k :: k in spans && k !in todo ==> spans[oldest].start <= spans[k].start
      decreases |todo|
    {
      var k :| k in todo;
      if spans[k].start < spans[oldest].start {
        oldest := k;
      }
      todo := todo - {k};
    }
  }

  lemma RemoveShrinks(spans: Spans, k: SpanKey)
    requires k in spans
    ensures |spans - {k}| == |spans| - 1
  {
    assert (spans - {k}).Keys == spans.Keys - {k};
  }

  lemma SubmapIsNoLarger(all: Spans, spans: Spans)
    requires forall k :: k in spans ==> k in all && spans[k] == all[k]
    ensures |spans| <= |all|
    ensures |spans| == |all| ==> spans == all
  {
    assert spans.Keys <= all.Keys;
    SubsetIsNoLarger(spans.Keys, all.Keys);
  }

  lemma SubsetIsNoLarger(a: set<SpanKey>, b: set<SpanKey>)
    requires a <= b
    ensures |a| <= |b| && (|a| == |b| ==> a == b)
  {
    assert b == a + (b - a);
  }

  /** Recording the same span again keeps what was known and the earlier start,
      and recording it a third time changes nothing. */
  lemma MergeKeepsTheEarlierStart(info: SpanInfo, known: SpanInfo)
    requires info.start > 0 && known.start > 0
    ensures var m := MergeInfo(info, known);
      && m.start == (if known.start < info.start then known.start else info.start)
      && (known.rowId != 0 ==> m.rowId != 0) && (known.session != "" ==> m.session != "") && (known.model != "" ==> m.model != "")
      && MergeInfo(info, m) == m && MergeInfo(m, known) == m
  {
  }

  /** While nothing is too old and the map is not over its cap, recording keeps
      every entry. */
  lemma NothingEvicted(spans: Spans, kept: Spans, cutoff: int)
    requires Capped(Unexpired(spans, cutoff), kept)
    requires |spans| <= MAX_ENTRIES && forall k :: k in spans ==> !Expired(spans[k], cutoff)
    ensures kept == spans
  {
    assert Unexpired(spans, cutoff) == spans;
    SubmapIsNoLarger(spans, kept);
  }

  // ---------- In nanoseconds ----------

  /** The entry belongs to the session and model, where they are given, and was
      started at most ten minutes before. */
  predicate Reachable(info: SpanInfo, session: string, model: string, observed: int) {
    && info.start > 0 && info.start <= observed && observed - info.start <= 600_000_000_000
    && (session == "" || info.session == session) && (model == "" || info.model == model)
  }

  predicate AnyReachable(spans: Spans, session: string, model: string, observed: int) {
    exists k :: k in spans && Reachable(spans[k], session, model, observed)
  }

  /** A lookup finds the span's own entry if that is reachable, else one of the newest
      that are, and nothing only if none is. */
  lemma LookupFinds(spans: Spans, span: string, session: string, model: string, observed: int, r: Option<SpanKey>)
    requires Answers(spans, span, session, model, observed, 10 * MINUTE, r)
    ensures r.Some? <==> AnyReachable(spans, session, model, observed)
    ensures r.Some? ==> r.value in spans && Reachable(spans[r.value], session, model, observed)
    ensures span != "" && Span(span) in spans && Reachable(spans[Span(span)], session, model, observed) ==> r == Some(Span(span))
    ensures r.Some? && r != Some(Span(span)) ==>
      forall k :: k in spans && Reachable(spans[k], session, model, observed) ==> spans[k].start <= spans[r.value].start
  {
    forall k | k in spans ensures Eligible(spans[k], session, model, observed, 10 * MINUTE) <==> Reachable(spans[k], session, model, observed) {
    }
  }

  /** Recording forgets the entries that were started half an hour before the new
      one, and below the cap no others. */
  lemma RecordForgets(spans: Spans, kept: Spans, start: int, k: SpanKey)
    requires Capped(Unexpired(spans, start - 30 * MINUTE), kept) && k in spans && |spans| <= 10000
    ensures k in kept <==> !(start > 1_800_000_000_000 && spans[k].start > 0 && start - spans[k].start > 1_800_000_000_000)
    ensures k in kept ==> kept[k] == spans[k]
  {
    hide Capped;
    var young := Unexpired(spans, start - 30 * MINUTE);
    SubmapIsNoLarger(spans, young);
    CappedBelow(young, kept);
  }

  lemma CappedBelow(before: Spans, after: Spans)
    requires Capped(before, after) && |before| <= 10000
    ensures after == before
  {
    SubmapIsNoLarger(before, after);
  }

  /** An observation is recent for ten minutes; the others stay in their order. */
  lemma {:induction false} RecentInOrder(a: seq<Observation>, o: Observation, now: int)
    ensures Recent(a + [o], now) == Recent(a, now) + if now - o.nanos < 600_000_000_000 then [o] else []
  {
    assert (a + [o])[..|a|] == a;
  }

  /** Stashing keeps the last eight of what is recent, the new one last. */
  lemma StashKeepsTheLast(stash: Stash, key: (string, string), o: Observation, now: int)
    ensures var recent := Recent(StashOf(stash, key), now) + if now - o.nanos < 600_000_000_000 then [o] else [];
      StashOf(Stashed(stash, key, o, now), key) == recent[if |recent| > 8 then |recent| - 8 else 0..]
    ensures forall other :: other != key ==> StashOf(Stashed(stash, key, o, now), other) == StashOf(stash, other)
  {
    hide Recent;
    RecentInOrder(StashOf(stash, key), o, now);
  }

  lemma BelongingNext(list: seq<Observation>, lo: int, wanted: bool)
    requires list != []
    ensures var o := list[|list| - 1];
      multiset(Belonging(list, lo, wanted))
      == if BelongsTo(o, lo) == wanted then multiset(Belonging(list[..|list| - 1], lo, wanted)) + multiset{o}
         else multiset(Belonging(list[..|list| - 1], lo, wanted))
  {
    hide BelongsTo;
    var o := list[|list| - 1];
    var init := Belonging(list[..|list| - 1], lo, wanted);
    if BelongsTo(o, lo) == wanted {
      assert Belonging(list, lo, wanted) == init + [o];
    } else {
      assert Belonging(list, lo, wanted) == init;
    }
  }

  /** One more element in either part of a split. */
  lemma SplitNext<T>(part: multiset<T>, other: multiset<T>, whole: multiset<T>, one: multiset<T>)
    requires part + other == whole
    ensures (part + one) + other == whole + one && part + (other + one) == whole + one
  {
  }

  lemma MultisetOfNext<T>(list: seq<T>)
    requires list != []
    ensures multiset(list) == multiset(list[..|list| - 1]) + multiset{list[|list| - 1]}
  {
    assert list == list[..|list| - 1] + [list[|list| - 1]];
  }

  lemma {:induction false} BelongingIsSplit(list: seq<Observation>, lo: int)
    ensures multiset(Belonging(list, lo, true)) + multiset(Belonging(list, lo, false)) == multiset(list)
  {
    if list == [] {
      assert Belonging(list, lo, true) == Belonging(list, lo, false) == [];
    } else {
      hide Belonging, BelongsTo;
      var init, o := list[..|list| - 1], list[|list| - 1];
      BelongingIsSplit(init, lo);
      BelongingNext(list, lo, true);
      BelongingNext(list, lo, false);
      MultisetOfNext(list);
      SplitNext(multiset(Belonging(init, lo, true)), multiset(Belonging(init, lo, false)), multiset(init), multiset{o});
    }
  }

  lemma {:induction false} BelongingAt(list: seq<Observation>, lo: int, wanted: bool, o: Observation)
    ensures o in Belonging(list, lo, wanted) ==> wanted == (lo <= o.nanos && o.nanos - lo <= 3_600_000_000_000)
  {
    if list != [] {
      BelongingAt(list[..|list| - 1], lo, wanted, o);
    }
  }

  /** Draining hands out what was observed in the hour from lo, earliest first, and
      leaves everything else, each observation once. */
  lemma DrainsTheHour(stash: Stash, key: (string, string), lo: int, out: seq<Observation>, next: Stash)
    requires Drains(stash, key, lo, out, next)
    ensures multiset(out) + multiset(StashOf(next, key)) == multiset(StashOf(stash, key))
    ensures forall o :: o in out ==> lo <= o.nanos && o.nanos - lo <= 3_600_000_000_000
    ensures forall o :: o in StashOf(next, key) ==> o.nanos < lo || o.nanos - lo > 3_600_000_000_000
    ensures forall i, j :: 0 <= i < j < |out| ==> out[i].nanos <= out[j].nanos
    ensures forall other :: other != key ==> StashOf(next, other) == StashOf(stash, other)
  {
    hide Belonging;
    BelongingIsSplit(StashOf(stash, key), lo);
    forall o | o in out ensures o in Belonging(StashOf(stash, key), lo, true) {
      assert o in multiset(out);
    }
    forall o ensures o in Belonging(StashOf(stash, key), lo, true) ==> lo <= o.nanos && o.nanos - lo <= 3_600_000_000_000 {
      BelongingAt(StashOf(stash, key), lo, true, o);
    }
    forall o ensures o in Belonging(StashOf(stash, key), lo, false) ==> o.nanos < lo || o.nanos - lo > 3_600_000_000_000 {
      BelongingAt(StashOf(stash, key), lo, false, o);
    }
  }
}
