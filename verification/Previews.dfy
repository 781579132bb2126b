/** Previews and verification: what the two inspections promise about an import
    before it runs, and what a verification finds after it. */
module Previews {
  import opened Rows
  import opened Pool
  import opened Batches
  import opened Merge
  import opened MergeSoundness

  function Digests(cands: seq<Candidate>): set<Identity> {
    set j | 0 <= j < |cands| :: IdentityOf(cands[j].row)
  }

  /** The seen store after these batches. */
  function SeenIn(bs: seq<Batch>): set<Identity> {
    if bs == [] then {} else SeenIn(bs[..|bs| - 1]) + Digests(bs[|bs| - 1].cands)
  }

  /** firstCandidates: those whose digest the seen store did not hold yet. */
  function Firsts(cands: seq<Candidate>, seen: set<Identity>): seq<Candidate> {
    if cands == [] then []
    else
      var c := cands[|cands| - 1];
      Firsts(cands[..|cands| - 1], seen) + if IdentityOf(c.row) in seen then [] else [c]
  }

  /** countNew over a staged batch. */
  function StagedTotal(rows: seq<Stored>, cands: seq<Candidate>): nat {
    if cands == [] then 0
    else StagedTotal(rows, cands[..|cands| - 1]) + ToInsert(rows, cands[|cands| - 1])
  }

  /** The upload preview: only the first batch of an identity counts. */
  function UploadPreview(rows: seq<Stored>, bs: seq<Batch>): nat {
    if bs == [] then 0
    else UploadPreview(rows, bs[..|bs| - 1]) + StagedTotal(rows, Firsts(bs[|bs| - 1].cands, SeenIn(bs[..|bs| - 1])))
  }

  /** The migration preview: every batch counts against the untouched target. */
  function MigrationPreview(rows: seq<Stored>, bs: seq<Batch>): nat {
    if bs == [] then 0
    else MigrationPreview(rows, bs[..|bs| - 1]) + StagedTotal(rows, bs[|bs| - 1].cands)
  }

  /** Its share of one target table. */
  function MigrationPreviewOf(rows: seq<Stored>, bs: seq<Batch>, t: Table): nat {
    if bs == [] then 0
    else
      var b := bs[|bs| - 1];
      MigrationPreviewOf(rows, bs[..|bs| - 1], t) + if b.table == t then StagedTotal(rows, b.cands) else 0
  }

  function Inserted(day: int -> int, db: Db, bs: seq<Batch>, source: string, clock: nat -> int): int {
    |Import(day, db, bs, source, clock).rows| - |db.rows|
  }

  // ---------- The previews bracket the import ----------

  lemma {:induction false} FanOutSize(rows: seq<Stored>, cands: seq<Candidate>)
    ensures |FanOut(rows, cands)| == StagedTotal(rows, cands)
  {
    hide ToInsert;
    if cands != [] {
      FanOutSize(rows, cands[..|cands| - 1]);
    }
  }

  lemma InsertedByBatch(day: int -> int, db: Db, bs: seq<Batch>, source: string, clock: nat -> int)
    requires bs != []
    ensures var n := |bs| - 1;
      Inserted(day, db, bs, source, clock)
        == Inserted(day, db, bs[..n], source, clock) + StagedTotal(Import(day, db, bs[..n], source, clock).rows, bs[n].cands)
  {
    hide FanOut, Note;
    var n := |bs| - 1;
    var before := Import(day, db, bs[..n], source, clock);
    FanOutSize(before.rows, bs[n].cands);
    LandAppends(day, before, FanOut(before.rows, bs[n].cands));
  }

  lemma {:induction false} StagedShrinks(rows: seq<Stored>, more: seq<Stored>, cands: seq<Candidate>)
    requires rows <= more
    ensures StagedTotal(more, cands) <= StagedTotal(rows, cands)
  {
    hide Need, IdentityOf, Count;
    if cands != [] {
      StagedShrinks(rows, more, cands[..|cands| - 1]);
      CountGrows(rows, more, IdentityOf(cands[|cands| - 1].row));
    }
  }

  /** The migration preview never promises too little. */
  lemma {:induction false} MigrationPreviewIsUpperBound(day: int -> int, db: Db, bs: seq<Batch>, source: string, clock: nat -> int)
    ensures Inserted(day, db, bs, source, clock) <= MigrationPreview(db.rows, bs)
    decreases |bs|
  {
    hide Import, StagedTotal;
    if bs == [] {
      NothingImported(day, db, source, clock);
    } else {
      var n := |bs| - 1;
      MigrationPreviewIsUpperBound(day, db, bs[..n], source, clock);
      InsertedByBatch(day, db, bs, source, clock);
      ImportAppends(day, db, bs[..n], source, clock, 0);
      NothingImported(day, db, source, clock);
      StagedShrinks(db.rows, Import(day, db, bs[..n], source, clock).rows, bs[n].cands);
    }
  }

  lemma NothingImported(day: int -> int, db: Db, source: string, clock: nat -> int)
    ensures Import(day, db, [], source, clock) == db
  {
  }

  /** No candidate of the source crosses another's identity: in particular every
      source whose rows carry no request id. */
  predicate CrossFree(bs: seq<Batch>) {
    forall k, j :: 0 <= k < |bs| && 0 <= j < |bs[k].cands| ==> NothingCrosses(bs, IdentityOf(bs[k].cands[j].row))
  }

  lemma PlainSourcesAreCrossFree(bs: seq<Batch>)
    requires forall k, j :: 0 <= k < |bs| && 0 <= j < |bs[k].cands| ==> RequestIdOf(bs[k].cands[j].row) == ""
    ensures CrossFree(bs)
  {
    hide Uncrossed;
    forall k, j | 0 <= k < |bs| && 0 <= j < |bs[k].cands| ensures NothingCrosses(bs, IdentityOf(bs[k].cands[j].row)) {
      NothingCrossesPlainSources(bs, IdentityOf(bs[k].cands[j].row));
    }
  }

  lemma {:induction false} UnseenNeedsNothing(bs: seq<Batch>, i: Identity)
    requires i !in SeenIn(bs)
    ensures LargestNeed(bs, i) == 0
  {
    hide Need, IdentityOf;
    if bs != [] {
      UnseenNeedsNothing(bs[..|bs| - 1], i);
      FoundIsStaged(bs[|bs| - 1].cands, i);
    }
  }

  lemma FoundIsStaged(cands: seq<Candidate>, i: Identity)
    ensures Find(cands, i) >= 0 ==> i in Digests(cands)
  {
    hide IdentityOf;
    if Find(cands, i) >= 0 {
      assert IdentityOf(cands[Find(cands, i)].row) in Digests(cands);
    }
  }

  /** An identity the import has not reached yet still has its old count. */
  lemma UnseenIsUntouched(day: int -> int, db: Db, bs: seq<Batch>, source: string, clock: nat -> int, c: Candidate)
    requires GoodBatches(bs) && NothingCrosses(bs, IdentityOf(c.row)) && IdentityOf(c.row) !in SeenIn(bs)
    ensures ToInsert(Import(day, db, bs, source, clock).rows, c) == ToInsert(db.rows, c)
  {
    hide Need, IdentityOf, GoodBatches, NothingCrosses, SeenIn, Import;
    UnseenNeedsNothing(bs, IdentityOf(c.row));
    ProperIdentity(c.row);
    ImportJoins(day, db, bs, source, clock, IdentityOf(c.row));
  }

  lemma {:induction false} FirstsAreCounted(rows: seq<Stored>, more: seq<Stored>, cands: seq<Candidate>, seen: set<Identity>)
    requires forall j :: 0 <= j < |cands| && IdentityOf(cands[j].row) !in seen ==> ToInsert(more, cands[j]) == ToInsert(rows, cands[j])
    ensures StagedTotal(rows, Firsts(cands, seen)) <= StagedTotal(more, cands)
    ensures (forall j :: 0 <= j < |cands| ==> IdentityOf(cands[j].row) !in seen) ==>
              StagedTotal(rows, Firsts(cands, seen)) == StagedTotal(more, cands) == StagedTotal(rows, cands)
  {
    hide IdentityOf, ToInsert;
    if cands != [] {
      var n := |cands| - 1;
      FirstsAreCounted(rows, more, cands[..n], seen);
      FirstsStep(rows, cands, seen);
    }
  }

  lemma FirstsStep(rows: seq<Stored>, cands: seq<Candidate>, seen: set<Identity>)
    requires cands != []
    ensures var n := |cands| - 1;
      StagedTotal(rows, Firsts(cands, seen)) == StagedTotal(rows, Firsts(cands[..n], seen))
        + if IdentityOf(cands[n].row) in seen then 0 else ToInsert(rows, cands[n])
  {
    hide IdentityOf, ToInsert;
    var n := |cands| - 1;
    var init, c := Firsts(cands[..n], seen), cands[n];
    if IdentityOf(c.row) in seen {
      assert Firsts(cands, seen) == init;
    } else {
      assert Firsts(cands, seen) == init + [c] && (init + [c])[..|init|] == init;
    }
  }

  /** No identity appears in two batches. */
  predicate NoneSpans(bs: seq<Batch>) {
    forall k, j :: 0 <= k < |bs| && 0 <= j < |bs[k].cands| ==> IdentityOf(bs[k].cands[j].row) !in SeenIn(bs[..k])
  }

  /** The import inserts at least what the upload preview promised and at most
      what the migration preview promised; the three agree when no identity
      spans two batches. */
  lemma {:induction false} PreviewsBracketImport(day: int -> int, db: Db, bs: seq<Batch>, source: string, clock: nat -> int)
    requires GoodBatches(bs) && CrossFree(bs)
    ensures UploadPreview(db.rows, bs) <= Inserted(day, db, bs, source, clock) <= MigrationPreview(db.rows, bs)
    ensures NoneSpans(bs) ==> UploadPreview(db.rows, bs) == Inserted(day, db, bs, source, clock) == MigrationPreview(db.rows, bs)
    decreases |bs|
  {
    hide Import, StagedTotal, SeenIn, GoodBatch, Uncrossed, IdentityOf, ToInsert;
    if bs == [] {
      NothingImported(day, db, source, clock);
    } else {
      var n := |bs| - 1;
      var init, cands := bs[..n], bs[n].cands;
      assert CrossFree(init);
      assert NoneSpans(bs) ==> NoneSpans(init) by {
        assert forall k :: 0 <= k < n ==> init[..k] == bs[..k];
      }
      PreviewsBracketImport(day, db, init, source, clock);
      InsertedByBatch(day, db, bs, source, clock);
      MigrationPreviewIsUpperBound(day, db, bs, source, clock);
      var more := Import(day, db, init, source, clock).rows;
      forall j | 0 <= j < |cands| && IdentityOf(cands[j].row) !in SeenIn(init)
        ensures ToInsert(more, cands[j]) == ToInsert(db.rows, cands[j])
      {
        UnseenIsUntouched(day, db, init, source, clock, cands[j]);
      }
      FirstsAreCounted(db.rows, more, cands, SeenIn(init));
    }
  }

  /** A source whose rows carry no request id, cut by any limits. */
  lemma PlainSourcePreviews(day: int -> int, db: Db, l: Limits, stream: seq<Row>, source: string, clock: nat -> int)
    requires forall p :: 0 <= p < |stream| ==> RequestIdOf(stream[p]) == ""
    ensures var bs := Scan(l, stream);
      && UploadPreview(db.rows, bs) <= Inserted(day, db, bs, source, clock) <= MigrationPreview(db.rows, bs)
      && (NoneSpans(bs) ==> UploadPreview(db.rows, bs) == Inserted(day, db, bs, source, clock) == MigrationPreview(db.rows, bs))
  {
    hide Scan, CrossFree, UploadPreview, Inserted, MigrationPreview, NoneSpans, RequestIdOf;
    var bs := Scan(l, stream);
    ScanBatchesAreGood(l, stream);
    forall k, j | 0 <= k < |bs| && 0 <= j < |bs[k].cands| ensures RequestIdOf(bs[k].cands[j].row) == "" {
      var p := CandidateComesFrom(l, stream, k, j);
    }
    PlainSourcesAreCrossFree(bs);
    PreviewsBracketImport(day, db, bs, source, clock);
  }

  // ---------- When the upload preview promises too much ----------

  /** Landing d makes rows of i appear: d has a request id, is not stored yet, and
      carries the tuple of i. */
  predicate TakesOver(rows: seq<Stored>, d: Candidate, i: Identity) {
    Crosses(d.row, i) && Count(rows, IdentityOf(d.row)) == 0
  }

  predicate TakenOver(rows: seq<Stored>, bs: seq<Batch>, i: Identity) {
    exists m, j :: 0 <= m < |bs| && 0 <= j < |bs[m].cands| && TakesOver(rows, bs[m].cands[j], i)
  }

  /** The preview counts the j-th candidate of the k-th batch as new, and an
      earlier batch makes it present. */
  predicate Overcounted(rows: seq<Stored>, bs: seq<Batch>, k: int, j: int)
    requires 0 <= k < |bs| && 0 <= j < |bs[k].cands|
  {
    !Contained(rows, bs[k].cands[j]) && TakenOver(rows, bs[..k], IdentityOf(bs[k].cands[j].row))
  }

  predicate SomeOvercounted(rows: seq<Stored>, bs: seq<Batch>) {
    exists k, j :: 0 <= k < |bs| && 0 <= j < |bs[k].cands| && Overcounted(rows, bs, k, j)
  }

  predicate SomeSupplied(rows: seq<Stored>, cands: seq<Candidate>, i: Identity) {
    exists j :: 0 <= j < |cands| && Matches(cands[j].row, i) && ToInsert(rows, cands[j]) > 0
  }

  lemma {:induction false} FanOutSuppliesExactly(rows: seq<Stored>, cands: seq<Candidate>, i: Identity)
    ensures CountRows(FanOut(rows, cands), i) > 0 <==> SomeSupplied(rows, cands, i)
  {
    hide Matches, ToInsert, FanOut;
    if cands == [] {
      NothingFansOut(rows);
    } else {
      var n := |cands| - 1;
      FanOutSuppliesExactly(rows, cands[..n], i);
      FanOutStep(rows, cands, i);
      if SomeSupplied(rows, cands[..n], i) {
        var j :| 0 <= j < n && Matches(cands[..n][j].row, i) && ToInsert(rows, cands[..n][j]) > 0;
        assert Matches(cands[j].row, i);
      }
      if SomeSupplied(rows, cands, i) && !Matches(cands[n].row, i) {
        var j :| 0 <= j < |cands| && Matches(cands[j].row, i) && ToInsert(rows, cands[j]) > 0;
        assert Matches(cands[..n][j].row, i);
      }
    }
  }

  lemma NothingFansOut(rows: seq<Stored>)
    ensures FanOut(rows, []) == []
  {
  }

  predicate NewTo(cands: seq<Candidate>, seen: set<Identity>) {
    forall j :: 0 <= j < |cands| ==> IdentityOf(cands[j].row) !in seen
  }

  lemma NoneSpansPrefix(bs: seq<Batch>)
    requires bs != [] && NoneSpans(bs)
    ensures NoneSpans(bs[..|bs| - 1])
    ensures NewTo(bs[|bs| - 1].cands, SeenIn(bs[..|bs| - 1]))
  {
    hide SeenIn, IdentityOf;
    var init := bs[..|bs| - 1];
    assert forall k :: 0 <= k < |init| ==> init[..k] == bs[..k];
  }

  /** A request id the import has not reached yet still has its old count. */
  lemma UnseenIdIsUntouched(day: int -> int, db: Db, bs: seq<Batch>, source: string, clock: nat -> int, i: Identity)
    requires GoodBatches(bs) && i.ById? && i.id != "" && i !in SeenIn(bs)
    ensures Count(Import(day, db, bs, source, clock).rows, i) == Count(db.rows, i)
  {
    hide Import, SeenIn, Uncrossed;
    UnseenNeedsNothing(bs, i);
    NothingCrossesPlainSources(bs, i);
    ImportJoins(day, db, bs, source, clock, i);
  }

  /** One more batch raises an identity it does not hold exactly when it holds a
      row that crosses it and was not stored before the import. */
  lemma BatchTakesOver(day: int -> int, db: Db, bs: seq<Batch>, source: string, clock: nat -> int, i: Identity)
    requires bs != [] && GoodBatches(bs) && NoneSpans(bs) && Proper(i) && i !in SeenIn(bs)
    ensures var n := |bs| - 1; var before := Import(day, db, bs[..n], source, clock).rows;
      SomeSupplied(before, bs[n].cands, i) <==> exists j :: 0 <= j < |bs[n].cands| && TakesOver(db.rows, bs[n].cands[j], i)
  {
    hide Import, SeenIn, NoneSpans, Matches, Crosses, IdentityOf, ToInsert;
    var n := |bs| - 1;
    var before, cands := Import(day, db, bs[..n], source, clock).rows, bs[n].cands;
    NoneSpansPrefix(bs);
    forall j | 0 <= j < |cands| ensures Matches(cands[j].row, i) && ToInsert(before, cands[j]) > 0 <==> TakesOver(db.rows, cands[j], i) {
      var r := cands[j].row;
      MatchesOwn(r, i);
      assert IdentityOf(r) != i by { LastIsSeen(bs, j); }
      if Crosses(r, i) {
        CrossingIsById(cands[j], i);
        UnseenIdIsUntouched(day, db, bs[..n], source, clock, IdentityOf(r));
        IdAsksForOne(before, cands[j]);
      }
    }
  }

  lemma LastIsSeen(bs: seq<Batch>, j: int)
    requires bs != [] && 0 <= j < |bs[|bs| - 1].cands|
    ensures IdentityOf(bs[|bs| - 1].cands[j].row) in SeenIn(bs)
  {
    hide IdentityOf;
  }

  lemma CrossingIsById(c: Candidate, i: Identity)
    requires Crosses(c.row, i)
    ensures IdentityOf(c.row).ById? && IdentityOf(c.row).id != ""
  {
  }

  lemma IdAsksForOne(rows: seq<Stored>, c: Candidate)
    requires IdentityOf(c.row).ById?
    ensures ToInsert(rows, c) > 0 <==> Count(rows, IdentityOf(c.row)) == 0
  {
    hide IdentityOf, Count;
  }

  /** Before its own batch an identity grows exactly by crossings. */
  lemma {:induction false} GrowsByCrossing(day: int -> int, db: Db, bs: seq<Batch>, source: string, clock: nat -> int, i: Identity)
    requires GoodBatches(bs) && NoneSpans(bs) && Proper(i) && i !in SeenIn(bs)
    ensures Count(Import(day, db, bs, source, clock).rows, i) >= Count(db.rows, i)
    ensures Count(Import(day, db, bs, source, clock).rows, i) > Count(db.rows, i) <==> TakenOver(db.rows, bs, i)
    decreases |bs|
  {
    hide NoneSpans, TakesOver, SomeSupplied, Note, FanOut;
    if bs == [] {
      NothingImported(day, db, source, clock);
    } else {
      var n := |bs| - 1;
      NoneSpansPrefix(bs);
      GrowsByCrossing(day, db, bs[..n], source, clock, i);
      var before := Import(day, db, bs[..n], source, clock);
      CountOfLand(day, before, FanOut(before.rows, bs[n].cands), i);
      FanOutSuppliesExactly(before.rows, bs[n].cands, i);
      BatchTakesOver(day, db, bs, source, clock, i);
      TakenOverByLast(db.rows, bs, i);
    }
  }

  lemma TakenOverByLast(rows: seq<Stored>, bs: seq<Batch>, i: Identity)
    requires bs != []
    ensures var n := |bs| - 1;
      TakenOver(rows, bs, i) <==> TakenOver(rows, bs[..n], i) || exists j :: 0 <= j < |bs[n].cands| && TakesOver(rows, bs[n].cands[j], i)
  {
    hide TakesOver;
    var n := |bs| - 1;
    if TakenOver(rows, bs[..n], i) {
      var m, j :| 0 <= m < n && 0 <= j < |bs[..n][m].cands| && TakesOver(rows, bs[..n][m].cands[j], i);
      assert TakesOver(rows, bs[m].cands[j], i);
    }
    if TakenOver(rows, bs, i) {
      var m, j :| 0 <= m < |bs| && 0 <= j < |bs[m].cands| && TakesOver(rows, bs[m].cands[j], i);
      if m < n {
        assert TakesOver(rows, bs[..n][m].cands[j], i);
      }
    }
  }

  /** A staged total falls exactly when one of its parts does. */
  lemma {:induction false} StagedFalls(rows: seq<Stored>, more: seq<Stored>, cands: seq<Candidate>)
    requires forall j :: 0 <= j < |cands| ==> ToInsert(more, cands[j]) <= ToInsert(rows, cands[j])
    ensures StagedTotal(more, cands) <= StagedTotal(rows, cands)
    ensures StagedTotal(more, cands) < StagedTotal(rows, cands)
       <==> exists j :: 0 <= j < |cands| && ToInsert(more, cands[j]) < ToInsert(rows, cands[j])
  {
    hide ToInsert;
    if cands != [] {
      var n := |cands| - 1;
      StagedFalls(rows, more, cands[..n]);
      assert forall j :: 0 <= j < n ==> cands[..n][j] == cands[j];
      if j :| 0 <= j < n && ToInsert(more, cands[j]) < ToInsert(rows, cands[j]) {
        assert ToInsert(more, cands[..n][j]) < ToInsert(rows, cands[..n][j]);
      }
    }
  }

  lemma FallsExactly(rows: seq<Stored>, more: seq<Stored>, c: Candidate)
    requires Count(rows, IdentityOf(c.row)) <= Count(more, IdentityOf(c.row))
    ensures ToInsert(more, c) <= ToInsert(rows, c)
    ensures ToInsert(more, c) < ToInsert(rows, c)
       <==> !Contained(rows, c) && Count(rows, IdentityOf(c.row)) < Count(more, IdentityOf(c.row))
  {
    hide IdentityOf, Count, Need;
  }

  /** One batch of the comparison. */
  lemma BatchOvercounts(day: int -> int, db: Db, bs: seq<Batch>, source: string, clock: nat -> int)
    requires bs != [] && GoodBatches(bs) && NoneSpans(bs)
    ensures var n := |bs| - 1; var more := Import(day, db, bs[..n], source, clock).rows;
      && StagedTotal(more, bs[n].cands) <= StagedTotal(db.rows, bs[n].cands)
      && (StagedTotal(more, bs[n].cands) < StagedTotal(db.rows, bs[n].cands)
          <==> exists j :: 0 <= j < |bs[n].cands| && Overcounted(db.rows, bs, n, j))
  {
    hide Import, NoneSpans, SeenIn, TakenOver, IdentityOf, ToInsert, Contained, Count, StagedTotal;
    var n := |bs| - 1;
    var more, cands := Import(day, db, bs[..n], source, clock).rows, bs[n].cands;
    NoneSpansPrefix(bs);
    forall j | 0 <= j < |cands|
      ensures ToInsert(more, cands[j]) <= ToInsert(db.rows, cands[j])
      ensures ToInsert(more, cands[j]) < ToInsert(db.rows, cands[j]) <==> Overcounted(db.rows, bs, n, j)
    {
      ProperIdentity(cands[j].row);
      GrowsByCrossing(day, db, bs[..n], source, clock, IdentityOf(cands[j].row));
      FallsExactly(db.rows, more, cands[j]);
    }
    StagedFalls(db.rows, more, cands);
  }

  lemma SomeOvercountedByLast(rows: seq<Stored>, bs: seq<Batch>)
    requires bs != []
    ensures var n := |bs| - 1;
      SomeOvercounted(rows, bs) <==> SomeOvercounted(rows, bs[..n]) || exists j :: 0 <= j < |bs[n].cands| && Overcounted(rows, bs, n, j)
  {
    hide TakenOver, IdentityOf, Contained;
    var n := |bs| - 1;
    var init := bs[..n];
    forall k, j | 0 <= k < n && 0 <= j < |bs[k].cands| ensures Overcounted(rows, init, k, j) == Overcounted(rows, bs, k, j) {
      assert init[..k] == bs[..k];
    }
    if SomeOvercounted(rows, init) {
      var k, j :| 0 <= k < n && 0 <= j < |init[k].cands| && Overcounted(rows, init, k, j);
      assert Overcounted(rows, bs, k, j);
    }
    if SomeOvercounted(rows, bs) {
      var k, j :| 0 <= k < |bs| && 0 <= j < |bs[k].cands| && Overcounted(rows, bs, k, j);
      if k < n {
        assert Overcounted(rows, init, k, j);
      }
    }
  }

  /** Where no identity spans two batches the upload preview never promises too
      little, and it promises too much exactly when it counts a row as new that
      an earlier batch makes present: a row without a request id counts as present
      once a row with one and the same tuple has landed. */
  lemma {:induction false} UploadPreviewExceedsExactly(day: int -> int, db: Db, bs: seq<Batch>, source: string, clock: nat -> int)
    requires GoodBatches(bs) && NoneSpans(bs)
    ensures UploadPreview(db.rows, bs) >= Inserted(day, db, bs, source, clock)
    ensures UploadPreview(db.rows, bs) > Inserted(day, db, bs, source, clock) <==> SomeOvercounted(db.rows, bs)
    decreases |bs|
  {
    hide Inserted, NoneSpans, SomeOvercounted, Overcounted, StagedTotal, SeenIn, Firsts, ToInsert, Import;
    if bs == [] {
      NothingOvercounted(day, db, source, clock);
    } else {
      var n := |bs| - 1;
      NoneSpansPrefix(bs);
      UploadPreviewExceedsExactly(day, db, bs[..n], source, clock);
      FirstsAreCounted(db.rows, db.rows, bs[n].cands, SeenIn(bs[..n]));
      InsertedByBatch(day, db, bs, source, clock);
      BatchOvercounts(day, db, bs, source, clock);
      SomeOvercountedByLast(db.rows, bs);
    }
  }

  lemma NothingOvercounted(day: int -> int, db: Db, source: string, clock: nat -> int)
    ensures Inserted(day, db, [], source, clock) == 0 && !SomeOvercounted(db.rows, [])
  {
  }

  /** The payload estimate counts the text of every column, and more. */
  ghost predicate CountsText(size: Row -> int) {
    forall r: Row, k: int :: r.Pending? && 0 <= k < |r.rest| && r.rest[k].Text? ==> Weigh(size, r) > |r.rest[k].s|
  }

  function Weigh(size: Row -> int, r: Row): int {
    size(r)
  }

  lemma ChunksOfTwo(l: Limits, a: Row, b: Row)
    requires Full(l, [a], b)
    ensures Chunks(l, [a, b]) == [[a], [b]]
  {
    hide Full;
    assert [a, b][..1] == [a] && [a][..0] == [];
    assert Chunks(l, [a]) == [[a]];
  }

  /** Two pending spans of 64 MiB of JSON each do not fit one batch of the preview. */
  lemma ScanOfLargePair(size: Row -> int, a: Row, b: Row)
    requires CountsText(size) && a.Pending? && b.Pending?
    requires |a.rest| == |b.rest| == 1 && a.rest[0].Text? && b.rest[0].Text?
    requires |a.rest[0].s| >= MAX_BATCH_BYTES / 2 && |b.rest[0].s| >= MAX_BATCH_BYTES / 2
    ensures Scan(Limits(0, 0, size), [a, b])
         == [Batch(PendingTtftSpans, [Candidate(a, 1)], 1, size(a)), Batch(PendingTtftSpans, [Candidate(b, 1)], 1, size(b))]
  {
    hide BatchOf, BatchesOf, Chunks;
    var l := Clamp(Limits(0, 0, size));
    assert Weigh(size, a) + Weigh(size, b) > MAX_BATCH_BYTES;
    OneRowBytes(l, a);
    ChunksOfTwo(l, a, b);
    OneRowBatch(l, a);
    OneRowBatch(l, b);
    BatchesOfFew(l, [a], [b]);
  }

  lemma PairSpansNothing(x: Batch, y: Batch)
    requires |x.cands| == |y.cands| == 1 && IdentityOf(x.cands[0].row) != IdentityOf(y.cands[0].row)
    ensures NoneSpans([x, y])
  {
    hide IdentityOf;
    var bs := [x, y];
    assert bs[..0] == [] && bs[..1] == [x] && [x][..0] == [];
    assert SeenIn([x]) == {} + Digests(x.cands);
    forall d | d in Digests(x.cands) ensures d == IdentityOf(x.cands[0].row) {
    }
  }

  /** A file the preview reads whose import inserts fewer rows than it promises:
      two large spans with one tuple, the first of them with a request id. */
  lemma UploadPreviewCanPromiseTooMuch(day: int -> int, source: string, clock: nat -> int, size: Row -> int, span: TraceSpan, id: string, json: string)
    requires CountsText(size) && id != "" && |json| >= MAX_BATCH_BYTES / 2
    ensures var stream := [Pending(id, span, false, [Text(json)]), Pending("", span, false, [Text(json)])];
      var bs := Scan(Limits(0, 0, size), stream);
      UploadPreview([], bs) > Inserted(day, Db([], map[], map[], map[]), bs, source, clock)
  {
    hide UploadPreview, Inserted, Scan;
    var a, b := Pending(id, span, false, [Text(json)]), Pending("", span, false, [Text(json)]);
    var bs := Scan(Limits(0, 0, size), [a, b]);
    ScanOfLargePair(size, a, b);
    ScanBatchesAreGood(Limits(0, 0, size), [a, b]);
    assert bs[..0] == [] && bs[..1] == [bs[0]] && [bs[0]][..0] == [];
    PairSpansNothing(bs[0], bs[1]);
    assert TakesOver([], bs[..1][0].cands[0], IdentityOf(b));
    assert Overcounted([], bs, 1, 0);
    UploadPreviewExceedsExactly(day, Db([], map[], map[], map[]), bs, source, clock);
  }

  // ---------- Verification ----------

  /** The first candidate that the target does not contain, or none. */
  predicate Verifies(rows: seq<Stored>, bs: seq<Batch>) {
    forall k, j :: 0 <= k < |bs| && 0 <= j < |Firsts(bs[k].cands, SeenIn(bs[..k]))| ==>
      Contained(rows, Firsts(bs[k].cands, SeenIn(bs[..k]))[j])
  }

  lemma {:induction false} FirstIsCandidate(cands: seq<Candidate>, seen: set<Identity>, j: int) returns (m: int)
    requires 0 <= j < |Firsts(cands, seen)|
    ensures 0 <= m < |cands| && cands[m] == Firsts(cands, seen)[j] && IdentityOf(cands[m].row) !in seen
  {
    hide IdentityOf;
    var n := |cands| - 1;
    if j < |Firsts(cands[..n], seen)| {
      m := FirstIsCandidate(cands[..n], seen, j);
    } else {
      m := n;
    }
  }

  /** Whatever is appended after an import, a verification of the same batches succeeds. */
  lemma ImportedSourceVerifies(day: int -> int, db: Db, bs: seq<Batch>, source: string, clock: nat -> int, later: seq<Stored>)
    ensures Verifies(Import(day, db, bs, source, clock).rows + later, bs)
  {
    hide Contained, Import, Firsts, SeenIn;
    var rows := Import(day, db, bs, source, clock).rows + later;
    forall k, j | 0 <= k < |bs| && 0 <= j < |Firsts(bs[k].cands, SeenIn(bs[..k]))|
      ensures Contained(rows, Firsts(bs[k].cands, SeenIn(bs[..k]))[j])
    {
      var m := FirstIsCandidate(bs[k].cands, SeenIn(bs[..k]), j);
      ImportIsContained(day, db, bs, source, clock, later, k, m);
    }
  }

  /** What an import leaves contained: exactly what the target already had or
      some one batch asked for. */
  lemma ContainedAfterImport(day: int -> int, db: Db, bs: seq<Batch>, source: string, clock: nat -> int, c: Candidate)
    requires GoodBatches(bs) && NothingCrosses(bs, IdentityOf(c.row))
    ensures Contained(Import(day, db, bs, source, clock).rows, c)
       <==> Need(c) <= Max(Count(db.rows, IdentityOf(c.row)), LargestNeed(bs, IdentityOf(c.row)))
  {
    hide IdentityOf, Need, Import, LargestNeed, NothingCrosses;
    assert Proper(IdentityOf(c.row)) by { ProperIdentity(c.row); }
    ImportJoins(day, db, bs, source, clock, IdentityOf(c.row));
  }

  /** The target had enough of the record, or some one batch asked for enough. */
  predicate Enough(rows: seq<Stored>, bs: seq<Batch>, c: Candidate) {
    Need(c) <= Max(Count(rows, IdentityOf(c.row)), LargestNeed(bs, IdentityOf(c.row)))
  }

  predicate FirstsAreEnough(rows: seq<Stored>, bs: seq<Batch>, other: seq<Batch>) {
    forall k, j :: 0 <= k < |other| && 0 <= j < |Firsts(other[k].cands, SeenIn(other[..k]))| ==>
      Enough(rows, bs, Firsts(other[k].cands, SeenIn(other[..k]))[j])
  }

  ghost predicate NothingCrossesAny(bs: seq<Batch>, other: seq<Batch>) {
    forall k, m :: 0 <= k < |other| && 0 <= m < |other[k].cands| ==> NothingCrosses(bs, IdentityOf(other[k].cands[m].row))
  }

  /** After an import, batches cut in any way verify if and only if each record,
      as the first of them that holds it counts it, was asked for by some one
      imported batch or was there in that number. */
  lemma VerifiesExactly(day: int -> int, db: Db, bs: seq<Batch>, other: seq<Batch>, source: string, clock: nat -> int)
    requires GoodBatches(bs) && NothingCrossesAny(bs, other)
    ensures Verifies(Import(day, db, bs, source, clock).rows, other) <==> FirstsAreEnough(db.rows, bs, other)
  {
    hide Contained, Import, Firsts, SeenIn, NothingCrosses, IdentityOf, Enough;
    var rows := Import(day, db, bs, source, clock).rows;
    forall k, j | 0 <= k < |other| && 0 <= j < |Firsts(other[k].cands, SeenIn(other[..k]))|
      ensures var c := Firsts(other[k].cands, SeenIn(other[..k]))[j]; Contained(rows, c) <==> Enough(db.rows, bs, c)
    {
      var m := FirstIsCandidate(other[k].cands, SeenIn(other[..k]), j);
      EnoughIsContained(day, db, bs, source, clock, other[k].cands[m]);
    }
  }

  lemma EnoughIsContained(day: int -> int, db: Db, bs: seq<Batch>, source: string, clock: nat -> int, c: Candidate)
    requires GoodBatches(bs) && NothingCrosses(bs, IdentityOf(c.row))
    ensures Contained(Import(day, db, bs, source, clock).rows, c) <==> Enough(db.rows, bs, c)
  {
    hide Contained, Import, LargestNeed, NothingCrosses, IdentityOf, Need, Count;
    ContainedAfterImport(day, db, bs, source, clock, c);
  }

  lemma OneRowBatch(l: Limits, r: Row)
    ensures BatchOf(l, [r]) == Batch(TableOf(r), [Candidate(r, 1)], 1, l.size(r))
  {
    hide IdentityOf, TableOf;
    assert [r][..0] == [];
    assert Collapse([r]) == AddRow([], r) == [Candidate(r, 1)];
    OneRowBytes(l, r);
  }

  lemma PairBatch(l: Limits, r: Row)
    ensures BatchOf(l, [r, r]) == Batch(TableOf(r), [Candidate(r, 2)], 2, l.size(r) + l.size(r))
  {
    hide IdentityOf, TableOf;
    OneRowBatch(l, r);
    assert [r, r][..1] == [r];
    assert [Candidate(r, 1)][..0] == [] && Find([Candidate(r, 1)], IdentityOf(r)) == 0;
  }

  lemma ChunksOfPair(l: Limits, r: Row)
    ensures Chunks(l, [r, r]) == if Full(l, [r], r) then [[r], [r]] else [[r, r]]
  {
    hide Full;
    assert [r, r][..1] == [r] && [r][..0] == [];
    assert Chunks(l, [r]) == [[r]];
    assert [[r]][..0] == [] && [r] + [r] == [r, r];
  }

  lemma BatchesOfFew(l: Limits, a: seq<Row>, b: seq<Row>)
    requires a != [] && b != []
    ensures BatchesOf(l, [a]) == [BatchOf(l, a)] && BatchesOf(l, [a, b]) == [BatchOf(l, a), BatchOf(l, b)]
  {
    hide BatchOf;
    assert [a][..0] == [] && [a, b][..1] == [a];
  }

  /** Two equal rows that fit one batch, under a row limit of one and under none. */
  lemma ScanOfPair(r: Row, size: Row -> int, rows: int)
    requires (rows == 1 || rows == 0) && 0 < size(r) && 2 * size(r) <= MAX_BATCH_BYTES
    ensures Scan(Limits(rows, 0, size), [r, r]) == if rows == 1 then [Single(r, size), Single(r, size)] else [Pair(r, size)]
  {
    hide BatchOf, BatchesOf, Chunks, TableOf;
    var l := Clamp(Limits(rows, 0, size));
    ChunksOfPair(l, r);
    OneRowBytes(l, r);
    OneRowBatch(l, r);
    PairBatch(l, r);
    BatchesOfFew(l, [r], [r]);
    BatchesOfFew(l, [r, r], [r]);
  }

  function Single(r: Row, size: Row -> int): Batch {
    Batch(TableOf(r), [Candidate(r, 1)], 1, size(r))
  }

  function Pair(r: Row, size: Row -> int): Batch {
    Batch(TableOf(r), [Candidate(r, 2)], 2, size(r) + size(r))
  }

  lemma OneRowBytes(l: Limits, r: Row)
    ensures Bytes(l, [r]) == l.size(r)
  {
    assert [r][..0] == [];
  }

  lemma LargestOfSingles(r: Row, size: Row -> int)
    requires Need(Candidate(r, 1)) >= 0
    ensures LargestNeed([Single(r, size), Single(r, size)], IdentityOf(r)) == Need(Candidate(r, 1))
  {
    hide IdentityOf, TableOf, Need;
    var b, c := Single(r, size), Candidate(r, 1);
    assert [b, b][..1] == [b] && [b][..0] == [];
    assert Find([c], IdentityOf(r)) == 0;
    assert LargestNeed([b], IdentityOf(r)) == Need(c);
  }

  lemma OnlyBatchIsFirst(b: Batch, c: Candidate)
    requires b.cands == [c]
    ensures Firsts([b][0].cands, SeenIn([b][..0])) == [c]
  {
    hide IdentityOf;
    assert [b][..0] == [] && [c][..0] == [];
  }

  /** An import may be told to cut its source smaller than a verification, which
      always uses the default limits. Two equal rows imported one per batch are
      one row; verified together they are two. */
  lemma OtherBatchingCanFail(day: int -> int, source: string, clock: nat -> int, size: Row -> int, r: Row)
    requires RequestIdOf(r) == "" && 0 < size(r) && 2 * size(r) <= MAX_BATCH_BYTES
    ensures !Verifies(Import(day, Db([], map[], map[], map[]), Scan(Limits(1, 0, size), [r, r]), source, clock).rows, Scan(Limits(0, 0, size), [r, r]))
  {
    hide Import, Scan, LargestNeed, Firsts, SeenIn, Verifies, RequestIdOf, NothingCrosses, IdentityOf;
    var empty := Db([], map[], map[], map[]);
    var bs, other := [Single(r, size), Single(r, size)], [Pair(r, size)];
    ScanOfPair(r, size, 1);
    ScanOfPair(r, size, 0);
    ScanBatchesAreGood(Limits(1, 0, size), [r, r]);
    NothingCrossesPlainSources(bs, IdentityOf(r));
    VerifiesExactly(day, empty, bs, other, source, clock);
    OnlyBatchIsFirst(other[0], Candidate(r, 2));
    LargestOfSingles(r, size);
    PairIsTooMany(r, bs);
    assert !Enough([], bs, Firsts(other[0].cands, SeenIn(other[..0]))[0]);
  }

  lemma PairIsTooMany(r: Row, bs: seq<Batch>)
    requires RequestIdOf(r) == "" && LargestNeed(bs, IdentityOf(r)) == Need(Candidate(r, 1))
    ensures !Enough([], bs, Candidate(r, 2))
  {
    hide LargestNeed;
  }

  lemma DigestsStep(cands: seq<Candidate>)
    requires cands != [] && Distinct(cands)
    ensures var n := |cands| - 1; var d := IdentityOf(cands[n].row);
      Digests(cands) == Digests(cands[..n]) + {d} && d !in Digests(cands[..n])
  {
    hide IdentityOf;
  }

  lemma {:induction false} CountFirsts(cands: seq<Candidate>, seen: set<Identity>)
    requires Distinct(cands)
    ensures |Firsts(cands, seen)| == |Digests(cands) - seen|
  {
    hide IdentityOf, Digests;
    if cands == [] {
      assert Digests(cands) - seen == {} by { NoDigests(); }
    } else {
      var n := |cands| - 1;
      CountFirsts(cands[..n], seen);
      DigestsStep(cands);
      var d := IdentityOf(cands[n].row);
      if d in seen {
        assert Digests(cands) - seen == Digests(cands[..n]) - seen;
      } else {
        assert Digests(cands) - seen == (Digests(cands[..n]) - seen) + {d};
      }
    }
  }

  lemma NoDigests()
    ensures Digests([]) == {}
  {
  }

  function FirstTotal(bs: seq<Batch>): nat {
    if bs == [] then 0 else FirstTotal(bs[..|bs| - 1]) + |Firsts(bs[|bs| - 1].cands, SeenIn(bs[..|bs| - 1]))|
  }

  /** Each distinct identity of the source is verified exactly once. */
  lemma {:induction false} VerifiedOnce(bs: seq<Batch>)
    requires GoodBatches(bs)
    ensures FirstTotal(bs) == |SeenIn(bs)|
  {
    hide IdentityOf, Firsts;
    if bs != [] {
      var n := |bs| - 1;
      VerifiedOnce(bs[..n]);
      CountFirsts(bs[n].cands, SeenIn(bs[..n]));
      assert SeenIn(bs) == SeenIn(bs[..n]) + (Digests(bs[n].cands) - SeenIn(bs[..n]));
    }
  }
}
