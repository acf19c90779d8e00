/**
 Session ingests that compared with one mirror and then wrote one after the
 other, and what they leave for the ingests that follow.
 */
module Overlaps {
  import opened Wrappers
  import opened Postings
  import opened Journal

  /**
   Under an entry's key the later ingest leaves what its own reading says: it
   overwrites, or the earlier one left there what the later one takes to be there.
   */
  predicate ComesRight(held: seq<Session>, first: seq<Session>, second: seq<Session>, run: string, id: string) {
    || Overwrites(second, held, run, id)
    || (if LineUnder(held, id).None? then LineUnder(first, id).None?
        else Posted(Taken(LineUnder(held, id), LineUnder(first, id))) == Posted(LineUnder(second, id)))
  }

  predicate KeepsFocus(held: seq<Session>, arriving: seq<Session>, id: string) {
    Keeps(LineUnder(held, id), LineUnder(arriving, id)) ==> LineUnder(held, id) == LineUnder(arriving, id)
  }

  /**
   **Exactly when two overlapping session ingests leave what the later reading
   says.** Both compared with the mirror `held`; `first` was staged and committed
   over an index that mirrored it, and `second` over what that left. Where no
   focus moves the earlier one must have changed nothing under the key.
   */
  lemma Overlap(before: seq<Posting>, held: seq<Session>, first: seq<Session>, second: seq<Session>, run: string, id: string)
    requires DistinctRuns(held) && DistinctRuns(first) && DistinctRuns(second)
    requires KeptIn(held, id, run) && KeptIn(first, id, run) && KeptIn(second, id, run)
    requires Matching(before, EntryTerm(id)) == Matching(RewriteAll(held), EntryTerm(id))
    ensures
      var after := Effect(Effect(before, IngestStaging(first, held)), IngestStaging(second, held));
      Matching(after, EntryTerm(id)) == Matching(RewriteAll(second), EntryTerm(id)) <==> ComesRight(held, first, second, run, id)
    ensures AllOf(Matching(Effect(Effect(before, IngestStaging(first, held)), IngestStaging(second, held)), EntryTerm(id)), run)
    ensures KeepsFocus(held, first, id) && KeepsFocus(held, second, id) ==>
      (ComesRight(held, first, second, run, id) <==>
        Overwrites(second, held, run, id)
        || Matching(RewriteAll(first), EntryTerm(id)) == Matching(RewriteAll(held), EntryTerm(id)))
  {
    hide Matching, Effect, IngestStaging, RewriteAll, DistinctRuns, KeptIn, LineUnder, GoneRuns;
    RewriteUnder(held, id);
    RewriteUnder(first, id);
    RewriteUnder(second, id);
    IngestOver(before, held, first, run, id, LineUnder(held, id));
    OfItsRun(held, first, run, id);
    OneIngest(Effect(before, IngestStaging(first, held)), held, second, run, id);
  }

  lemma OfItsRun(held: seq<Session>, first: seq<Session>, run: string, id: string)
    requires DistinctRuns(held) && DistinctRuns(first) && KeptIn(held, id, run) && KeptIn(first, id, run)
    ensures AllOf(Posted(Taken(LineUnder(held, id), LineUnder(first, id))), run)
  {
    hide LineUnder;
    LineOfTheRun(held, id, run);
    LineOfTheRun(first, id, run);
  }

  lemma OneRunOneEntry(s: Session, id: string)
    requires |s.entries| <= 1
    ensures DistinctRuns([s]) && KeptIn([s], id, s.id)
    ensures LineUnder([s], id) == LineIn(s, id)
    ensures GoneRuns([s], [s.(entries := [])]) == [] && GoneRuns([s], []) == []
  {
    assert [s][..0] == [] && [s.(entries := [])][..0] == [];
    assert LineUnder([], id) == None;
    assert RunUnder([s], s.id).Some?;
  }

  /** **Two ingests that both find an entry new leave it twice**: an add deletes nothing. */
  lemma AnEntryNewToBothLandsTwice(s: Session, e: JournalEntry)
    requires s.entries == [e]
    ensures
      var after := Effect(Effect([], IngestStaging([s], [])), IngestStaging([s], []));
      Matching(after, EntryTerm(e.id)) == [PostingOf(s, e), PostingOf(s, e)]
  {
    hide Matching, Effect, IngestStaging, LineUnder, GoneRuns, DistinctRuns, KeptIn;
    OneRunOneEntry(s, e.id);
    EmptyHoldsNothing(s.id, e.id);
    assert EntryUnder([e], e.id) == Some(e);
    OneIngest([], [], [s], s.id, e.id);
    OneIngest(Effect([], IngestStaging([s], [])), [], [s], s.id, e.id);
  }

  lemma EmptyHoldsNothing(run: string, id: string)
    ensures DistinctRuns([]) && KeptIn([], id, run) && LineUnder([], id) == None && Matching([], EntryTerm(id)) == []
  {
  }

  /** **An entry the later, older reading never held stays**: that reading equals the mirror and stages nothing. */
  lemma AnEntryOneReadingAddedStays(s: Session, e: JournalEntry)
    requires s.entries == [e]
    ensures
      var held := [s.(entries := [])];
      var after := Effect(Effect([], IngestStaging([s], held)), IngestStaging(held, held));
      && Matching([], EntryTerm(e.id)) == Matching(RewriteAll(held), EntryTerm(e.id)) == []
      && Matching(after, EntryTerm(e.id)) == [PostingOf(s, e)]
  {
    hide Matching, Effect, IngestStaging, LineUnder, GoneRuns, DistinctRuns, KeptIn, RewriteAll;
    var older := s.(entries := []);
    OneRunOneEntry(s, e.id);
    OneRunOneEntry(older, e.id);
    EmptyHoldsNothing(s.id, e.id);
    RewriteUnder([older], e.id);
    assert EntryUnder([e], e.id) == Some(e) && EntryUnder([], e.id) == None;
    assert GoneRuns([older], [older]) == [];
    OneIngest([], [older], [s], s.id, e.id);
    OneIngest(Effect([], IngestStaging([s], [older])), [older], [older], s.id, e.id);
  }

  // ---- What follows ----

  /** Each ingest alone: compared with the reading before it, which it left as the mirror. */
  ghost predicate Alone(indexes: seq<seq<Posting>>, readings: seq<seq<Session>>) {
    && |indexes| == |readings| > 0
    && forall k :: 0 <= k < |readings| - 1 ==>
         indexes[k + 1] == Effect(indexes[k], IngestStaging(readings[k + 1], readings[k]))
  }

  /** Under the entry's key the index holds what the reading says, whatever focus it was written under. */
  ghost predicate Right(index: seq<Posting>, reading: seq<Session>, id: string) {
    SaveFocus(Matching(index, EntryTerm(id))) == SaveFocus(Matching(RewriteAll(reading), EntryTerm(id)))
  }

  ghost predicate KeptInAll(readings: seq<seq<Session>>, id: string, run: string) {
    forall k :: 0 <= k < |readings| ==> DistinctRuns(readings[k]) && KeptIn(readings[k], id, run)
  }

  lemma StaysAsItWas(before: seq<Posting>, held: seq<Session>, arriving: seq<Session>, run: string, id: string)
    requires DistinctRuns(held) && DistinctRuns(arriving) && KeptIn(held, id, run) && KeptIn(arriving, id, run)
    requires AllOf(Matching(before, EntryTerm(id)), run)
    ensures
      var after := Effect(before, IngestStaging(arriving, held));
      && AllOf(Matching(after, EntryTerm(id)), run)
      && (Right(after, arriving, id) <==> Right(before, held, id) || Overwrites(arriving, held, run, id))
  {
    hide Matching, Effect, IngestStaging, RewriteAll, DistinctRuns, KeptIn, LineUnder, GoneRuns;
    RewriteUnder(held, id);
    RewriteUnder(arriving, id);
    OneIngest(before, held, arriving, run, id);
    var there, added := Matching(before, EntryTerm(id)), Posted(LineUnder(arriving, id));
    if LineUnder(held, id).None? && added != [] {
      assert |SaveFocus(there + added)| == |there| + 1 && |SaveFocus(added)| == 1;
    }
  }

  /**
   **What an overlap damaged stays damaged until an ingest overwrites it.** From any
   index and whichever reading was left as the mirror, ingests that follow one
   another are right about an entry if and only if the first index was, or one of
   them evicted its run, removed it, or replaced it.
   */
  lemma {:induction false} DamageLasts(indexes: seq<seq<Posting>>, readings: seq<seq<Session>>, run: string, id: string)
    requires Alone(indexes, readings) && KeptInAll(readings, id, run)
    requires AllOf(Matching(indexes[0], EntryTerm(id)), run)
    ensures AllOf(Matching(indexes[|indexes| - 1], EntryTerm(id)), run)
    ensures Right(indexes[|indexes| - 1], readings[|readings| - 1], id) <==>
      || Right(indexes[0], readings[0], id)
      || exists k :: 0 <= k < |readings| - 1 && Overwrites(readings[k + 1], readings[k], run, id)
    decreases |readings|
  {
    hide Matching, Effect, IngestStaging, Right, AllOf, Overwrites, DistinctRuns, KeptIn;
    var n := |readings| - 1;
    if n > 0 {
      DamageLasts(indexes[..n], readings[..n], run, id);
      assert readings[..n][n - 1] == readings[n - 1] && indexes[..n][n - 1] == indexes[n - 1];
      assert forall k :: 0 <= k < n ==> readings[..n][k] == readings[k];
      StaysAsItWas(indexes[n - 1], readings[n - 1], readings[n], run, id);
    }
  }
}
