/** The session half: runs, their journal entries, and what one ingest of a reading stages. */
module Journal {
  import opened Wrappers
  import opened Postings

  /** A journal entry; `rest` is all of it that no posting carries. */
  datatype JournalEntry = JournalEntry(id: string, text: string, rest: string)

  /** A run of a bot, its working-on line, and its entries; `rest` is all of it that no posting carries. */
  datatype Session = Session(id: string, owner: string, focus: string, rest: string, entries: seq<JournalEntry>)

  function PostingOf(s: Session, e: JournalEntry): Posting {
    EntryPosting(s.id, s.owner, s.focus, e.id, e.text)
  }

  function EntriesOf(s: Session, entries: seq<JournalEntry>): (ps: seq<Posting>)
    ensures |ps| == |entries|
    ensures forall i :: 0 <= i < |ps| ==> ps[i] == PostingOf(s, entries[i])
  {
    seq(|entries|, i requires 0 <= i < |entries| => PostingOf(s, entries[i]))
  }

  /** Deleting and rewriting every run: each entry of each run once. */
  function RewriteAll(sessions: seq<Session>): seq<Posting>
    decreases |sessions|
  {
    if sessions == [] then []
    else
      var last := sessions[|sessions| - 1];
      RewriteAll(sessions[..|sessions| - 1]) + EntriesOf(last, last.entries)
  }

  /** The journal entry under an id; the last one wins, as in a collected map. */
  function EntryUnder(entries: seq<JournalEntry>, id: string): Option<JournalEntry>
    decreases |entries|
  {
    if entries == [] then None
    else if entries[|entries| - 1].id == id then Some(entries[|entries| - 1])
    else EntryUnder(entries[..|entries| - 1], id)
  }

  lemma {:induction false} EntryUnderIsThere(entries: seq<JournalEntry>, id: string)
    ensures EntryUnder(entries, id).Some? ==> EntryUnder(entries, id).value in entries && EntryUnder(entries, id).value.id == id
    ensures EntryUnder(entries, id).None? <==> forall e :: e in entries ==> e.id != id
    decreases |entries|
  {
    if entries != [] {
      var init, last := entries[..|entries| - 1], entries[|entries| - 1];
      assert entries == init + [last];
      EntryUnderIsThere(init, id);
    }
  }

  function RunUnder(sessions: seq<Session>, run: string): (s: Option<Session>)
    ensures s.Some? ==> s.value in sessions && s.value.id == run
    ensures s.None? <==> forall x :: x in sessions ==> x.id != run
    decreases |sessions|
  {
    if sessions == [] then None
    else
      var init, last := sessions[..|sessions| - 1], sessions[|sessions| - 1];
      assert sessions == init + [last];
      if last.id == run then Some(last) else RunUnder(init, run)
  }

  predicate HasEntry(s: Session, id: string) { EntryUnder(s.entries, id).Some? }

  ghost predicate DistinctEntries(entries: seq<JournalEntry>) {
    forall i, j :: 0 <= i < j < |entries| ==> entries[i].id != entries[j].id
  }

  ghost predicate DistinctIds(sessions: seq<Session>) {
    forall i, j :: 0 <= i < j < |sessions| ==> sessions[i].id != sessions[j].id
  }

  /** One row per run, and entry identities unique across all runs. */
  ghost predicate DistinctRuns(sessions: seq<Session>) {
    && DistinctIds(sessions)
    && (forall i :: 0 <= i < |sessions| ==> DistinctEntries(sessions[i].entries))
    && (forall s, t, id :: s in sessions && t in sessions && HasEntry(s, id) && HasEntry(t, id) ==> s == t)
  }

  /** The entry is in no run but this one. */
  ghost predicate KeptIn(sessions: seq<Session>, id: string, run: string) {
    forall s :: s in sessions && HasEntry(s, id) ==> s.id == run
  }

  /** No entry moves from one run to another between two readings. */
  ghost predicate EntriesStay(held: seq<Session>, arriving: seq<Session>) {
    forall s, t, id :: s in held && t in arriving && HasEntry(s, id) && HasEntry(t, id) ==> s.id == t.id
  }

  // ---- The entry under an id ----

  /** An entry as its run holds it. */
  datatype Line = Line(run: string, owner: string, focus: string, entry: JournalEntry)

  function LineIn(s: Session, id: string): Option<Line> {
    match EntryUnder(s.entries, id)
    case None => None
    case Some(e) => Some(Line(s.id, s.owner, s.focus, e))
  }

  function LineUnder(sessions: seq<Session>, id: string): Option<Line>
    decreases |sessions|
  {
    if sessions == [] then None
    else
      var line := LineIn(sessions[|sessions| - 1], id);
      if line.Some? then line else LineUnder(sessions[..|sessions| - 1], id)
  }

  function Posted(line: Option<Line>): seq<Posting> {
    match line
    case None => []
    case Some(l) => [EntryPosting(l.run, l.owner, l.focus, l.entry.id, l.entry.text)]
  }

  lemma InitIsDistinct(sessions: seq<Session>)
    requires DistinctRuns(sessions) && sessions != []
    ensures DistinctRuns(sessions[..|sessions| - 1])
  {
    assert forall s :: s in sessions[..|sessions| - 1] ==> s in sessions;
  }

  lemma EntriesPush(s: Session, entries: seq<JournalEntry>)
    requires DistinctEntries(entries) && entries != []
    ensures
      var init, last := entries[..|entries| - 1], entries[|entries| - 1];
      && EntriesOf(s, entries) == EntriesOf(s, init) + [PostingOf(s, last)]
      && DistinctEntries(init) && EntryUnder(init, last.id).None?
  {
    EntryUnderIsThere(entries[..|entries| - 1], entries[|entries| - 1].id);
  }

  lemma {:induction false} EntriesUnder(s: Session, entries: seq<JournalEntry>, id: string)
    requires DistinctEntries(entries)
    ensures Matching(EntriesOf(s, entries), EntryTerm(id)) ==
      match EntryUnder(entries, id)
      case None => []
      case Some(e) => [PostingOf(s, e)]
    decreases |entries|
  {
    hide Matching, EntriesOf, DistinctEntries;
    if entries == [] {
      NoPostings(EntryTerm(id));
    } else {
      var init, last := entries[..|entries| - 1], entries[|entries| - 1];
      EntriesPush(s, entries);
      EntriesUnder(s, init, id);
      MatchingPush(EntriesOf(s, init), PostingOf(s, last), EntryTerm(id));
    }
  }

  lemma {:induction false} NoLine(sessions: seq<Session>, id: string)
    ensures LineUnder(sessions, id).None? <==> forall s :: s in sessions ==> !HasEntry(s, id)
    decreases |sessions|
  {
    if sessions != [] {
      var init, last := sessions[..|sessions| - 1], sessions[|sessions| - 1];
      assert sessions == init + [last];
      assert last in sessions && forall s :: s in init ==> s in sessions;
      NoLine(init, id);
    }
  }

  /** **What rewriting every run leaves under one entry's key**: the entry's own posting, once. */
  lemma {:induction false} RewriteUnder(sessions: seq<Session>, id: string)
    requires DistinctRuns(sessions)
    ensures Matching(RewriteAll(sessions), EntryTerm(id)) == Posted(LineUnder(sessions, id))
    decreases |sessions|
  {
    hide Matching, EntriesOf;
    if sessions == [] {
      NoPostings(EntryTerm(id));
      return;
    }
    var init, last := sessions[..|sessions| - 1], sessions[|sessions| - 1];
    assert sessions == init + [last] && last == sessions[|sessions| - 1];
    InitIsDistinct(sessions);
    RewriteUnder(init, id);
    MatchingConcat(RewriteAll(init), EntriesOf(last, last.entries), EntryTerm(id));
    EntriesUnder(last, last.entries, id);
    if HasEntry(last, id) {
      forall s | s in init
        ensures !HasEntry(s, id)
      {
        var i :| 0 <= i < |init| && init[i] == s;
        assert sessions[i].id != last.id;
      }
      NoLine(init, id);
    }
  }

  lemma NoPostings(t: Term)
    ensures Matching([], t) == []
  {
  }

  /** An entry kept in one run is read off that run. */
  lemma {:induction false} LineInItsRun(sessions: seq<Session>, id: string, run: string)
    requires DistinctIds(sessions) && KeptIn(sessions, id, run)
    ensures LineUnder(sessions, id) == match RunUnder(sessions, run) case None => None case Some(s) => LineIn(s, id)
    decreases |sessions|
  {
    if sessions != [] {
      var init, last := sessions[..|sessions| - 1], sessions[|sessions| - 1];
      assert sessions == init + [last];
      LineInItsRun(init, id, run);
      if last.id == run {
        assert forall s :: s in init ==> s.id != run;
      }
    }
  }

  // ---- The comparison of two readings ----

  function ChangedRuns(arriving: seq<Session>, held: seq<Session>): (r: seq<Session>)
    ensures forall s :: s in r <==> s in arriving && RunUnder(held, s.id) != Some(s)
    ensures DistinctIds(arriving) ==> DistinctIds(r)
    decreases |arriving|
  {
    if arriving == [] then []
    else
      var init, last := arriving[..|arriving| - 1], arriving[|arriving| - 1];
      assert arriving == init + [last];
      assert DistinctIds(arriving) ==> DistinctIds(init) && forall s :: s in init ==> s.id != last.id;
      ChangedRuns(init, held) + (if RunUnder(held, last.id) != Some(last) then [last] else [])
  }

  function GoneRuns(arriving: seq<Session>, held: seq<Session>): (r: seq<string>)
    ensures forall run :: run in r <==> RunUnder(held, run).Some? && RunUnder(arriving, run).None?
    decreases |held|
  {
    if held == [] then []
    else
      var init, last := held[..|held| - 1], held[|held| - 1];
      GoneRuns(arriving, init) + (if RunUnder(arriving, last.id).None? then [last.id] else [])
  }

  lemma RunUnderIsHeld(held: seq<Session>, s: Session)
    requires DistinctIds(held)
    ensures RunUnder(held, s.id) == Some(s) <==> s in held
  {
  }

  // ---- What one ingest stages ----

  function EntryStaging(was: Option<Session>, s: Session, e: JournalEntry): seq<Staged> {
    var held := if was.Some? then EntryUnder(was.value.entries, e.id) else None;
    if held.None? then [Add(PostingOf(s, e))]
    else if held.value == e && was.value.owner == s.owner then []
    else [Delete(EntryTerm(e.id)), Add(PostingOf(s, e))]
  }

  function EntriesStaging(was: Option<Session>, s: Session, entries: seq<JournalEntry>): seq<Staged>
    decreases |entries|
  {
    if entries == [] then []
    else EntriesStaging(was, s, entries[..|entries| - 1]) + EntryStaging(was, s, entries[|entries| - 1])
  }

  function RemovedStaging(s: Session, held: seq<JournalEntry>): seq<Staged>
    decreases |held|
  {
    if held == [] then []
    else
      var id := held[|held| - 1].id;
      RemovedStaging(s, held[..|held| - 1]) + (if HasEntry(s, id) then [] else [Delete(EntryTerm(id))])
  }

  function RunStaging(was: Option<Session>, s: Session): seq<Staged> {
    EntriesStaging(was, s, s.entries) + (if was.Some? then RemovedStaging(s, was.value.entries) else [])
  }

  function RunsStaging(held: seq<Session>, runs: seq<Session>): seq<Staged>
    decreases |runs|
  {
    if runs == [] then []
    else
      var last := runs[|runs| - 1];
      RunsStaging(held, runs[..|runs| - 1]) + RunStaging(RunUnder(held, last.id), last)
  }

  function EvictStaging(gone: seq<string>): seq<Staged>
    decreases |gone|
  {
    if gone == [] then [] else EvictStaging(gone[..|gone| - 1]) + [Delete(RunTerm(gone[|gone| - 1]))]
  }

  /** All that an ingest of `arriving` stages when it compared with the mirror `held`. */
  function IngestStaging(arriving: seq<Session>, held: seq<Session>): seq<Staged> {
    EvictStaging(GoneRuns(arriving, held)) + RunsStaging(held, ChangedRuns(arriving, held))
  }

  // ---- What the staging does under one key, over any index ----

  /** Under the key of an entry of the run: added to what is there, left, or put in its place. */
  function EntryPut(there: seq<Posting>, was: Option<Session>, s: Session, e: JournalEntry): seq<Posting> {
    var held := if was.Some? then EntryUnder(was.value.entries, e.id) else None;
    if held.None? then there + [PostingOf(s, e)]
    else if held.value == e && was.value.owner == s.owner then there
    else [PostingOf(s, e)]
  }

  function RunPut(there: seq<Posting>, was: Option<Session>, s: Session, t: Term): seq<Posting> {
    if !t.EntryTerm? then there
    else match EntryUnder(s.entries, t.id)
      case Some(e) => EntryPut(there, was, s, e)
      case None => if was.Some? && HasEntry(was.value, t.id) then [] else there
  }

  lemma EntryLands(index: seq<Posting>, was: Option<Session>, s: Session, e: JournalEntry, t: Term)
    requires !t.RunTerm?
    ensures Matching(Effect(index, EntryStaging(was, s, e)), t) ==
      if t == EntryTerm(e.id) then EntryPut(Matching(index, t), was, s, e) else Matching(index, t)
  {
    hide Matching, Without;
    var p := PostingOf(s, e);
    EffectPush(index, [], Add(p));
    EffectPush(index, [], Delete(EntryTerm(e.id)));
    EffectPush(index, [Delete(EntryTerm(e.id))], Add(p));
    assert [] + [Add(p)] == [Add(p)] && [] + [Delete(EntryTerm(e.id))] == [Delete(EntryTerm(e.id))];
    assert [Delete(EntryTerm(e.id))] + [Add(p)] == [Delete(EntryTerm(e.id)), Add(p)];
    MatchingPush(index, p, t);
    WithoutKey(index, EntryTerm(e.id), t);
    MatchingPush(Without(index, EntryTerm(e.id)), p, t);
  }

  /** **Each entry of a run lands once under its own key, and touches no other.** */
  lemma {:induction false} EntriesLand(index: seq<Posting>, was: Option<Session>, s: Session, entries: seq<JournalEntry>, t: Term)
    requires DistinctEntries(entries) && !t.RunTerm?
    ensures Matching(Effect(index, EntriesStaging(was, s, entries)), t) ==
      if t.EntryTerm? && EntryUnder(entries, t.id).Some?
      then EntryPut(Matching(index, t), was, s, EntryUnder(entries, t.id).value)
      else Matching(index, t)
    decreases |entries|
  {
    hide Matching, EntryStaging, EntryPut;
    if entries != [] {
      if t.EntryTerm? {
        EntryUnderIsThere(entries, t.id);
      }
      var init, last := entries[..|entries| - 1], entries[|entries| - 1];
      assert entries == init + [last];
      EntriesLand(index, was, s, init, t);
      EffectConcat(index, EntriesStaging(was, s, init), EntryStaging(was, s, last));
      EntryLands(Effect(index, EntriesStaging(was, s, init)), was, s, last, t);
      EntryUnderIsThere(init, last.id);
    }
  }

  /** **The entries a run no longer holds leave**, and no other. */
  lemma {:induction false} RemovedLeave(index: seq<Posting>, s: Session, held: seq<JournalEntry>, t: Term)
    requires !t.RunTerm?
    ensures Matching(Effect(index, RemovedStaging(s, held)), t) ==
      if t.EntryTerm? && EntryUnder(held, t.id).Some? && !HasEntry(s, t.id) then [] else Matching(index, t)
    decreases |held|
  {
    hide Matching, Without;
    if held != [] {
      var init, id := held[..|held| - 1], held[|held| - 1].id;
      var before := Effect(index, RemovedStaging(s, init));
      RemovedLeave(index, s, init, t);
      if !HasEntry(s, id) {
        EffectPush(index, RemovedStaging(s, init), Delete(EntryTerm(id)));
        WithoutKey(before, EntryTerm(id), t);
      } else {
        assert RemovedStaging(s, held) == RemovedStaging(s, init);
      }
    }
  }

  lemma RunLands(index: seq<Posting>, was: Option<Session>, s: Session, t: Term)
    requires DistinctEntries(s.entries) && !t.RunTerm?
    ensures Matching(Effect(index, RunStaging(was, s)), t) == RunPut(Matching(index, t), was, s, t)
  {
    hide Matching, EntriesStaging, RemovedStaging, EntryPut, Effect;
    var mid := Effect(index, EntriesStaging(was, s, s.entries));
    EntriesLand(index, was, s, s.entries, t);
    if was.Some? {
      EffectConcat(index, EntriesStaging(was, s, s.entries), RemovedStaging(s, was.value.entries));
      RemovedLeave(mid, s, was.value.entries, t);
    } else {
      assert EntriesStaging(was, s, s.entries) + [] == EntriesStaging(was, s, s.entries);
    }
  }

  /** **The runs of an ingest do not disturb each other**: under an entry's key only its own run's update shows. */
  lemma {:induction false} RunsLand(index: seq<Posting>, held: seq<Session>, runs: seq<Session>, run: string, t: Term)
    requires !t.RunTerm? && DistinctIds(runs) && forall s :: s in runs ==> DistinctEntries(s.entries)
    requires t.EntryTerm? ==> KeptIn(held, t.id, run) && KeptIn(runs, t.id, run)
    ensures Matching(Effect(index, RunsStaging(held, runs)), t) ==
      match RunUnder(runs, run)
      case None => Matching(index, t)
      case Some(s) => RunPut(Matching(index, t), RunUnder(held, run), s, t)
    decreases |runs|
  {
    hide Matching, RunStaging, EntryPut;
    if runs != [] {
      var init, last := runs[..|runs| - 1], runs[|runs| - 1];
      assert runs == init + [last];
      var mid := Effect(index, RunsStaging(held, init));
      RunsLand(index, held, init, run, t);
      EffectConcat(index, RunsStaging(held, init), RunStaging(RunUnder(held, last.id), last));
      RunLands(mid, RunUnder(held, last.id), last, t);
      if last.id == run {
        assert RunUnder(init, run).None?;
      } else if t.EntryTerm? {
        assert !HasEntry(last, t.id);
      }
    }
  }

  /** Every posting there is an entry of this run. */
  ghost predicate AllOf(ps: seq<Posting>, run: string) {
    forall p :: p in ps ==> OfRun(p, run)
  }

  /** **Evicting a run removes that run's entries and no other run's.** */
  lemma {:induction false} EvictedLeave(index: seq<Posting>, gone: seq<string>, run: string, t: Term)
    requires !t.RunTerm? && (t.EntryTerm? ==> AllOf(Matching(index, t), run))
    ensures Matching(Effect(index, EvictStaging(gone)), t) == if t.EntryTerm? && run in gone then [] else Matching(index, t)
    decreases |gone|
  {
    hide Matching, Without;
    if gone != [] {
      var init, last := gone[..|gone| - 1], gone[|gone| - 1];
      var mid := Effect(index, EvictStaging(init));
      assert gone == init + [last];
      EvictedLeave(index, init, run, t);
      EffectPush(index, EvictStaging(init), Delete(RunTerm(last)));
      MatchingHas(mid, t);
      WithoutRun(mid, last, t, t.EntryTerm? && last == run);
    }
  }

  // ---- One ingest under one entry's key, over any index ----

  /** The two readings agree about the entry in all that decides whether it is written: all but its run's focus. */
  predicate Keeps(held: Option<Line>, arriving: Option<Line>) {
    held.Some? && arriving.Some? && held.value.(focus := arriving.value.focus) == arriving.value
  }

  /** The ingest replaces or deletes whatever lies under the entry's key. */
  predicate Overwrites(arriving: seq<Session>, held: seq<Session>, run: string, id: string) {
    || run in GoneRuns(arriving, held)
    || (LineUnder(held, id).Some? && !Keeps(LineUnder(held, id), LineUnder(arriving, id)))
  }

  /** What an ingest makes of the postings under an entry's key. */
  function Ingested(there: seq<Posting>, arriving: seq<Session>, held: seq<Session>, run: string, id: string): seq<Posting> {
    if Overwrites(arriving, held, run, id) then Posted(LineUnder(arriving, id))
    else if LineUnder(held, id).Some? then there
    else there + Posted(LineUnder(arriving, id))
  }

  lemma ChangedUnder(arriving: seq<Session>, held: seq<Session>, run: string)
    requires DistinctIds(arriving) && DistinctIds(held)
    ensures RunUnder(ChangedRuns(arriving, held), run) ==
      if RunUnder(arriving, run) == RunUnder(held, run) then None else RunUnder(arriving, run)
  {
    hide DistinctIds;
    var s, changed := RunUnder(arriving, run), RunUnder(ChangedRuns(arriving, held), run);
    if s.Some? && s != RunUnder(held, run) {
      assert s.value in ChangedRuns(arriving, held);
      RunUnderIsHeld(arriving, changed.value);
    }
    if changed.Some? {
      RunUnderIsHeld(arriving, changed.value);
    }
  }

  /** **Under an entry's key an ingest overwrites, leaves or adds**, whatever the index held there of the entry's run. */
  lemma OneIngest(before: seq<Posting>, held: seq<Session>, arriving: seq<Session>, run: string, id: string)
    requires DistinctRuns(held) && DistinctRuns(arriving) && KeptIn(held, id, run) && KeptIn(arriving, id, run)
    requires AllOf(Matching(before, EntryTerm(id)), run)
    ensures
      var after := Matching(Effect(before, IngestStaging(arriving, held)), EntryTerm(id));
      after == Ingested(Matching(before, EntryTerm(id)), arriving, held, run, id) && AllOf(after, run)
  {
    hide Matching, Effect, EvictStaging, RunsStaging, ChangedRuns, GoneRuns, RunUnder, LineUnder;
    var t, gone, changed := EntryTerm(id), GoneRuns(arriving, held), ChangedRuns(arriving, held);
    var mid := Effect(before, EvictStaging(gone));
    EffectConcat(before, EvictStaging(gone), RunsStaging(held, changed));
    EvictedLeave(before, gone, run, t);
    RunsLand(mid, held, changed, run, t);
    ChangedUnder(arriving, held, run);
    LineInItsRun(held, id, run);
    LineInItsRun(arriving, id, run);
    if RunUnder(arriving, run).Some? {
      EntryUnderIsThere(RunUnder(arriving, run).value.entries, id);
    }
  }

  // ---- One ingest after another ----

  /** Under every entry's key the index equals a rewrite of all these runs. */
  ghost predicate EntriesMirror(index: seq<Posting>, held: seq<Session>) {
    forall id :: Matching(index, EntryTerm(id)) == Matching(RewriteAll(held), EntryTerm(id))
  }

  /** The line the index shows once a reading was ingested over `there`: a kept one stays as it was written. */
  function Taken(there: Option<Line>, arriving: Option<Line>): Option<Line> {
    if Keeps(there, arriving) then there else arriving
  }

  lemma LineOfTheRun(sessions: seq<Session>, id: string, run: string)
    requires DistinctIds(sessions) && KeptIn(sessions, id, run)
    ensures LineUnder(sessions, id).Some? ==> LineUnder(sessions, id).value.run == run && LineUnder(sessions, id).value.entry.id == id
    ensures AllOf(Posted(LineUnder(sessions, id)), run)
    ensures RunUnder(sessions, run).None? ==> LineUnder(sessions, id).None?
  {
    LineInItsRun(sessions, id, run);
    if RunUnder(sessions, run).Some? {
      EntryUnderIsThere(RunUnder(sessions, run).value.entries, id);
    }
  }

  /** One run that holds the entry in both readings, if any does. */
  lemma ItsRun(held: seq<Session>, arriving: seq<Session>, id: string) returns (run: string)
    requires DistinctRuns(held) && DistinctRuns(arriving) && EntriesStay(held, arriving)
    ensures KeptIn(held, id, run) && KeptIn(arriving, id, run)
  {
    run := "";
    if s :| s in held && HasEntry(s, id) {
      run := s.id;
    } else if s :| s in arriving && HasEntry(s, id) {
      run := s.id;
    }
  }

  /** An index that shows the mirror's line, or that line under an older focus, shows what the reading makes of it. */
  lemma IngestOver(before: seq<Posting>, held: seq<Session>, arriving: seq<Session>, run: string, id: string, there: Option<Line>)
    requires DistinctRuns(held) && DistinctRuns(arriving) && KeptIn(held, id, run) && KeptIn(arriving, id, run)
    requires there == LineUnder(held, id) || Keeps(there, LineUnder(held, id))
    requires Matching(before, EntryTerm(id)) == Posted(there)
    ensures Matching(Effect(before, IngestStaging(arriving, held)), EntryTerm(id)) == Posted(Taken(there, LineUnder(arriving, id)))
  {
    hide Matching, Effect, IngestStaging, RunUnder, LineUnder, GoneRuns;
    LineOfTheRun(held, id, run);
    LineOfTheRun(arriving, id, run);
    OneIngest(before, held, arriving, run, id);
  }

  /** A run that keeps its owner and an entry keeps its focus. */
  ghost predicate FocusStays(held: seq<Session>, arriving: seq<Session>) {
    forall s, a, e :: s in held && a in arriving && s.id == a.id && s.owner == a.owner && e in s.entries && e in a.entries
      ==> s.focus == a.focus
  }

  lemma {:induction false} LineIsHeld(sessions: seq<Session>, id: string)
    ensures LineUnder(sessions, id).Some? ==>
      exists s :: s in sessions && EntryUnder(s.entries, id).Some? && LineUnder(sessions, id) == LineIn(s, id)
    decreases |sessions|
  {
    if sessions != [] {
      var init, last := sessions[..|sessions| - 1], sessions[|sessions| - 1];
      assert sessions == init + [last] && last in sessions;
      LineIsHeld(init, id);
    }
  }

  lemma LineOf(sessions: seq<Session>, s: Session, e: JournalEntry)
    requires DistinctRuns(sessions) && s in sessions && e in s.entries
    ensures LineUnder(sessions, e.id) == Some(Line(s.id, s.owner, s.focus, e))
  {
    EntryUnderIsThere(s.entries, e.id);
    var i :| 0 <= i < |sessions| && sessions[i] == s;
    assert DistinctEntries(sessions[i].entries);
    assert HasEntry(s, e.id);
    NoLine(sessions, e.id);
    LineIsHeld(sessions, e.id);
  }

  lemma FocusOfALine(held: seq<Session>, arriving: seq<Session>, id: string)
    requires FocusStays(held, arriving) && Keeps(LineUnder(held, id), LineUnder(arriving, id))
    ensures LineUnder(held, id) == LineUnder(arriving, id)
  {
    LineIsHeld(held, id);
    LineIsHeld(arriving, id);
    var s :| s in held && EntryUnder(s.entries, id).Some? && LineUnder(held, id) == LineIn(s, id);
    var a :| a in arriving && EntryUnder(a.entries, id).Some? && LineUnder(arriving, id) == LineIn(a, id);
    EntryUnderIsThere(s.entries, id);
    EntryUnderIsThere(a.entries, id);
  }

  /**
   **Exactly when entry-level changes leave what deleting and rewriting every run
   would**: when every run that keeps an entry and its owner keeps its focus.
   */
  lemma EntryChangesRewriteAll(before: seq<Posting>, held: seq<Session>, arriving: seq<Session>)
    requires DistinctRuns(held) && DistinctRuns(arriving) && EntriesStay(held, arriving)
    requires EntriesMirror(before, held)
    ensures EntriesMirror(Effect(before, IngestStaging(arriving, held)), arriving) <==> FocusStays(held, arriving)
  {
    hide Matching, Effect, IngestStaging, RewriteAll, DistinctRuns, EntriesStay, LineUnder, FocusStays;
    var after := Effect(before, IngestStaging(arriving, held));
    forall id
      ensures Matching(after, EntryTerm(id)) == Matching(RewriteAll(arriving), EntryTerm(id)) <==>
        Posted(Taken(LineUnder(held, id), LineUnder(arriving, id))) == Posted(LineUnder(arriving, id))
    {
      var run := ItsRun(held, arriving, id);
      RewriteUnder(held, id);
      RewriteUnder(arriving, id);
      assert Matching(before, EntryTerm(id)) == Matching(RewriteAll(held), EntryTerm(id));
      IngestOver(before, held, arriving, run, id, LineUnder(held, id));
    }
    if FocusStays(held, arriving) {
      forall id
        ensures Taken(LineUnder(held, id), LineUnder(arriving, id)) == LineUnder(arriving, id)
      {
        if Keeps(LineUnder(held, id), LineUnder(arriving, id)) {
          FocusOfALine(held, arriving, id);
        }
      }
    } else {
      AKeptLineMoved(before, held, arriving);
    }
  }

  /** A run whose focus moved over an entry it kept. */
  lemma AKeptLineMoved(before: seq<Posting>, held: seq<Session>, arriving: seq<Session>)
    requires DistinctRuns(held) && DistinctRuns(arriving) && !FocusStays(held, arriving)
    ensures exists id :: Posted(Taken(LineUnder(held, id), LineUnder(arriving, id))) != Posted(LineUnder(arriving, id))
  {
    hide LineUnder, DistinctRuns;
    var s, a, e :| s in held && a in arriving && s.id == a.id && s.owner == a.owner && e in s.entries && e in a.entries
      && s.focus != a.focus;
    LineOf(held, s, e);
    LineOf(arriving, a, e);
    assert Taken(LineUnder(held, e.id), LineUnder(arriving, e.id)) == LineUnder(held, e.id);
  }

  /** **A focus that moves stays behind in the entries that did not**: the run is rewritten, and its entry is not. */
  lemma AFocusStaysBehind(s: Session, e: JournalEntry, focus: string)
    requires s.entries == [e] && focus != s.focus
    ensures
      var moved := s.(focus := focus);
      var after := Effect(RewriteAll([s]), IngestStaging([moved], [s]));
      && ChangedRuns([moved], [s]) == [moved]
      && Matching(after, EntryTerm(e.id)) == [PostingOf(s, e)] != Matching(RewriteAll([moved]), EntryTerm(e.id))
  {
    hide Matching, Effect, IngestStaging, RewriteAll;
    var moved := s.(focus := focus);
    assert [moved][..0] == [] && [s][..0] == [];
    assert EntryUnder([e], e.id) == Some(e);
    RewriteUnder([s], e.id);
    RewriteUnder([moved], e.id);
    IngestOver(RewriteAll([s]), [s], [moved], s.id, e.id, LineUnder([s], e.id));
  }

  function Unfocused(p: Posting): Posting {
    if p.EntryPosting? then p.(focus := "") else p
  }

  /** The postings with every entry's focus blotted out. */
  function SaveFocus(ps: seq<Posting>): (r: seq<Posting>)
    ensures |r| == |ps|
    ensures forall i :: 0 <= i < |ps| ==> r[i] == Unfocused(ps[i])
  {
    seq(|ps|, i requires 0 <= i < |ps| => Unfocused(ps[i]))
  }

  lemma SaveFocusPush(ps: seq<Posting>, p: Posting)
    ensures SaveFocus(ps + [p]) == SaveFocus(ps) + [Unfocused(p)]
  {
  }

  lemma {:induction false} MatchingSaveFocus(index: seq<Posting>, t: Term)
    ensures Matching(SaveFocus(index), t) == SaveFocus(Matching(index, t))
    decreases |index|
  {
    hide SaveFocus;
    if index != [] {
      var init, last := index[..|index| - 1], index[|index| - 1];
      assert index == init + [last];
      MatchingSaveFocus(init, t);
      SaveFocusPush(init, last);
      SaveFocusPush(Matching(init, t), last);
      hide Matching;
      MatchingPush(SaveFocus(init), Unfocused(last), t);
      MatchingPush(init, last, t);
    }
  }

  // ---- What the readings taken in so far leave in the index ----

  /** The mirror after these readings. */
  function Mirror(readings: seq<seq<Session>>): seq<Session> {
    if readings == [] then [] else readings[|readings| - 1]
  }

  /** An entry as it was last written: with the focus its run had then. */
  function Told(readings: seq<seq<Session>>, id: string): Option<Line>
    decreases |readings|
  {
    if readings == [] then None
    else Taken(Told(readings[..|readings| - 1], id), LineUnder(readings[|readings| - 1], id))
  }

  ghost predicate AsTold(index: seq<Posting>, readings: seq<seq<Session>>) {
    forall id :: Matching(index, EntryTerm(id)) == Posted(Told(readings, id))
  }

  /** What was written last is what the mirror holds, but for the focus. */
  lemma ToldIsTheLine(readings: seq<seq<Session>>, id: string)
    ensures
      var line := LineUnder(Mirror(readings), id);
      Told(readings, id) == line || Keeps(Told(readings, id), line)
  {
  }

  /** **Over any run of ingests each entry is found once, as it was last written.** */
  lemma IngestTells(before: seq<Posting>, readings: seq<seq<Session>>, arriving: seq<Session>)
    requires AsTold(before, readings)
    requires DistinctRuns(Mirror(readings)) && DistinctRuns(arriving) && EntriesStay(Mirror(readings), arriving)
    ensures AsTold(Effect(before, IngestStaging(arriving, Mirror(readings))), readings + [arriving])
  {
    hide Matching, Effect, IngestStaging, LineUnder, DistinctRuns, EntriesStay, Mirror;
    var held, next := Mirror(readings), readings + [arriving];
    assert next[..|next| - 1] == readings;
    forall id
      ensures Matching(Effect(before, IngestStaging(arriving, held)), EntryTerm(id)) == Posted(Told(next, id))
    {
      var run := ItsRun(held, arriving, id);
      ToldIsTheLine(readings, id);
      assert Matching(before, EntryTerm(id)) == Posted(Told(readings, id));
      IngestOver(before, held, arriving, run, id, Told(readings, id));
    }
  }

  lemma ToldUnder(index: seq<Posting>, readings: seq<seq<Session>>, id: string)
    requires AsTold(index, readings) && DistinctRuns(Mirror(readings))
    ensures Matching(index, EntryTerm(id)) == Matching(RewriteAll(Mirror(readings)), EntryTerm(id)) <==>
      Told(readings, id) == LineUnder(Mirror(readings), id)
  {
    hide Matching, Told, LineUnder, RewriteAll, DistinctRuns, Mirror;
    RewriteUnder(Mirror(readings), id);
    ToldIsTheLine(readings, id);
  }

  /** **The index is a rewrite of the mirrored runs exactly when each entry was written under its run's present focus.** */
  lemma ToldIsARewrite(index: seq<Posting>, readings: seq<seq<Session>>)
    requires AsTold(index, readings) && DistinctRuns(Mirror(readings))
    ensures EntriesMirror(index, Mirror(readings)) <==> forall id :: Told(readings, id) == LineUnder(Mirror(readings), id)
  {
    hide Matching, Told, LineUnder, RewriteAll, DistinctRuns, Mirror, AsTold;
    if EntriesMirror(index, Mirror(readings)) {
      forall id
        ensures Told(readings, id) == LineUnder(Mirror(readings), id)
      {
        ToldUnder(index, readings, id);
      }
    } else {
      var id :| Matching(index, EntryTerm(id)) != Matching(RewriteAll(Mirror(readings)), EntryTerm(id));
      ToldUnder(index, readings, id);
    }
  }

  /** **Ingests leave the keys of the other halves alone.** */
  lemma OtherKeysStay(before: seq<Posting>, held: seq<Session>, arriving: seq<Session>, t: Term)
    requires DistinctRuns(arriving) && !t.EntryTerm? && !t.RunTerm?
    ensures Matching(Effect(before, IngestStaging(arriving, held)), t) == Matching(before, t)
  {
    hide Matching, Effect, EvictStaging, RunsStaging, ChangedRuns, GoneRuns;
    var gone, changed := GoneRuns(arriving, held), ChangedRuns(arriving, held);
    EffectConcat(before, EvictStaging(gone), RunsStaging(held, changed));
    EvictedLeave(before, gone, "", t);
    RunsLand(Effect(before, EvictStaging(gone)), held, changed, "", t);
  }
}
