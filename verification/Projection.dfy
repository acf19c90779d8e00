/**
 The search projection: an index kept equal to a full rescan by writing only
 the differences. Any added document, any commit and any reload may fail.
 */
module Projection {
  import opened Wrappers
  import opened Postings
  import opened Records
  import opened Journal
  import Debt = ReloadDebt
  import Marks

  datatype IngestError = WriteFailed | ReloadFailed

  /** The newest stamp given before the reading: later stamps are not its to clear. */
  datatype ReadingPoint = ReadingPoint(at: nat)

  /**
   Under every key the index holds what the mirrors' records are written as, and an
   entry of a run as the readings of the runs had it last written.
   */
  ghost predicate Projects(index: seq<Posting>, docs: seq<Doc>, messages: seq<Message>, readings: seq<seq<Session>>) {
    && DistinctKeys(docs) && DistinctKeys(messages) && DistinctRuns(Mirror(readings))
    && (forall t: Term :: t.DocTerm? ==> Mirrors(index, docs, t))
    && (forall t: Term :: t.MessageTerm? ==> Mirrors(index, messages, t))
    && AsTold(index, readings)
  }

  class FullTextIndex {
    /** The committed postings, and the operations staged in the shared writer. */
    var committed: seq<Posting>
    var staged: seq<Staged>
    /** What the reader sees: the postings as of its last reload. */
    var visible: seq<Posting>
    const debt: Debt.ReloadDebt
    /** The mirrors: the records the postings were written from. */
    var docs: seq<Doc>
    var messages: seq<Message>
    var sessions: seq<Session>
    /** The readings of the runs taken in so far; the last is the mirror. */
    ghost var readings: seq<seq<Session>>
    /** How many additions, commits and reloads failed. */
    ghost var faults: nat
    /** The behind marks, and the stamps of the failed refreshes; zero for none. */
    var behind: map<string, nat>
    var markSeq: nat
    var memoryFailedAt: nat
    var mailFailedAt: nat
    var sessionFailedAt: nat

    ghost predicate Mirrored()
      reads this
    {
      Projects(committed, docs, messages, readings) && sessions == Mirror(readings)
    }

    ghost predicate Valid()
      reads this, debt
    {
      && staged == []
      && Mirrored()
      && debt.Valid()
      && (debt.owed == 0 ==> visible == committed)
    }

    constructor ()
      ensures Valid() && committed == [] && docs == [] && messages == [] && sessions == [] && readings == []
      ensures MarksUnchanged(map[], 0, 0, 0) && markSeq == 0
    {
      committed, staged, visible, docs, messages, sessions := [], [], [], [], [], [];
      behind, markSeq, memoryFailedAt, mailFailedAt, sessionFailedAt := map[], 0, 0, 0, 0;
      readings, faults := [], 0;
      debt := new Debt.ReloadDebt();
    }

    ghost function Effective(): seq<Posting>
      reads this
    {
      Effect(committed, staged)
    }

    // The index writer.

    method DeleteTerm(t: Term)
      modifies `staged
      ensures Effective() == Without(old(Effective()), t) && staged == old(staged) + [Delete(t)]
    {
      EffectPush(committed, staged, Delete(t));
      staged := staged + [Delete(t)];
    }

    method AddDocument(p: Posting) returns (ok: bool)
      modifies `staged, `faults
      ensures ok ==> Effective() == old(Effective()) + [p] && staged == old(staged) + [Add(p)]
      ensures if ok then faults == old(faults) else faults > old(faults)
    {
      if * {
        faults := faults + 1;
        return false;
      }
      EffectPush(committed, staged, Add(p));
      staged := staged + [Add(p)];
      ok := true;
    }

    method Rollback()
      modifies `staged
      ensures staged == []
    {
      staged := [];
    }

    /** A commit that fails leaves its staging behind, so it is rolled back here. */
    method CommitOrRollback() returns (ok: bool)
      requires debt.Valid()
      modifies `committed, `staged, `faults, debt
      ensures staged == [] && debt.Valid() && debt.owed == old(debt.owed)
      ensures committed == if ok then old(Effective()) else old(committed)
      ensures debt.commits == old(debt.commits) + if ok then 1 else 0
      ensures if ok then faults == old(faults) else faults > old(faults)
    {
      ok := *;
      if ok {
        committed := Effect(committed, staged);
        staged := [];
        debt.Committed();
      } else {
        faults := faults + 1;
        Rollback();
      }
    }

    method ReloadReader() returns (ok: bool)
      requires debt.Valid()
      modifies `visible, `faults, debt
      ensures debt.Valid() && debt.commits == old(debt.commits)
      ensures if ok then visible == committed && debt.owed == 0 else visible == old(visible) && debt.owed != 0
      ensures if ok then faults == old(faults) else faults > old(faults)
    {
      var covers := debt.commits;
      ok := *;
      if ok {
        visible := committed;
      } else {
        faults := faults + 1;
      }
      debt.Settle(covers, ok);
    }

    // The two record halves.

    method WriteFacts(docId: string, facts: seq<string>) returns (ok: bool)
      modifies `staged, `faults
      ensures ok ==> Effective() == old(Effective()) + FactPostings(docId, facts)
      ensures if ok then faults == old(faults) else faults > old(faults)
    {
      hide Effect;
      ghost var postings := FactPostings(docId, facts);
      for i := 0 to |facts|
        invariant Effective() == old(Effective()) + postings[..i]
        invariant faults == old(faults)
      {
        assert old(Effective()) + postings[..i] + [postings[i]] == old(Effective()) + postings[..i + 1];
        var added := AddDocument(DocPosting(docId, facts[i]));
        if !added {
          return false;
        }
      }
      assert postings[..|facts|] == postings;
      ok := true;
    }

    /** Stages exactly what a rebuild writes for this document, or reports a fault. */
    method WriteDoc(doc: Doc) returns (ok: bool)
      modifies `staged, `faults
      ensures ok ==> Effective() == old(Effective()) + Written(doc)
      ensures if ok then faults == old(faults) else faults > old(faults)
    {
      hide Effect, FactPostings;
      ghost var start := Effective();
      ghost var own := [];
      if doc.entity.Some? && doc.entity.value.browsable {
        own := [DocPosting(doc.docId, doc.entity.value.labels)];
        var added := AddDocument(DocPosting(doc.docId, doc.entity.value.labels));
        if !added {
          return false;
        }
      }
      var wrote := WriteFacts(doc.docId, doc.facts);
      if !wrote {
        return false;
      }
      ghost var facts := FactPostings(doc.docId, doc.facts);
      assert Effective() == start + (own + facts);
      if !Blank(doc.prose) {
        var added := AddDocument(DocPosting(doc.docId, doc.prose));
        if !added {
          return false;
        }
        assert Effective() == start + (own + facts + [DocPosting(doc.docId, doc.prose)]);
      } else {
        assert own + facts + [] == own + facts;
      }
      ok := true;
    }

    method WriteRecord(r: Record) returns (ok: bool)
      modifies `staged, `faults
      ensures ok ==> Effective() == old(Effective()) + Written(r)
      ensures if ok then faults == old(faults) else faults > old(faults)
    {
      if r.MessageRecord? {
        ok := AddDocument(MessagePosting(r.messageId, r.envelope));
      } else {
        ok := WriteDoc(r);
      }
    }

    method DeleteAll(terms: seq<Term>)
      requires forall t :: t in terms ==> !t.RunTerm?
      modifies `staged
      ensures forall t: Term :: !t.RunTerm? ==>
        Matching(Effective(), t) == if t in terms then [] else Matching(old(Effective()), t)
    {
      hide Matching, Without, Effect;
      for i := 0 to |terms|
        invariant forall t: Term :: !t.RunTerm? ==>
          Matching(Effective(), t) == if t in terms[..i] then [] else Matching(old(Effective()), t)
      {
        ghost var before := Effective();
        DeleteTerm(terms[i]);
        forall t: Term | !t.RunTerm?
          ensures Matching(Effective(), t) == if t == terms[i] then [] else Matching(before, t)
        {
          WithoutKey(before, terms[i], t);
        }
        assert terms[..i + 1] == terms[..i] + [terms[i]];
      }
      assert terms[..|terms|] == terms;
    }

    /** Delete the evicted and rewritten keys, write the records, and commit. */
    method Rewrite(evict: seq<Term>, rewrite: seq<Record>) returns (ok: bool)
      requires staged == [] && debt.Valid() && forall t :: t in evict ==> !t.RunTerm?
      modifies `staged, `committed, `faults, debt
      ensures staged == [] && debt.Valid() && debt.owed == old(debt.owed)
      ensures if ok then Rewritten(old(committed), committed, evict, rewrite) else committed == old(committed)
      ensures if ok then faults == old(faults) else faults > old(faults)
    {
      hide Matching, Without, Written, Rebuild;
      assert Effective() == committed;
      var keys := seq(|rewrite|, i requires 0 <= i < |rewrite| => KeyTerm(rewrite[i]));
      DeleteAll(evict + keys);
      KeysOfRecords(rewrite, keys);
      ghost var cleared := Effective();
      RebuildNothing();
      for i := 0 to |rewrite|
        modifies `staged, `faults
        invariant Effective() == cleared + Rebuild(rewrite[..i])
        invariant faults == old(faults)
      {
        RebuildPush(rewrite, i);
        var wrote := WriteRecord(rewrite[i]);
        if !wrote {
          Rollback();
          return false;
        }
        assert Effective() == cleared + Rebuild(rewrite[..i]) + Written(rewrite[i]);
        assert cleared + Rebuild(rewrite[..i]) + Written(rewrite[i]) == cleared + Rebuild(rewrite[..i + 1]);
      }
      assert rewrite[..|rewrite|] == rewrite;
      ok := CommitOrRollback();
      if ok {
        forall t: Term | !t.RunTerm?
          ensures Matching(committed, t) == Matching(cleared, t) + Matching(Rebuild(rewrite), t)
        {
          MatchingConcat(cleared, Rebuild(rewrite), t);
        }
      }
    }

    // The marks.

    method Stamp() returns (at: nat)
      modifies `markSeq
      ensures at == markSeq == old(markSeq) + 1
    {
      markSeq := markSeq + 1;
      at := markSeq;
    }

    method Behind(entity: string)
      requires Valid()
      modifies `markSeq, `behind
      ensures Valid() && markSeq == old(markSeq) + 1 && behind == old(behind)[entity := markSeq]
    {
      var at := Stamp();
      behind := behind[entity := at];
    }

    method Current(entity: string)
      requires Valid()
      modifies `behind
      ensures Valid() && behind == old(behind) - {entity}
    {
      behind := behind - {entity};
    }

    method RefreshFailed()
      requires Valid()
      modifies `markSeq, `memoryFailedAt
      ensures Valid() && memoryFailedAt == markSeq == old(markSeq) + 1
    {
      memoryFailedAt := Stamp();
    }

    method MailRefreshFailed()
      requires Valid()
      modifies `markSeq, `mailFailedAt
      ensures Valid() && mailFailedAt == markSeq == old(markSeq) + 1
    {
      mailFailedAt := Stamp();
    }

    method SessionRefreshFailed()
      requires Valid()
      modifies `markSeq, `sessionFailedAt
      ensures Valid() && sessionFailedAt == markSeq == old(markSeq) + 1
    {
      sessionFailedAt := Stamp();
    }

    method ReadingBegins() returns (began: ReadingPoint)
      ensures began.at == markSeq
    {
      began := ReadingPoint(markSeq);
    }

    static function Cleared(failedAt: nat, began: ReadingPoint): nat {
      if failedAt != 0 && failedAt <= began.at then 0 else failedAt
    }

    /** The marks a reading leaves: those made after it began. */
    static function StillBehind(behind: map<string, nat>, began: ReadingPoint): map<string, nat> {
      map e | e in behind && behind[e] > began.at :: behind[e]
    }

    // Whole readings.

    ghost predicate MarksUnchanged(b: map<string, nat>, memory: nat, mail: nat, session: nat)
      reads this
    {
      behind == b && memoryFailedAt == memory && mailFailedAt == mail && sessionFailedAt == session
    }

    /** After the write half of an ingest: reload when it wrote or the reader owes one. */
    method Answer(changed: nat) returns (r: Result<nat, IngestError>)
      requires staged == [] && Mirrored() && debt.Valid()
      requires changed == 0 && debt.owed == 0 ==> visible == committed
      modifies `visible, `faults, debt
      ensures Valid()
      ensures if r.Ok? then r.value == changed && visible == committed && debt.owed == 0
        else r.error == ReloadFailed && debt.owed != 0
      ensures if r.Ok? then faults == old(faults) else faults > old(faults)
      ensures changed == 0 && old(debt.owed) == 0 ==> r == Ok(0)
    {
      if changed > 0 || debt.owed != 0 {
        var reloaded := ReloadReader();
        if !reloaded {
          return Err(ReloadFailed);
        }
      }
      r := Ok(changed);
    }

    /** Rewrite documents and, once the commit landed, replace the mirror. */
    method WriteDocs(evict: seq<Term>, rewrite: seq<Record>, next: seq<Record>) returns (ok: bool)
      requires (forall r :: r in rewrite ==> r.DocRecord?) && (forall r :: r in next ==> r.DocRecord?)
      requires Valid() && DistinctKeys(next) && (forall t :: t in evict ==> t.DocTerm?)
      requires Brings(committed, evict, rewrite, docs, next)
      modifies `committed, `staged, `docs, `faults, debt
      ensures staged == [] && Mirrored() && debt.Valid()
      ensures if ok then docs == next else Valid() && docs == old(docs) && committed == old(committed)
      ensures if ok then faults == old(faults) else faults > old(faults)
    {
      hide Matching, Rewritten, Mirrors, DistinctRuns, AsTold, DistinctKeys;
      ghost var before := committed;
      ok := Rewrite(evict, rewrite);
      if ok {
        OtherHalvesStay(before, committed, evict, rewrite);
        DocsLeaveTheRest(before, committed, evict, rewrite, messages, readings);
        docs := next;
      }
    }

    method WriteMessages(evict: seq<Term>, rewrite: seq<Record>, next: seq<Record>) returns (ok: bool)
      requires (forall r :: r in rewrite ==> r.MessageRecord?) && (forall r :: r in next ==> r.MessageRecord?)
      requires Valid() && DistinctKeys(next) && (forall t :: t in evict ==> t.MessageTerm?)
      requires Brings(committed, evict, rewrite, messages, next)
      modifies `committed, `staged, `messages, `faults, debt
      ensures staged == [] && Mirrored() && debt.Valid()
      ensures if ok then messages == next else Valid() && messages == old(messages) && committed == old(committed)
      ensures if ok then faults == old(faults) else faults > old(faults)
    {
      hide Matching, Rewritten, Mirrors, DistinctRuns, AsTold, DistinctKeys;
      ghost var before := committed;
      ok := Rewrite(evict, rewrite);
      if ok {
        OtherHalvesStay(before, committed, evict, rewrite);
        MessagesLeaveTheRest(before, committed, evict, rewrite, docs, readings);
        messages := next;
      }
    }

    /** What the ingest of a scan clears: the marks and the failure stamped before it began. */
    method ClearMarks(began: ReadingPoint)
      modifies `behind, `memoryFailedAt
      ensures forall e :: e in behind <==> e in old(behind) && old(behind)[e] > began.at
      ensures forall e :: e in behind ==> behind[e] == old(behind)[e]
      ensures memoryFailedAt == if old(memoryFailedAt) <= began.at then 0 else old(memoryFailedAt)
    {
      behind := StillBehind(behind, began);
      memoryFailedAt := Cleared(memoryFailedAt, began);
    }

    /** A successful call leaves the memory half a rebuild of `scan`; a failed write leaves all as it was. */
    method IngestChanges(scan: seq<Doc>, began: ReadingPoint) returns (r: Result<nat, IngestError>)
      requires Valid() && DistinctKeys(scan)
      modifies this, debt
      ensures Valid()
      ensures messages == old(messages) && sessions == old(sessions) && readings == old(readings) && markSeq == old(markSeq)
      ensures r == Err(WriteFailed) ==>
        && committed == old(committed) && docs == old(docs) && visible == old(visible)
        && MarksUnchanged(old(behind), old(memoryFailedAt), old(mailFailedAt), old(sessionFailedAt))
      ensures r != Err(WriteFailed) ==>
        && SameRecords(docs, scan)
        && (forall e :: e in behind <==> e in old(behind) && old(behind)[e] > began.at)
        && (forall e :: e in behind ==> behind[e] == old(behind)[e])
        && memoryFailedAt == (if old(memoryFailedAt) <= began.at then 0 else old(memoryFailedAt))
        && mailFailedAt == old(mailFailedAt) && sessionFailedAt == old(sessionFailedAt)
      ensures r.Ok? ==> visible == committed && (r.value == 0 <==> SameRecords(old(docs), scan))
      ensures if r.Ok? then faults == old(faults) else faults > old(faults)
      ensures old(debt.owed) == 0 && SameRecords(old(docs), scan) ==> r == Ok(0) && committed == old(committed)
    {
      hide Matching, Rewritten, Mirrors, DistinctRuns, AsTold, Changed, Gone, DistinctKeys, Brings;
      var rewrite, evict := Changed(scan, docs), Gone(scan, docs);
      NothingChangedIsTheSame(scan, docs);
      DifferencesBring(committed, docs, scan);
      GoneAreHeldKeys(scan, docs);
      var changed := |rewrite| + |evict|;
      if changed > 0 {
        var wrote := WriteDocs(evict, rewrite, scan);
        if !wrote {
          return Err(WriteFailed);
        }
      }
      ClearMarks(began);
      r := Answer(changed);
    }

    /** The mail half alike, with its own failure stamp. */
    method IngestMailChanges(board: seq<Message>, began: ReadingPoint) returns (r: Result<nat, IngestError>)
      requires Valid() && DistinctKeys(board)
      modifies this, debt
      ensures Valid()
      ensures docs == old(docs) && sessions == old(sessions) && readings == old(readings) && markSeq == old(markSeq)
      ensures r == Err(WriteFailed) ==>
        && committed == old(committed) && messages == old(messages) && visible == old(visible)
        && MarksUnchanged(old(behind), old(memoryFailedAt), old(mailFailedAt), old(sessionFailedAt))
      ensures r != Err(WriteFailed) ==>
        && SameRecords(messages, board)
        && MarksUnchanged(old(behind), old(memoryFailedAt), mailFailedAt, old(sessionFailedAt))
        && mailFailedAt == if old(mailFailedAt) <= began.at then 0 else old(mailFailedAt)
      ensures r.Ok? ==> visible == committed && (r.value == 0 <==> SameRecords(old(messages), board))
      ensures if r.Ok? then faults == old(faults) else faults > old(faults)
      ensures old(debt.owed) == 0 && SameRecords(old(messages), board) ==> r == Ok(0) && committed == old(committed)
    {
      hide Matching, Rewritten, Mirrors, DistinctRuns, AsTold, Changed, Gone, DistinctKeys, Brings;
      var rewrite, evict := Changed(board, messages), Gone(board, messages);
      NothingChangedIsTheSame(board, messages);
      DifferencesBring(committed, messages, board);
      GoneAreHeldKeys(board, messages);
      var changed := |rewrite| + |evict|;
      if changed > 0 {
        var wrote := WriteMessages(evict, rewrite, board);
        if !wrote {
          return Err(WriteFailed);
        }
      }
      mailFailedAt := Cleared(mailFailedAt, began);
      r := Answer(changed);
    }

    /** Index and mirror both hold `doc` and nothing else under its id, or neither changed. */
    method IngestDoc(doc: Doc) returns (r: Result<(), IngestError>)
      requires Valid()
      modifies this, debt
      ensures Valid()
      ensures messages == old(messages) && sessions == old(sessions) && readings == old(readings) && markSeq == old(markSeq)
      ensures MarksUnchanged(old(behind), old(memoryFailedAt), old(mailFailedAt), old(sessionFailedAt))
      ensures if r == Err(WriteFailed)
        then committed == old(committed) && docs == old(docs) && visible == old(visible)
        else docs == Retained(old(docs), KeyTerm(doc)) + [doc]
      ensures r.Ok? ==> visible == committed
      ensures if r.Ok? then faults == old(faults) else faults > old(faults)
    {
      hide Matching, Rewritten, Mirrors, DistinctRuns, AsTold, DistinctKeys;
      ReplacingBrings(committed, docs, doc);
      var wrote := WriteDocs([], [doc], Retained(docs, KeyTerm(doc)) + [doc]);
      if !wrote {
        return Err(WriteFailed);
      }
      var reloaded := ReloadReader();
      r := if reloaded then Ok(()) else Err(ReloadFailed);
    }

    /** Index and mirror both hold `message` and nothing else under its id, or neither changed. */
    method IngestMessage(message: Message) returns (r: Result<(), IngestError>)
      requires Valid()
      modifies this, debt
      ensures Valid()
      ensures docs == old(docs) && sessions == old(sessions) && readings == old(readings) && markSeq == old(markSeq)
      ensures MarksUnchanged(old(behind), old(memoryFailedAt), old(mailFailedAt), old(sessionFailedAt))
      ensures if r == Err(WriteFailed)
        then committed == old(committed) && messages == old(messages) && visible == old(visible)
        else messages == Retained(old(messages), KeyTerm(message)) + [message]
      ensures r.Ok? ==> visible == committed
      ensures if r.Ok? then faults == old(faults) else faults > old(faults)
    {
      hide Matching, Rewritten, Mirrors, DistinctRuns, AsTold, DistinctKeys;
      ReplacingBrings(committed, messages, message);
      var wrote := WriteMessages([], [message], Retained(messages, KeyTerm(message)) + [message]);
      if !wrote {
        return Err(WriteFailed);
      }
      var reloaded := ReloadReader();
      r := if reloaded then Ok(()) else Err(ReloadFailed);
    }

    /** The document id an entity is mirrored under, from the first that declares it. */
    method DocOf(entity: string) returns (key: Option<Term>)
      ensures key.None? ==> forall d :: d in docs ==> !Declares(d, entity)
      ensures key.Some? ==> key.value.DocTerm? && exists i :: 0 <= i < |docs| && IsFirst(docs, i, entity) && KeyTerm(docs[i]) == key.value
    {
      for i := 0 to |docs|
        invariant forall j :: 0 <= j < i ==> !Declares(docs[j], entity)
      {
        if Declares(docs[i], entity) {
          assert IsFirst(docs, i, entity);
          return Some(KeyTerm(docs[i]));
        }
      }
      key := None;
    }

    /** Drop everything indexed under the entity's document. */
    method Forget(entity: string) returns (r: Result<(), IngestError>)
      requires Valid()
      modifies this, debt
      ensures Valid()
      ensures messages == old(messages) && sessions == old(sessions) && readings == old(readings) && markSeq == old(markSeq)
      ensures MarksUnchanged(old(behind), old(memoryFailedAt), old(mailFailedAt), old(sessionFailedAt))
      ensures r == Err(WriteFailed) ==> committed == old(committed) && docs == old(docs) && visible == old(visible)
      ensures r != Err(WriteFailed) ==>
        if exists d :: d in old(docs) && d.entity.Some? && d.entity.value.id == entity
        then exists i :: 0 <= i < |old(docs)| && IsFirst(old(docs), i, entity) && docs == Retained(old(docs), KeyTerm(old(docs)[i]))
        else r.Ok? && docs == old(docs) && committed == old(committed)
      ensures r.Ok? && committed != old(committed) ==> visible == committed
      ensures if r.Ok? then faults == old(faults) else faults > old(faults)
    {
      hide Matching, Rewritten, Mirrors, DistinctRuns, AsTold, DistinctKeys;
      var key := DocOf(entity);
      if key.None? {
        return Ok(());
      }
      EvictingBrings(committed, docs, key.value);
      var wrote := WriteDocs([key.value], [], Retained(docs, key.value));
      if !wrote {
        return Err(WriteFailed);
      }
      var reloaded := ReloadReader();
      r := if reloaded then Ok(()) else Err(ReloadFailed);
    }

    // The session half.

    /** The entries of one run: add the new, replace the changed, keep the rest. */
    method StageEntries(was: Option<Session>, s: Session) returns (ok: bool)
      modifies `staged, `faults
      ensures ok ==> staged == old(staged) + EntriesStaging(was, s, s.entries)
      ensures if ok then faults == old(faults) else faults > old(faults)
    {
      hide Effect, Without;
      var ownerMoved := was.Some? && was.value.owner != s.owner;
      for i := 0 to |s.entries|
        invariant staged == old(staged) + EntriesStaging(was, s, s.entries[..i])
        invariant faults == old(faults)
      {
        var e := s.entries[i];
        var held := if was.Some? then EntryUnder(was.value.entries, e.id) else None;
        assert s.entries[..i + 1][..i] == s.entries[..i];
        if held.None? || held.value != e || ownerMoved {
          if held.Some? {
            DeleteTerm(EntryTerm(e.id));
          }
          var added := AddDocument(PostingOf(s, e));
          if !added {
            return false;
          }
        }
      }
      assert s.entries[..|s.entries|] == s.entries;
      ok := true;
    }

    /** The entries the run no longer holds leave by their own keys. */
    method StageRemoved(was: Session, s: Session)
      modifies `staged
      ensures staged == old(staged) + RemovedStaging(s, was.entries)
    {
      hide Effect, Without;
      for i := 0 to |was.entries|
        invariant staged == old(staged) + RemovedStaging(s, was.entries[..i])
      {
        assert was.entries[..i + 1][..i] == was.entries[..i];
        if !HasEntry(s, was.entries[i].id) {
          DeleteTerm(EntryTerm(was.entries[i].id));
        }
      }
      assert was.entries[..|was.entries|] == was.entries;
    }

    /** The runs that are gone leave by the run's own term. */
    method StageEvicted(evict: seq<string>)
      modifies `staged
      ensures staged == old(staged) + EvictStaging(evict)
    {
      hide Effect, Without;
      for i := 0 to |evict|
        invariant staged == old(staged) + EvictStaging(evict[..i])
      {
        assert evict[..i + 1][..i] == evict[..i];
        DeleteTerm(RunTerm(evict[i]));
      }
      assert evict[..|evict|] == evict;
    }

    method StageRuns(rewrite: seq<Session>) returns (ok: bool)
      modifies `staged, `faults
      ensures ok ==> staged == old(staged) + RunsStaging(sessions, rewrite)
      ensures if ok then faults == old(faults) else faults > old(faults)
    {
      hide Effect, EntriesStaging, RemovedStaging, RunsStaging, RunUnder;
      NoRuns(sessions);
      for i := 0 to |rewrite|
        invariant staged == old(staged) + RunsStaging(sessions, rewrite[..i])
        invariant faults == old(faults)
      {
        OneMoreRun(sessions, rewrite, i);
        var was := RunUnder(sessions, rewrite[i].id);
        var entries := StageEntries(was, rewrite[i]);
        if !entries {
          return false;
        }
        if was.Some? {
          StageRemoved(was.value, rewrite[i]);
        }
      }
      assert rewrite[..|rewrite|] == rewrite;
      ok := true;
    }

    /** Evict the runs that are gone and bring the changed ones up to date. */
    method StageIngest(runs: seq<Session>) returns (ok: bool)
      modifies `staged, `faults
      ensures ok ==> staged == old(staged) + IngestStaging(runs, sessions)
      ensures if ok then faults == old(faults) else faults > old(faults)
    {
      hide Effect, EvictStaging, RunsStaging, GoneRuns, ChangedRuns;
      StageEvicted(GoneRuns(runs, sessions));
      ok := StageRuns(ChangedRuns(runs, sessions));
    }

    /** Stage what differs, and commit. */
    method WriteRuns(runs: seq<Session>) returns (ok: bool)
      requires Valid() && DistinctRuns(runs) && EntriesStay(sessions, runs)
      modifies `committed, `staged, `sessions, `readings, `faults, debt
      ensures staged == [] && Mirrored() && debt.Valid()
      ensures if ok
        then sessions == runs && readings == old(readings) + [runs]
          && committed == Effect(old(committed), IngestStaging(runs, old(sessions)))
        else Valid() && sessions == old(sessions) && readings == old(readings) && committed == old(committed)
      ensures if ok then faults == old(faults) else faults > old(faults)
    {
      hide Matching, Effect, DistinctRuns, AsTold, EntriesStay, IngestStaging, Mirrors, DistinctKeys;
      var brought := StageIngest(runs);
      if !brought {
        Rollback();
        return false;
      }
      assert [] + IngestStaging(runs, sessions) == IngestStaging(runs, sessions);
      ghost var before := committed;
      ok := CommitOrRollback();
      if ok {
        IngestTells(before, readings, runs);
        RunsLeaveTheRest(before, sessions, runs, docs, messages);
        sessions := runs;
        readings := readings + [runs];
      }
    }

    /** Write what differs, if anything does. */
    method BringRuns(runs: seq<Session>) returns (ok: bool, changed: nat)
      requires Valid() && DistinctRuns(runs) && EntriesStay(sessions, runs)
      modifies `committed, `staged, `sessions, `readings, `faults, debt
      ensures staged == [] && Mirrored() && debt.Valid()
      ensures changed == 0 <==> SameRuns(old(sessions), runs)
      ensures changed == 0 ==> ok && Valid() && committed == old(committed) && debt.owed == old(debt.owed)
      ensures if ok
        then SameRuns(sessions, runs) && readings == (if changed == 0 then old(readings) else old(readings) + [runs])
          && committed == Effect(old(committed), IngestStaging(runs, old(sessions)))
        else Valid() && readings == old(readings) && committed == old(committed)
      ensures if ok then faults == old(faults) else faults > old(faults)
    {
      hide Matching, Effect, Mirrors, DistinctRuns, AsTold, ChangedRuns, GoneRuns, DistinctKeys, EntriesStay, IngestStaging;
      hide SameRuns;
      NothingChangedIsTheSameRuns(runs, sessions);
      changed := |ChangedRuns(runs, sessions)| + |GoneRuns(runs, sessions)|;
      SameRunsAsItself(runs);
      if changed > 0 {
        ok := WriteRuns(runs);
      } else {
        NothingStaged(committed, runs, sessions);
        ok := true;
      }
    }

    /** A successful call brings the session half to `runs`, entry by entry. */
    method IngestSessionsChanges(runs: seq<Session>, began: ReadingPoint) returns (r: Result<nat, IngestError>)
      requires Valid() && DistinctRuns(runs) && EntriesStay(sessions, runs)
      modifies this, debt
      ensures Valid()
      ensures docs == old(docs) && messages == old(messages) && markSeq == old(markSeq)
      ensures MarksUnchanged(old(behind), old(memoryFailedAt), old(mailFailedAt), sessionFailedAt)
      ensures sessionFailedAt == if old(sessionFailedAt) <= began.at then 0 else old(sessionFailedAt)
      ensures r == Err(WriteFailed) ==> readings == old(readings) && committed == old(committed) && visible == old(visible)
      ensures r != Err(WriteFailed) ==>
        && SameRuns(sessions, runs)
        && readings == (if SameRuns(old(sessions), runs) then old(readings) else old(readings) + [runs])
        && committed == Effect(old(committed), IngestStaging(runs, old(sessions)))
      ensures r.Ok? ==> visible == committed && (r.value == 0 <==> SameRuns(old(sessions), runs))
      ensures if r.Ok? then faults == old(faults) else faults > old(faults)
      ensures old(debt.owed) == 0 && SameRuns(old(sessions), runs) ==> r == Ok(0) && committed == old(committed)
    {
      hide Matching, Effect, Mirrors, DistinctRuns, AsTold, DistinctKeys, EntriesStay, IngestStaging, SameRuns;
      sessionFailedAt := Cleared(sessionFailedAt, began);
      var wrote, changed := BringRuns(runs);
      if !wrote {
        return Err(WriteFailed);
      }
      r := Answer(changed);
    }
  }

  /** The stamps of the marks, as the index holds them. */
  function StampsOf(marks: map<string, Marks.Mark>): map<string, nat> {
    map e | e in marks :: marks[e].at
  }

  /** **An ingest clears the marks that the interleavings of `Marks` clear**: its two steps on the flags, taken together. */
  lemma AnIngestClearsAsInEveryInterleaving(s: Marks.State, r: nat, began: ReadingPoint)
    requires Marks.Enabled(s, Marks.RetainMarks(r)) && began.at == s.readings[r].point
    ensures
      var retained := Marks.After(s, Marks.RetainMarks(r));
      && StampsOf(retained.marks) == FullTextIndex.StillBehind(StampsOf(s.marks), began)
      && Marks.Enabled(retained, Marks.LoadFailure(r))
      && var loaded := Marks.After(retained, Marks.LoadFailure(r));
         Marks.Enabled(loaded, Marks.Exchange(r))
         && Marks.After(loaded, Marks.Exchange(r)).failedAt == FullTextIndex.Cleared(s.failedAt, began)
  {
  }

  /** The mirrors hold the same records, in whatever order. */
  ghost predicate SameRecords(a: seq<Record>, b: seq<Record>) {
    forall r :: r in a <==> r in b
  }

  lemma KeysOfRecords(rewrite: seq<Record>, keys: seq<Term>)
    requires |keys| == |rewrite| && forall i :: 0 <= i < |keys| ==> keys[i] == KeyTerm(rewrite[i])
    ensures forall t :: t in keys <==> HasKey(rewrite, t)
  {
    forall t | HasKey(rewrite, t)
      ensures t in keys
    {
      var r :| r in rewrite && KeyTerm(r) == t;
      var i :| 0 <= i < |rewrite| && rewrite[i] == r;
      assert keys[i] == t;
    }
    forall t | t in keys
      ensures HasKey(rewrite, t)
    {
      var i :| 0 <= i < |keys| && keys[i] == t;
      assert rewrite[i] in rewrite;
    }
  }

  lemma RebuildNothing()
    ensures Rebuild([]) == []
  {
  }

  lemma RebuildPush(records: seq<Record>, i: nat)
    requires i < |records|
    ensures Rebuild(records[..i + 1]) == Rebuild(records[..i]) + Written(records[i])
  {
    assert records[..i + 1][..i] == records[..i];
  }

  lemma HalfRebuilt(before: seq<Posting>, after: seq<Posting>, held: seq<Record>, arriving: seq<Record>)
    requires DistinctKeys(held) && DistinctKeys(arriving)
    requires Rewritten(before, after, Gone(arriving, held), Changed(arriving, held))
    ensures forall t: Term :: !t.RunTerm? && Mirrors(before, held, t) ==> Mirrors(after, arriving, t)
  {
    forall t: Term | !t.RunTerm? && Mirrors(before, held, t)
      ensures Mirrors(after, arriving, t)
    {
      DifferencesRebuild(before, after, held, arriving, t);
    }
  }

  /** **No half removes another half's postings.** */
  lemma OtherHalvesStay(before: seq<Posting>, after: seq<Posting>, evict: seq<Term>, rewrite: seq<Record>)
    requires Rewritten(before, after, evict, rewrite)
    ensures forall t: Term :: !t.RunTerm? && t !in evict && !HasKey(rewrite, t) ==> Matching(after, t) == Matching(before, t)
  {
    forall t: Term | !t.RunTerm? && t !in evict && !HasKey(rewrite, t)
      ensures Matching(after, t) == Matching(before, t)
    {
      RebuildNone(rewrite, t);
    }
  }

  lemma DocsLeaveTheRest(before: seq<Posting>, after: seq<Posting>, evict: seq<Term>, rewrite: seq<Record>,
                         messages: seq<Message>, readings: seq<seq<Session>>)
    requires forall t: Term :: !t.RunTerm? && t !in evict && !HasKey(rewrite, t) ==> Matching(after, t) == Matching(before, t)
    requires (forall t :: t in evict ==> t.DocTerm?) && (forall r :: r in rewrite ==> r.DocRecord?)
    requires forall t: Term :: t.MessageTerm? ==> Mirrors(before, messages, t)
    requires AsTold(before, readings)
    ensures forall t: Term :: t.MessageTerm? ==> Mirrors(after, messages, t)
    ensures AsTold(after, readings)
  {
    assert forall t :: HasKey(rewrite, t) ==> t.DocTerm?;
  }

  lemma MessagesLeaveTheRest(before: seq<Posting>, after: seq<Posting>, evict: seq<Term>, rewrite: seq<Record>,
                             docs: seq<Doc>, readings: seq<seq<Session>>)
    requires forall t: Term :: !t.RunTerm? && t !in evict && !HasKey(rewrite, t) ==> Matching(after, t) == Matching(before, t)
    requires (forall t :: t in evict ==> t.MessageTerm?) && (forall r :: r in rewrite ==> r.MessageRecord?)
    requires forall t: Term :: t.DocTerm? ==> Mirrors(before, docs, t)
    requires AsTold(before, readings)
    ensures forall t: Term :: t.DocTerm? ==> Mirrors(after, docs, t)
    ensures AsTold(after, readings)
  {
    assert forall t :: HasKey(rewrite, t) ==> t.MessageTerm?;
  }

  /** Any index rewritten this way mirrors `next` wherever it mirrored `held`. */
  ghost predicate Brings(before: seq<Posting>, evict: seq<Term>, rewrite: seq<Record>, held: seq<Record>, next: seq<Record>) {
    forall after, t: Term {:trigger Rewritten(before, after, evict, rewrite), Mirrors(after, next, t)} ::
      Rewritten(before, after, evict, rewrite) && !t.RunTerm? && Mirrors(before, held, t) ==> Mirrors(after, next, t)
  }

  lemma DifferencesBring(before: seq<Posting>, held: seq<Record>, arriving: seq<Record>)
    requires DistinctKeys(held) && DistinctKeys(arriving)
    ensures Brings(before, Gone(arriving, held), Changed(arriving, held), held, arriving)
  {
    forall after | Rewritten(before, after, Gone(arriving, held), Changed(arriving, held))
      ensures forall t: Term :: !t.RunTerm? && Mirrors(before, held, t) ==> Mirrors(after, arriving, t)
    {
      HalfRebuilt(before, after, held, arriving);
    }
  }

  lemma ReplacingBrings(before: seq<Posting>, held: seq<Record>, r: Record)
    requires DistinctKeys(held)
    ensures DistinctKeys(Retained(held, KeyTerm(r)) + [r])
    ensures Brings(before, [], [r], held, Retained(held, KeyTerm(r)) + [r])
  {
    forall after, t: Term | Rewritten(before, after, [], [r]) && !t.RunTerm? && Mirrors(before, held, t)
      ensures Mirrors(after, Retained(held, KeyTerm(r)) + [r], t)
    {
      OneReplaced(before, after, held, r, t);
    }
  }

  lemma EvictingBrings(before: seq<Posting>, held: seq<Record>, key: Term)
    requires DistinctKeys(held)
    ensures DistinctKeys(Retained(held, key))
    ensures Brings(before, [key], [], held, Retained(held, key))
  {
    forall after, t: Term | Rewritten(before, after, [key], []) && !t.RunTerm? && Mirrors(before, held, t)
      ensures Mirrors(after, Retained(held, key), t)
    {
      OneEvicted(before, after, held, key, t);
    }
  }

  lemma GoneAreHeldKeys(arriving: seq<Record>, held: seq<Record>)
    ensures forall t :: t in Gone(arriving, held) ==> exists r :: r in held && KeyTerm(r) == t
  {
  }

  /** The document at `i` is the first of the mirror to declare the entity. */
  ghost predicate IsFirst(docs: seq<Doc>, i: int, entity: string) {
    && 0 <= i < |docs| && docs[i].entity.Some? && docs[i].entity.value.id == entity
    && forall j :: 0 <= j < i ==> docs[j].entity.Some? ==> docs[j].entity.value.id != entity
  }

  predicate Declares(d: Doc, entity: string) {
    d.entity.Some? && d.entity.value.id == entity
  }

  ghost predicate SameRuns(a: seq<Session>, b: seq<Session>) {
    forall s :: s in a <==> s in b
  }

  lemma NoRuns(held: seq<Session>)
    ensures RunsStaging(held, []) == []
  {
  }

  lemma OneMoreRun(held: seq<Session>, runs: seq<Session>, i: nat)
    requires i < |runs|
    ensures RunsStaging(held, runs[..i + 1]) == RunsStaging(held, runs[..i]) + RunStaging(RunUnder(held, runs[i].id), runs[i])
  {
    assert runs[..i + 1][..i] == runs[..i];
  }

  lemma NothingStaged(index: seq<Posting>, runs: seq<Session>, held: seq<Session>)
    requires ChangedRuns(runs, held) == [] && GoneRuns(runs, held) == []
    ensures Effect(index, IngestStaging(runs, held)) == index
  {
    assert EvictStaging([]) == [] && RunsStaging(held, []) == [];
  }

  lemma SameRunsAsItself(runs: seq<Session>)
    ensures SameRuns(runs, runs)
  {
  }

  lemma RunsLeaveTheRest(before: seq<Posting>, held: seq<Session>, runs: seq<Session>, docs: seq<Doc>, messages: seq<Message>)
    requires DistinctRuns(runs)
    requires forall t: Term :: t.DocTerm? ==> Mirrors(before, docs, t)
    requires forall t: Term :: t.MessageTerm? ==> Mirrors(before, messages, t)
    ensures
      var after := Effect(before, IngestStaging(runs, held));
      && (forall t: Term :: t.DocTerm? ==> Mirrors(after, docs, t))
      && (forall t: Term :: t.MessageTerm? ==> Mirrors(after, messages, t))
  {
    hide Matching, Rebuild, Effect, IngestStaging, DistinctRuns;
    forall t: Term | t.DocTerm? || t.MessageTerm?
      ensures Matching(Effect(before, IngestStaging(runs, held)), t) == Matching(before, t)
    {
      OtherKeysStay(before, held, runs, t);
    }
  }

  lemma NoMembers<T>(s: seq<T>)
    ensures (forall x :: x !in s) ==> s == []
  {
    if s != [] {
      assert s[0] in s;
    }
  }

  /**
   **What the comparison finds**: no run to rewrite and none to evict exactly
   when the reading and the mirror hold the same runs.
   */
  lemma NothingChangedIsTheSameRuns(arriving: seq<Session>, held: seq<Session>)
    requires DistinctRuns(arriving) && DistinctRuns(held)
    ensures ChangedRuns(arriving, held) == [] && GoneRuns(arriving, held) == [] <==> SameRuns(held, arriving)
  {
    forall s: Session
      ensures RunUnder(held, s.id) == Some(s) <==> s in held
    {
      RunUnderIsHeld(held, s);
    }
    if SameRuns(held, arriving) {
      assert forall s :: s !in ChangedRuns(arriving, held);
      assert forall run :: RunUnder(held, run).Some? ==> RunUnder(arriving, run).Some?;
      NoMembers(ChangedRuns(arriving, held));
      NoMembers(GoneRuns(arriving, held));
    }
    if ChangedRuns(arriving, held) == [] && GoneRuns(arriving, held) == [] {
      forall s | s in held
        ensures s in arriving
      {
        assert s.id !in GoneRuns(arriving, held);
        var x := RunUnder(arriving, s.id).value;
        assert x !in ChangedRuns(arriving, held);
        RunUnderIsHeld(held, s);
      }
    }
  }

  lemma {:induction false} RewriteHasOnlyEntries(sessions: seq<Session>, t: Term)
    requires !t.EntryTerm? && !t.RunTerm?
    ensures Matching(RewriteAll(sessions), t) == []
    decreases |sessions|
  {
    if sessions != [] {
      var last := sessions[|sessions| - 1];
      RewriteHasOnlyEntries(sessions[..|sessions| - 1], t);
      MatchingConcat(RewriteAll(sessions[..|sessions| - 1]), EntriesOf(last, last.entries), t);
      MatchingHas(EntriesOf(last, last.entries), t);
      NoMembers(Matching(EntriesOf(last, last.entries), t));
    }
  }

  /** A full rebuild, half by half, under one key. */
  lemma RebuildUnder(docs: seq<Doc>, messages: seq<Message>, sessions: seq<Session>, t: Term)
    requires !t.RunTerm?
    ensures Matching(Rebuild(docs) + Rebuild(messages) + RewriteAll(sessions), t) ==
      if t.DocTerm? then Matching(Rebuild(docs), t)
      else if t.MessageTerm? then Matching(Rebuild(messages), t)
      else Matching(RewriteAll(sessions), t)
  {
    hide Matching, Rebuild, RewriteAll;
    MatchingConcat(Rebuild(docs) + Rebuild(messages), RewriteAll(sessions), t);
    MatchingConcat(Rebuild(docs), Rebuild(messages), t);
    if !t.DocTerm? {
      RebuildNone(docs, t);
    }
    if !t.MessageTerm? {
      RebuildNone(messages, t);
    }
    if !t.EntryTerm? {
      RewriteHasOnlyEntries(sessions, t);
    }
  }

  /** A full rebuild of the mirrors, as one list. */
  function FullRebuild(docs: seq<Doc>, messages: seq<Message>, sessions: seq<Session>): seq<Posting> {
    Rebuild(docs) + Rebuild(messages) + RewriteAll(sessions)
  }

  /** Under every key the index is a rebuild, and under an entry's key a rebuild but for the focus. */
  lemma RebuiltUnder(index: seq<Posting>, docs: seq<Doc>, messages: seq<Message>, readings: seq<seq<Session>>, t: Term)
    requires Projects(index, docs, messages, readings) && !t.RunTerm?
    ensures
      var rebuilt := Matching(FullRebuild(docs, messages, Mirror(readings)), t);
      && SaveFocus(Matching(index, t)) == SaveFocus(rebuilt)
      && (Matching(index, t) == rebuilt <==> (t.EntryTerm? ==> Told(readings, t.id) == LineUnder(Mirror(readings), t.id)))
      && (t.EntryTerm? ==> Matching(index, t) == Posted(Told(readings, t.id)) && |Matching(index, t)| == |rebuilt| <= 1)
  {
    hide Matching, Rebuild, RewriteAll, DistinctKeys, DistinctRuns, Mirror, Told, LineUnder;
    RebuildUnder(docs, messages, Mirror(readings), t);
    if t.EntryTerm? {
      ToldUnder(index, readings, t.id);
      ToldIsTheLine(readings, t.id);
      RewriteUnder(Mirror(readings), t.id);
      assert t == EntryTerm(t.id);
    }
  }

  /**
   **The index is a full rebuild of the mirrors**, posting for posting, but for the
   focus of entries; and it is one outright exactly when each entry was last written
   under its run's present focus.
   */
  lemma TheIndexIsARebuild(index: seq<Posting>, docs: seq<Doc>, messages: seq<Message>, readings: seq<seq<Session>>)
    requires Projects(index, docs, messages, readings)
    ensures
      var rebuilt := FullRebuild(docs, messages, Mirror(readings));
      && multiset(SaveFocus(index)) == multiset(SaveFocus(rebuilt))
      && (multiset(index) == multiset(rebuilt) <==> forall id :: Told(readings, id) == LineUnder(Mirror(readings), id))
  {
    hide Matching, SaveFocus, Projects, FullRebuild, Told, LineUnder, Mirror;
    var rebuilt := FullRebuild(docs, messages, Mirror(readings));
    forall t: Term | !t.RunTerm?
      ensures Matching(SaveFocus(index), t) == Matching(SaveFocus(rebuilt), t)
    {
      RebuiltUnder(index, docs, messages, readings, t);
      MatchingSaveFocus(index, t);
      MatchingSaveFocus(rebuilt, t);
    }
    SamePostingsAreTheSameBag(SaveFocus(index), SaveFocus(rebuilt));
    if forall id :: Told(readings, id) == LineUnder(Mirror(readings), id) {
      forall t: Term | !t.RunTerm?
        ensures Matching(index, t) == Matching(rebuilt, t)
      {
        RebuiltUnder(index, docs, messages, readings, t);
      }
      SamePostingsAreTheSameBag(index, rebuilt);
    } else {
      var id :| Told(readings, id) != LineUnder(Mirror(readings), id);
      RebuiltUnder(index, docs, messages, readings, EntryTerm(id));
      OneDiffers(index, rebuilt, EntryTerm(id));
    }
  }

  /** Two indexes that hold one posting each under a key, and not the same one, are different bags. */
  lemma OneDiffers(a: seq<Posting>, b: seq<Posting>, t: Term)
    requires t.EntryTerm? && Matching(a, t) != Matching(b, t) && |Matching(a, t)| == |Matching(b, t)| <= 1
    ensures multiset(a) != multiset(b)
  {
    hide Matching;
    var p, q := Matching(a, t)[0], Matching(b, t)[0];
    assert Matching(a, t) == [p] && Matching(b, t) == [q];
    MatchingHas(a, t);
    assert p in Matching(a, t) && KeyOf(p) == t;
    CountUnderKey(a, p);
    CountUnderKey(b, p);
  }
}
