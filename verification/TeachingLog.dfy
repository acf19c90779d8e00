/**
 The teaching ledger: a held state replayed from the log, the runs whose last
 append has no known outcome, and a published set of pairs read without a lock.
 */
module TeachingLog {
  import opened Wrappers
  import opened TeachingEvents
  import opened EventLog
  import opened LedgerSpec
  import opened Reconcile
  import opened Server
  import opened Network
  import opened DoltLog

  const READ_BOUND: nat := 256
  const RECOVERY_ATTEMPTS: nat := 4

  datatype TeachingError = Indeterminate | Conflict | Store | Refused

  function RefusalOf(error: LogError): TeachingError {
    match error
    case Indeterminate => TeachingError.Indeterminate
    case Conflict => TeachingError.Conflict
    case Store => TeachingError.Store
  }

  /** What a contact may leave in the log: the pair's record and nothing else, where the log did not hold the pair. */
  ghost predicate Contacted(was: Log, pair: Pair, at: int, withRows: bool, r: Result<bool, TeachingError>, now: Log) {
    if r == Ok(true) then exists landed: bool :: AddsRecord(Settled(was, landed), pair, at, withRows, r, now)
    else
      || Drifts(was, now)
      || (r == Err(TeachingError.Indeterminate) && exists landed: bool :: AddsRecord(Settled(was, landed), pair, at, withRows, r, now))
  }

  /** On a settled log that lacks the pair: its record landed, or was sent with no known outcome. */
  ghost predicate AddsRecord(m: Log, pair: Pair, at: int, withRows: bool, r: Result<bool, TeachingError>, now: Log) {
    && pair !in Fold(m.chain)
    && if r.Ok? then Took(m, [Recorded(pair.run, pair.domain, at)], withRows, now)
       else MayHaveTaken(m, [Recorded(pair.run, pair.domain, at)], withRows, now)
  }

  lemma RecordedOn(was: Log, m: Log, pair: Pair, at: int, withRows: bool, r: Result<bool, TeachingError>, now: Log)
    requires (r.Ok? ==> r.value) && (r.Err? ==> r.error in {TeachingError.Store, TeachingError.Indeterminate})
    requires FenceStep(was, true, m)
    requires if r == Err(TeachingError.Store) then now == m else AddsRecord(m, pair, at, withRows, r, now)
    ensures Contacted(was, pair, at, withRows, r, now)
  {
    hide AddsRecord;
    var landed := m == Settled(was, true);
    assert m == Settled(was, landed);
  }

  /** A boot over a settled log: what it wants is there when it succeeds, and nothing else whatever it met. */
  ghost predicate Booted(m: Log, shadowed: bool, ok: bool, now: Log) {
    if ok then BroughtTo(m, Wanted(m, shadowed), now) else now == m || MayBring(m, Wanted(m, shadowed), now)
  }

  lemma OneRecordMore(firsts: seq<First>, was: Log, now: Log, pair: Pair, at: int, withRows: bool)
    requires Took(was, [Recorded(pair.run, pair.domain, at)], withRows, now) && AnsweredOnce(firsts, was.chain)
    ensures |now.chain| == |was.chain| + 1 && was.chain == now.chain[..|was.chain|] && now.pending.None?
    ensures now.chain[|was.chain|].batch.members == [Recorded(pair.run, pair.domain, at)]
    ensures |EventsOf(now.chain)| == |EventsOf(was.chain)| + 1
    ensures AnsweredOnce(firsts + [First(pair, |EventsOf(now.chain)| - 1)], now.chain)
  {
    hide AnsweredOnce, EventsOf;
    FirstPush(firsts, was.chain, SealedOn(was, [Recorded(pair.run, pair.domain, at)], withRows), pair, at);
  }

  lemma ABootedLog(m: Log, shadowed: bool, now: Log)
    requires Booted(m, shadowed, true, now)
    ensures if shadowed || m.chain == [] then Fold(now.chain) == m.rows == now.rows else now == m
  {
    hide Fold;
  }

  lemma OneBatchBrings(m: Log, events: seq<Event>, wanted: set<Pair>, ok: bool, now: Log)
    requires events != [] && m.pending.None? && Fold(m.chain) != wanted && ApplyAll(Fold(m.chain), events) == wanted
    requires if ok then Took(m, events, false, now) else now == m || MayHaveTaken(m, events, false, now)
    ensures if ok then BroughtTo(m, wanted, now) else now == m || MayBring(m, wanted, now)
  {
    hide Fold;
    FoldPush(m.chain, SealedOn(m, events, false));
    assert ExecAll(m.rows, []) == m.rows;
  }

  class LoggedTeachings {
    const log: DoltLog
    var state: set<Pair>
    var head: nat
    /** The old path's held set, when a shadow runs. */
    var shadow: Option<set<Pair>>
    var uncertain: set<Run>
    /** What was published last for reads that take no lock. */
    var known: set<Pair>
    var knownLegacy: set<Pair>
    /** How often the shadow's answer differed from the log's. */
    var differed: nat
    ghost var applied: nat
    ghost var firsts: seq<First>

    ghost predicate Tracking()
      reads this, log, log.server
    {
      && log.Valid()
      && OursOnly(log.Log())
      && Replays(log.Log(), applied, state, head)
      && AnsweredOnce(firsts, log.Log().chain)
    }

    ghost predicate ShadowAgrees()
      reads this
    {
      shadow.Some? ==> shadow.value == state
    }

    ghost predicate PairsPublished()
      reads this
    {
      known == Certain(state, uncertain)
    }

    ghost predicate LegacyPublished()
      reads this
    {
      shadow.Some? ==> Certain(knownLegacy, uncertain) == known
    }

    /** Nothing is in flight and the held state is the whole log. */
    ghost predicate CaughtUp()
      reads this, log, log.server
    {
      && Tracking()
      && log.Log().pending.None? && applied == |log.Log().chain|
      && uncertain == {} && PairsPublished() && (ShadowAgrees() ==> LegacyPublished())
    }

    /** What holds between calls, once the ledger is open. */
    ghost predicate Valid()
      reads this, log, log.server
    {
      && Tracking()
      && BeyondIsUncertain(log.Log(), applied, uncertain)
      && PairsPublished()
      && ShadowAgrees() && LegacyPublished()
      && (shadow.Some? ==> RowsAgree(log.Log()))
    }

    constructor (log: DoltLog, shadow: Option<set<Pair>>, ghost earlier: seq<First>)
      requires log.Valid() && OursOnly(log.Log()) && AnsweredOnce(earlier, log.Log().chain)
      ensures Tracking() && this.log == log && this.shadow == shadow
      ensures state == {} && uncertain == {} && firsts == earlier && applied == 0 && head == 0 && differed == 0
    {
      this.log := log;
      this.shadow := shadow;
      state, head, uncertain, known, knownLegacy := {}, 0, {}, {}, {};
      differed, applied, firsts := 0, 0, earlier;
      new;
      assert log.Log().chain[..0] == [];
    }

    // The fast path's snapshot.

    method Publish()
      modifies `known, `knownLegacy
      ensures known == Certain(state, uncertain) && knownLegacy == shadow.GetOr({})
    {
      known := set p | p in state && p.run !in uncertain;
      knownLegacy := shadow.GetOr({});
    }

    /** Apply one batch's members in order; the shadow follows when told to. */
    method ApplyMembers(members: seq<Event>, movesOld: bool)
      modifies `state, `shadow
      ensures state == ApplyAll(old(state), members)
      ensures shadow.Some? <==> old(shadow).Some?
      ensures shadow.Some? ==>
        shadow.value == if movesOld then ApplyAll(old(shadow).value, members) else old(shadow).value
    {
      for i := 0 to |members|
        invariant state == ApplyAll(old(state), members[..i])
        invariant shadow.Some? <==> old(shadow).Some?
        invariant shadow.Some? ==>
          shadow.value == if movesOld then ApplyAll(old(shadow).value, members[..i]) else old(shadow).value
      {
        assert members[..i + 1][..i] == members[..i];
        state := Apply(state, members[i]);
        if shadow.Some? && movesOld {
          shadow := Some(Apply(shadow.value, members[i]));
        }
      }
      assert members[..|members|] == members;
    }

    /** Apply the next batch of the chain and move the head to its end. */
    method ApplyBatch(batch: Batch, movesOld: bool, ghost chain: seq<Entry>)
      requires applied < |chain| && batch == chain[applied].batch
      requires state == Fold(chain[..applied])
      modifies `state, `head, `shadow, `applied
      ensures applied == old(applied) + 1
      ensures state == Fold(chain[..applied]) && head == LastPosition(chain[..applied])
      ensures shadow.Some? <==> old(shadow).Some?
      ensures movesOld && old(ShadowAgrees()) ==> ShadowAgrees()
      ensures !movesOld ==> shadow == old(shadow)
    {
      FoldPush(chain[..applied], chain[applied]);
      assert chain[..applied] + [chain[applied]] == chain[..applied + 1];
      ApplyMembers(batch.members, movesOld);
      head := batch.Last();
      applied := applied + 1;
    }

    method ApplyBatches(batches: seq<Batch>, movesOld: bool, ghost chain: seq<Entry>)
      requires applied + |batches| <= |chain|
      requires forall i :: 0 <= i < |batches| ==> batches[i] == chain[applied + i].batch
      requires state == Fold(chain[..applied]) && head == LastPosition(chain[..applied])
      modifies `state, `head, `shadow, `applied
      ensures applied == old(applied) + |batches|
      ensures state == Fold(chain[..applied]) && head == LastPosition(chain[..applied])
      ensures shadow.Some? <==> old(shadow).Some?
      ensures movesOld && old(ShadowAgrees()) ==> ShadowAgrees()
      ensures !movesOld ==> shadow == old(shadow)
    {
      for b := 0 to |batches|
        invariant applied == old(applied) + b
        invariant state == Fold(chain[..applied]) && head == LastPosition(chain[..applied])
        invariant shadow.Some? <==> old(shadow).Some?
        invariant movesOld && old(ShadowAgrees()) ==> ShadowAgrees()
        invariant !movesOld ==> shadow == old(shadow)
      {
        ApplyBatch(batches[b], movesOld, chain);
      }
    }

    /** One tail read and its batches; `more` says whether any came. */
    method CatchUpOnce(movesOld: bool) returns (r: Result<bool, TeachingError>)
      requires Tracking()
      modifies this, log, log.server`db, log.server`faults
      ensures Tracking() && FenceStep(old(log.Log()), r.Ok?, log.Log())
      ensures firsts == old(firsts) && differed == old(differed)
      ensures uncertain == old(uncertain) && known == old(known) && knownLegacy == old(knownLegacy)
      ensures shadow.Some? <==> old(shadow).Some?
      ensures movesOld && old(ShadowAgrees()) ==> ShadowAgrees()
      ensures !movesOld ==> shadow == old(shadow)
      ensures r.Ok? ==> log.Log().pending.None?
      ensures old(applied) <= applied
      ensures r == Ok(true) ==> old(applied) < applied
      ensures r == Ok(false) ==> applied == |log.Log().chain|
      ensures r.Err? ==> r.error in {TeachingError.Indeterminate, TeachingError.Store} && applied == old(applied)
      ensures |log.Log().chain| + PendingCount(log.Log()) <= old(|log.Log().chain| + PendingCount(log.Log()))
      ensures if r.Ok? then log.server.faults >= old(log.server.faults) else log.server.faults > old(log.server.faults)
    {
      hide Sound, Steady, OursOnly, AnsweredOnce, LogOf, Fold, Tail, EventLog.Take;
      ghost var before := log.Log();
      var read, ready := log.ReadFrom(head, READ_BOUND);
      ghost var chain := log.Log().chain;
      DriftKeeps(before, log.Log(), applied, state, head);
      AnsweredOnceGrows(firsts, before.chain, chain);
      if read.Err? {
        return Err(RefusalOf(read.error));
      }
      TailIsWhatIsLeft(log.Log(), applied, state, head, READ_BOUND);
      ApplyBatches(read.value, movesOld, chain);
      r := Ok(read.value != []);
    }

    /** The same, for a ledger that is open: it stays open whatever the read met. */
    method CatchUpStep(movesOld: bool) returns (r: Result<bool, TeachingError>)
      requires Tracking()
      modifies this, log, log.server`db, log.server`faults
      ensures Tracking() && FenceStep(old(log.Log()), r.Ok?, log.Log())
      ensures firsts == old(firsts) && differed == old(differed)
      ensures uncertain == old(uncertain) && known == old(known) && knownLegacy == old(knownLegacy)
      ensures shadow.Some? <==> old(shadow).Some?
      ensures movesOld && old(ShadowAgrees()) ==> ShadowAgrees()
      ensures !movesOld ==> shadow == old(shadow)
      ensures r.Ok? ==> log.Log().pending.None?
      ensures old(applied) <= applied <= |log.Log().chain|
      ensures r == Ok(true) ==> old(applied) < applied
      ensures r == Ok(false) ==> applied == |log.Log().chain|
      ensures r.Err? ==> r.error in {TeachingError.Indeterminate, TeachingError.Store}
      ensures |log.Log().chain| + PendingCount(log.Log()) <= old(|log.Log().chain| + PendingCount(log.Log()))
      ensures movesOld && old(Valid()) ==> Valid()
      ensures if r.Ok? then log.server.faults >= old(log.server.faults) else log.server.faults > old(log.server.faults)
    {
      hide Sound, Steady, OursOnly, AnsweredOnce, LogOf, Fold, RowsAgree, Certain, Replays, BeyondIsUncertain;
      ghost var before, was, end, done := log.Log(), state, head, applied;
      r := CatchUpOnce(movesOld);
      AppliedIsInRange(log.Log(), applied, state, head);
      if movesOld && old(Valid()) {
        DriftKeeps(before, log.Log(), done, was, end);
        FewerBeyond(log.Log(), done, applied, uncertain);
        CertainPairsStay(before, log.Log(), done, applied, was, state, end, head, uncertain);
      }
    }

    /** Success means the held state is the fold of the whole log, with nothing uncertain. */
    method CatchUp(movesOld: bool) returns (r: Result<(), TeachingError>)
      requires Tracking()
      modifies this, log, log.server`db, log.server`faults
      ensures Tracking() && FenceStep(old(log.Log()), r.Ok?, log.Log())
      ensures firsts == old(firsts) && differed == old(differed)
      ensures shadow.Some? <==> old(shadow).Some?
      ensures movesOld && old(ShadowAgrees()) ==> ShadowAgrees()
      ensures !movesOld ==> shadow == old(shadow)
      ensures r.Ok? ==> CaughtUp()
      ensures r.Err? ==>
        && r.error in {TeachingError.Indeterminate, TeachingError.Store}
        && uncertain == old(uncertain) && known == old(known) && knownLegacy == old(knownLegacy)
        && applied >= old(applied)
      ensures movesOld && old(Valid()) ==> Valid()
      ensures if r.Ok? then log.server.faults >= old(log.server.faults) else log.server.faults > old(log.server.faults)
    {
      hide Sound, Steady, OursOnly, AnsweredOnce, LogOf, Fold, RowsAgree, Certain, Replays, BeyondIsUncertain;
      ghost var start := log.Log();
      AppliedIsInRange(start, applied, state, head);
      while true
        invariant Tracking() && Drifts(start, log.Log()) && log.server.faults >= old(log.server.faults)
        invariant applied <= |log.Log().chain|
        invariant firsts == old(firsts) && differed == old(differed)
        invariant uncertain == old(uncertain) && known == old(known) && knownLegacy == old(knownLegacy)
        invariant shadow.Some? <==> old(shadow).Some?
        invariant movesOld && old(ShadowAgrees()) ==> ShadowAgrees()
        invariant !movesOld ==> shadow == old(shadow)
        invariant old(applied) <= applied
        invariant movesOld && old(Valid()) ==> Valid()
        decreases |log.Log().chain| + PendingCount(log.Log()) - applied
      {
        var more := CatchUpStep(movesOld);
        if more.Err? {
          return Err(more.error);
        }
        if !more.value {
          NothingBeyond(log.Log(), {});
          uncertain := {};
          Publish();
          return Ok(());
        }
      }
    }

    /** A bounded number of catch-ups; whatever they meet, a valid ledger stays valid. */
    method Recover()
      requires Tracking() && BeyondIsUncertain(log.Log(), applied, uncertain) && PairsPublished()
      modifies this, log, log.server`db, log.server`faults
      ensures Tracking() && BeyondIsUncertain(log.Log(), applied, uncertain) && PairsPublished()
      ensures firsts == old(firsts) && differed == old(differed)
      ensures Drifts(old(log.Log()), log.Log())
      ensures uncertain == {} || uncertain == old(uncertain)
      ensures shadow.Some? <==> old(shadow).Some?
      ensures old(Valid()) ==> Valid()
      ensures log.server.faults >= old(log.server.faults) && (uncertain == {} || log.server.faults >= old(log.server.faults) + RECOVERY_ATTEMPTS)
    {
      hide Sound, Steady, OursOnly, AnsweredOnce, LogOf, Fold, RowsAgree, Certain, Replays, BeyondIsUncertain;
      for attempt := 0 to RECOVERY_ATTEMPTS
        invariant Tracking() && BeyondIsUncertain(log.Log(), applied, uncertain) && PairsPublished()
        invariant firsts == old(firsts) && differed == old(differed)
        invariant Drifts(old(log.Log()), log.Log()) && uncertain == old(uncertain)
        invariant log.server.faults >= old(log.server.faults) + attempt
        invariant shadow.Some? <==> old(shadow).Some?
        invariant old(Valid()) ==> Valid()
      {
        ghost var before, was, end, done := log.Log(), state, head, applied;
        var caught := CatchUp(true);
        DriftsCompose(old(log.Log()), before, log.Log());
        if caught.Ok? {
          NothingBeyond(log.Log(), {});
          return;
        }
        DriftKeeps(before, log.Log(), done, was, end);
        FewerBeyond(log.Log(), done, applied, uncertain);
        CertainPairsStay(before, log.Log(), done, applied, was, state, end, head, uncertain);
      }
    }

    /** The batch is in the log: apply it from the appended value. */
    method Land(events: seq<Event>, last: nat, ghost was: Log, ghost entry: Entry)
      requires log.Valid() && OursOnly(log.Log()) && AnsweredOnce(firsts, log.Log().chain)
      requires was.pending.None? && log.Log() == Extended(was, entry)
      requires Replays(was, applied, state, head) && applied == |was.chain| && uncertain == {}
      requires entry.batch.members == events && last == entry.batch.Last()
      modifies `state, `head, `shadow, `known, `knownLegacy, `applied
      ensures CaughtUp() && state == ApplyAll(old(state), events)
      ensures shadow.Some? <==> old(shadow).Some?
      ensures shadow.Some? ==> shadow.value == ApplyAll(old(shadow).value, events)
      ensures old(ShadowAgrees()) ==> ShadowAgrees() && LegacyPublished()
    {
      hide Sound, Steady, OursOnly, AnsweredOnce, LogOf, Fold;
      assert was.chain[..|was.chain|] == was.chain;
      CommittedState(was, entry, state);
      ApplyMembers(events, true);
      head := last;
      applied := applied + 1;
      Publish();
    }

    /** Marks the runs of an append whose outcome is unknown, and tries at once to learn it. */
    method Doubt(events: seq<Event>)
      requires Tracking() && BeyondIsUncertain(log.Log(), applied, uncertain + RunsOf(events))
      modifies this, log, log.server`db, log.server`faults
      ensures Tracking() && Drifts(old(log.Log()), log.Log())
      ensures uncertain == {} || uncertain == old(uncertain) + RunsOf(events)
      ensures firsts == old(firsts) && differed == old(differed)
      ensures shadow.Some? <==> old(shadow).Some?
      ensures old(ShadowAgrees() && (shadow.Some? ==> RowsAgree(log.Log()))) ==> Valid()
      ensures log.server.faults >= old(log.server.faults) && (uncertain == {} || log.server.faults >= old(log.server.faults) + RECOVERY_ATTEMPTS)
    {
      hide Sound, Steady, OursOnly, AnsweredOnce, LogOf, Fold, RowsAgree;
      uncertain := uncertain + RunsOf(events);
      Publish();
      Recover();
    }

    /** Seal the events and send them to the log, with their rows when live. */
    method Send(events: seq<Event>, withRows: bool) returns (appended: AppendReply, ghost entry: Entry)
      requires CaughtUp() && events != [] && RecordsOnlyNew(state, events)
      requires withRows && shadow.Some? ==> RowsAgree(log.Log())
      requires withRows ==> ShadowAgrees()
      modifies log, log.server
      ensures entry == SealedOn(old(log.Log()), events, withRows && shadow.Some?) && old(log.Log()).pending.None?
      ensures Tracking() && BeyondIsUncertain(log.Log(), applied, RunsOf(events))
      ensures old(log.Log().chain) <= log.Log().chain
      ensures log.server.clashes == old(log.server.clashes)
      ensures withRows && shadow.Some? ==> RowsAgree(log.Log())
      ensures PublishedFrom(old(log.Log()), known) && MayMeet(old(log.Log()), entry, log.Log())
      ensures !withRows && appended.Ok? && appended.value.Committed? ==> log.Log().rows == old(log.Log()).rows
      ensures appended.Err? ==> appended.error == LogError.Store && log.Log() == old(log.Log())
      ensures appended == Ok(DefinitelyNotCommitted) ==> log.Log() == old(log.Log())
      ensures appended.Ok? && appended.value.Committed? ==>
        log.Log() == Extended(old(log.Log()), entry) && appended.value.range.last == entry.batch.Last()
      ensures appended == Ok(Append.Indeterminate) ==> MaySend(old(log.Log()), entry, log.Log())
      ensures log.server.faults >= old(log.server.faults) && ((appended.Ok? && appended.value.Committed?) || log.server.faults > old(log.server.faults))
    {
      hide Sound, Steady, OursOnly, AnsweredOnce, LogOf, Certain, RecordsOnlyNew, Extends, AppendStep, RowsAgree, NoClash, Fold, BeyondIsUncertain, RunsOf, StatementsOf, ExecAll;
      ghost var was := log.Log();
      PublishedWhenCaughtUp(was, state, head, known);
      var batch: Batch := Batch(Identity(head, events), head, events);
      var statements := if shadow.Some? && withRows then StatementsOf(events) else [];
      entry := Entry(batch, statements);
      assert was.chain[..|was.chain|] == was.chain;
      NewBatchFits(was, entry);
      if shadow.Some? && withRows {
        RowsFollowAppendOf(was, entry);
        StatementsNeverClash(was.rows, events);
      } else {
        NothingClashes(was.rows);
      }
      ghost var ready;
      appended, ready := log.AppendOwned(head, batch, statements);
      AppendOutcome(was, entry, ready, appended, log.Log());
      AnAppendIsMet(was, head, entry, ready, appended, log.Log());
      UnknownAppendKeeps(was, entry, log.Log(), state, head, {});
      assert {} + RunsOf(events) == RunsOf(events);
      AnsweredOnceGrows(firsts, was.chain, log.Log().chain);
    }

    /** Log, held state and shadow take the events together, or the answer says why not. */
    method Commit(events: seq<Event>, withRows: bool) returns (r: Result<(), TeachingError>)
      requires CaughtUp() && events != [] && RecordsOnlyNew(state, events)
      requires withRows ==> Valid()
      modifies this, log, log.server
      ensures Tracking() && old(log.Log().chain) <= log.Log().chain
      ensures firsts == old(firsts) && differed == old(differed)
      ensures log.server.clashes == old(log.server.clashes)
      ensures shadow.Some? <==> old(shadow).Some?
      ensures withRows ==> Valid()
      ensures r.Ok? ==>
        && CaughtUp() && Took(old(log.Log()), events, withRows && shadow.Some?, log.Log())
        && state == ApplyAll(old(state), events)
        && (shadow.Some? ==> shadow.value == ApplyAll(old(shadow).value, events))
        && (!withRows ==> log.Log().rows == old(log.Log()).rows)
      ensures r != Err(TeachingError.Indeterminate) ==> uncertain == {}
      ensures uncertain == {} || uncertain == RunsOf(events)
      ensures r == Err(TeachingError.Store) ==> log.Log() == old(log.Log())
      ensures r == Err(TeachingError.Indeterminate) ==>
        MayHaveTaken(old(log.Log()), events, withRows && shadow.Some?, log.Log())
      ensures r.Err? ==> r.error in {TeachingError.Store, TeachingError.Indeterminate}
      ensures if r.Ok? then log.server.faults >= old(log.server.faults) else log.server.faults > old(log.server.faults) + if uncertain == {} then 0 else RECOVERY_ATTEMPTS
    {
      hide Sound, Steady, OursOnly, AnsweredOnce, LogOf, Fold, Certain, RecordsOnlyNew, RowsAgree;
      ghost var was := log.Log();
      var appended, entry := Send(events, withRows);
      if appended.Err? {
        return Err(RefusalOf(appended.error));
      }
      match appended.value {
        case Committed(range) =>
          Land(events, range.last, was, entry);
          return Ok(());
        case DefinitelyNotCommitted =>
          return Err(TeachingError.Store);
        case Indeterminate =>
          ghost var sent := log.Log();
          Doubt(events);
          SendingDrifts(was, entry, sent, log.Log());
          return Err(TeachingError.Indeterminate);
      }
    }

    // The port.

    /** The durable log, caught up, ends with this pair's own record. */
    ghost predicate JustRecorded(pair: Pair, at: int, was: seq<Entry>)
      reads log, log.server
    {
      var chain := log.Log().chain;
      && log.Log().pending.None? && |chain| > 0
      && chain[|chain| - 1].batch.members == [Recorded(pair.run, pair.domain, at)]
      && was <= chain[..|chain| - 1] && pair !in Fold(chain[..|chain| - 1])
    }

    /** A contact through the writer. `refused` is the domain's own refusal. */
    method Contact(pair: Pair, at: int, refused: bool) returns (r: Result<bool, TeachingError>)
      requires Valid()
      modifies this, log, log.server
      ensures Valid() && old(log.Log().chain) <= log.Log().chain
      ensures differed == old(differed) && log.server.clashes == old(log.server.clashes)
      ensures r == Ok(false) ==> FenceStep(old(log.Log()), true, log.Log()) && pair in Fold(log.Log().chain)
      ensures r == Ok(true) ==>
        && JustRecorded(pair, at, old(log.Log().chain))
        && firsts == old(firsts) + [First(pair, |EventsOf(log.Log().chain)| - 1)]
      ensures r != Ok(true) ==> firsts == old(firsts)
      ensures r.Err? ==> !r.error.Conflict? && (r.error.Refused? ==> refused)
      ensures refused ==> r != Ok(true)
      ensures Contacted(old(log.Log()), pair, at, shadow.Some?, r, log.Log())
      ensures refused ==> Drifts(old(log.Log()), log.Log())
      ensures r.Ok? ==> uncertain == {}
      ensures uncertain == {} || uncertain == old(uncertain) || uncertain == {pair.run}
      ensures log.server.faults >= old(log.server.faults) && (r.Err? && !r.error.Refused? ==> log.server.faults > old(log.server.faults))
      ensures uncertain != {} && uncertain != old(uncertain) ==> log.server.faults > old(log.server.faults) + RECOVERY_ATTEMPTS
    {
      hide Sound, Steady, OursOnly, AnsweredOnce, LogOf, Fold, Certain, RecordsOnlyNew, RowsAgree, AddsRecord;
      ghost var start := log.Log();
      var caught := CatchUp(true);
      if caught.Err? {
        return Err(caught.error);
      }
      ghost var m := log.Log();
      if refused {
        return Err(TeachingError.Refused);
      }
      var events := PrepareContact(state, pair, at);
      Compare(pair, events == [], shadow.GetOr({}));
      assert log.Log().chain[..|log.Log().chain|] == log.Log().chain;
      if events == [] {
        return Ok(false);
      }
      r := RecordFirst(pair, at, events);
      RecordedOn(start, m, pair, at, shadow.Some?, r, log.Log());
    }

    /** Count a comparison of the two paths that came out different. */
    method Compare(pair: Pair, logHolds: bool, legacy: set<Pair>)
      modifies `differed
      ensures differed == old(differed) + if shadow.Some? && (pair in legacy) != logHolds then 1 else 0
    {
      differed := differed + if shadow.Some? && (pair in legacy) != logHolds then 1 else 0;
    }

    method RecordFirst(pair: Pair, at: int, events: seq<Event>) returns (r: Result<bool, TeachingError>)
      requires Valid() && CaughtUp() && pair !in state && events == PrepareContact(state, pair, at)
      modifies this, log, log.server
      ensures Valid() && old(log.Log().chain) <= log.Log().chain
      ensures differed == old(differed) && log.server.clashes == old(log.server.clashes)
      ensures r.Ok? ==>
        && r.value && JustRecorded(pair, at, old(log.Log().chain))
        && firsts == old(firsts) + [First(pair, |EventsOf(log.Log().chain)| - 1)]
      ensures r.Err? ==> firsts == old(firsts) && r.error in {TeachingError.Store, TeachingError.Indeterminate}
      ensures uncertain == {} || (r == Err(TeachingError.Indeterminate) && uncertain == {pair.run})
      ensures if r == Err(TeachingError.Store) then log.Log() == old(log.Log())
        else AddsRecord(old(log.Log()), pair, at, shadow.Some?, r, log.Log())
      ensures shadow.Some? <==> old(shadow).Some?
      ensures if r.Ok? then log.server.faults >= old(log.server.faults) else log.server.faults > old(log.server.faults) + if uncertain == {} then 0 else RECOVERY_ATTEMPTS
    {
      hide Sound, Steady, OursOnly, AnsweredOnce, LogOf, Fold, Certain, RecordsOnlyNew, RowsAgree;
      hide EventLog.Extended, StatementsOf, EventsOf, SealedOn, MaySend;
      ghost var was := log.Log();
      assert was.chain[..|was.chain|] == was.chain;
      assert events == [Recorded(pair.run, pair.domain, at)] && pair !in Fold(was.chain);
      PreparedIsNew(state, pair, at);
      var committed := Commit(events, true);
      if committed.Err? {
        return Err(committed.error);
      }
      OneRecordMore(firsts, was, log.Log(), pair, at, shadow.Some?);
      firsts := firsts + [First(pair, |EventsOf(log.Log().chain)| - 1)];
      r := Ok(true);
    }

    /**
     The read that takes no lock, at any instant of another call. `start` is the log
     the known pairs were published from, and `entry` what the other call appends.
     **A pair it answers for is in the durable log if and only if that entry has not
     landed, or keeps the pair.**
     */
    method FastPath(pair: Pair, ghost start: EventLog.Log, ghost entry: Entry) returns (answer: Option<bool>)
      requires PublishedFrom(start, known) && MayMeet(start, entry, log.Log())
      modifies `differed
      ensures answer == if pair in known then Some(false) else None
      ensures
        pair in known
        ==> (pair in Fold(log.Log().chain) <==> !LandedIn(start, entry, log.Log()) || KeepsPair(entry.batch.members, pair))
      ensures differed == old(differed) + if shadow.Some? && pair in known && pair !in knownLegacy then 1 else 0
    {
      hide PublishedFrom, MayMeet, LandedIn, KeepsPair, Fold;
      answer := None;
      if pair in known {
        APublishedPairAtAnyInstant(start, entry, log.Log(), known, pair);
        Compare(pair, true, knownLegacy);
        answer := Some(false);
      }
    }

    /** A whole first contact, begun between calls: a pair already known writes nothing and waits for nobody. */
    method FirstContact(pair: Pair, at: int, refused: bool) returns (r: Result<bool, TeachingError>)
      requires Valid()
      modifies this, log, log.server
      ensures Valid() && old(log.Log().chain) <= log.Log().chain
      ensures differed == old(differed) && log.server.clashes == old(log.server.clashes)
      ensures r == Ok(false) ==> forall l :: Drifts(log.Log(), l) ==> pair in Fold(l.chain)
      ensures r == Ok(true) ==>
        && JustRecorded(pair, at, old(log.Log().chain))
        && firsts == old(firsts) + [First(pair, |EventsOf(log.Log().chain)| - 1)]
      ensures r != Ok(true) ==> firsts == old(firsts)
      ensures r.Err? ==> !r.error.Conflict? && (r.error.Refused? ==> refused)
      ensures refused ==> r != Ok(true)
      ensures Contacted(old(log.Log()), pair, at, shadow.Some?, r, log.Log())
      ensures refused ==> Drifts(old(log.Log()), log.Log())
      ensures uncertain == {} || uncertain == old(uncertain) || uncertain == {pair.run}
      ensures pair in old(known) ==> r == Ok(false) && log.Log() == old(log.Log())
      ensures log.server.faults >= old(log.server.faults) && (r.Err? && !r.error.Refused? ==> log.server.faults > old(log.server.faults))
      ensures uncertain != {} && uncertain != old(uncertain) ==> log.server.faults > old(log.server.faults) + RECOVERY_ATTEMPTS
    {
      hide Sound, Steady, OursOnly, AnsweredOnce, LogOf, Fold, RecordsOnlyNew, RowsAgree;
      if pair in known {
        forall l | Drifts(log.Log(), l)
          ensures pair in Fold(l.chain)
        {
          CertainAnswersAreTheLogs(log.Log(), l, applied, state, head, uncertain, pair);
        }
        assert PublishedFrom(log.Log(), known);
      }
      ghost var nothing: Entry := *;
      var fast := FastPath(pair, log.Log(), nothing);
      if fast.Some? {
        return Ok(fast.value);
      }
      r := Contact(pair, at, refused);
    }

    /** An answer given is the whole durable log's, however it resolves. */
    method HasContact(pair: Pair) returns (r: Result<bool, TeachingError>)
      requires Valid()
      ensures r.Err? <==> pair.run in uncertain
      ensures r.Ok? ==> forall l :: Drifts(log.Log(), l) ==> (r.value <==> pair in Fold(l.chain))
    {
      if pair.run in uncertain {
        return Err(TeachingError.Indeterminate);
      }
      forall l | Drifts(log.Log(), l)
        ensures pair in state <==> pair in Fold(l.chain)
      {
        CertainAnswersAreTheLogs(log.Log(), l, applied, state, head, uncertain, pair);
      }
      r := Ok(pair in state);
    }

    method Taught() returns (r: Result<set<Pair>, TeachingError>)
      requires Valid()
      ensures r.Err? <==> uncertain != {}
      ensures r.Ok? ==> forall l :: Drifts(log.Log(), l) ==> r.value == Fold(l.chain)
    {
      hide Sound, Steady, OursOnly, AnsweredOnce, LogOf, Fold, RowsAgree;
      if uncertain != {} {
        return Err(TeachingError.Indeterminate);
      }
      forall l, pair: Pair | Drifts(log.Log(), l)
        ensures pair in state <==> pair in Fold(l.chain)
      {
        CertainAnswersAreTheLogs(log.Log(), l, applied, state, head, uncertain, pair);
      }
      r := Ok(state);
    }

    /** A settled log that holds a pair of the run. */
    static ghost predicate HoldsRun(m: Log, run: Run) {
      exists p :: p in Fold(m.chain) && p.run == run
    }

    /** A settled log with this run forgotten and nothing else changed: one clear more, or none where none was due. */
    static ghost predicate Forgotten(m: Log, run: Run, withRows: bool, now: Log) {
      && Fold(now.chain) == (set p | p in Fold(m.chain) && p.run != run)
      && if HoldsRun(m, run) then Took(m, [Cleared(run)], withRows, now) else now == m
    }

    /** `forget`: clear the run, when it holds a pair. */
    method Clear(run: Run) returns (r: Result<(), TeachingError>)
      requires Valid()
      modifies this, log, log.server
      ensures Valid() && old(log.Log().chain) <= log.Log().chain
      ensures firsts == old(firsts) && differed == old(differed)
      ensures log.server.clashes == old(log.server.clashes)
      ensures r.Ok? ==> log.Log().pending.None? && forall p :: p in Fold(log.Log().chain) ==> p.run != run
      ensures r.Ok? ==> exists landed: bool :: Forgotten(Settled(old(log.Log()), landed), run, shadow.Some?, log.Log())
      ensures r.Err? ==> r.error in {TeachingError.Store, TeachingError.Indeterminate}
      ensures if r.Ok? then uncertain == {} else uncertain == {} || uncertain == old(uncertain) || uncertain == {run}
      ensures r == Err(TeachingError.Store) ==> Drifts(old(log.Log()), log.Log())
      ensures r == Err(TeachingError.Indeterminate) ==>
        || Drifts(old(log.Log()), log.Log())
        || exists landed: bool ::
             && HoldsRun(Settled(old(log.Log()), landed), run)
             && MayHaveTaken(Settled(old(log.Log()), landed), [Cleared(run)], shadow.Some?, log.Log())
      ensures if r.Ok? then log.server.faults >= old(log.server.faults) else log.server.faults > old(log.server.faults)
      ensures uncertain != {} && uncertain != old(uncertain) ==> log.server.faults > old(log.server.faults) + RECOVERY_ATTEMPTS
    {
      hide Sound, Steady, OursOnly, AnsweredOnce, LogOf, Fold, Certain, RecordsOnlyNew, RowsAgree;
      ghost var start := log.Log();
      var caught := CatchUp(true);
      if caught.Err? {
        return Err(caught.error);
      }
      ghost var m, held := log.Log(), state;
      ghost var landed := m == Settled(start, true);
      assert m == Settled(start, landed) && m.chain[..|m.chain|] == m.chain;
      var events := PrepareForget(state, run);
      if events != [] {
        ClearIsNew(state, run);
        var committed := Commit(events, true);
        if committed.Err? {
          return Err(committed.error);
        }
      }
      ghost var chain := log.Log().chain;
      assert chain[..|chain|] == chain;
      r := Ok(());
    }

    // Boot.

    /** The log's fold becomes the rows' pairs; a log that agrees is not written to. */
    method Reconcile(marks: seq<Mark>) returns (r: Result<(), TeachingError>)
      requires CaughtUp()
      modifies this, log, log.server
      ensures Tracking() && firsts == old(firsts) && differed == old(differed)
      ensures shadow.Some? <==> old(shadow).Some?
      ensures old(state) == PairsOf(marks) ==> r.Ok? && log.Log() == old(log.Log())
      ensures if r.Ok? then BroughtTo(old(log.Log()), PairsOf(marks), log.Log())
        else log.Log() == old(log.Log()) || MayBring(old(log.Log()), PairsOf(marks), log.Log())
      ensures r.Ok? ==>
        && CaughtUp() && state == PairsOf(marks) && log.Log().rows == old(log.Log()).rows
        && (old(shadow) == Some(PairsOf(marks)) ==> shadow == old(shadow))
      ensures if r.Ok? then log.server.faults >= old(log.server.faults) else log.server.faults > old(log.server.faults)
    {
      hide Sound, Steady, OursOnly, AnsweredOnce, LogOf, Fold, Certain, RecordsOnlyNew, RowsAgree, PairsOf, Justified;
      ghost var was := log.Log();
      assert was.chain[..|was.chain|] == was.chain;
      var events := Differences(state, marks);
      if events == [] {
        return Ok(());
      }
      ReconcilingTwiceIsOnce(state, events, PairsOf(marks));
      r := Commit(events, false);
      OneBatchBrings(was, events, PairsOf(marks), r.Ok?, log.Log());
    }

    /** The rows of an empty log, as one batch in the order of their names. */
    method Import(marks: seq<Mark>) returns (r: Result<(), TeachingError>)
      requires CaughtUp() && log.Log().chain == [] && marks != [] && DistinctMarks(marks)
      modifies this, log, log.server
      ensures Tracking() && (shadow.Some? <==> old(shadow).Some?) && firsts == old(firsts) && differed == old(differed)
      ensures r.Ok? ==> CaughtUp() && state == PairsOf(marks) && log.Log().rows == old(log.Log()).rows
      ensures r.Ok? && old(shadow) == Some(PairsOf(marks)) ==> shadow == old(shadow)
      ensures r.Ok? ==> |log.Log().chain| == 1 && log.Log().chain[0].batch.members == ImportOf(SortedMarks(marks))
      ensures if r.Ok? then BroughtTo(old(log.Log()), PairsOf(marks), log.Log())
        else log.Log() == old(log.Log()) || MayBring(old(log.Log()), PairsOf(marks), log.Log())
      ensures if r.Ok? then log.server.faults >= old(log.server.faults) else log.server.faults > old(log.server.faults)
    {
      hide Sound, Steady, OursOnly, AnsweredOnce, LogOf, Certain, RecordsOnlyNew, DistinctMarks, ApplyAll, SortedMarks, Ordered;
      hide BroughtTo, MayBring, BeyondIsUncertain, RowsAgree;
      EmptyFold();
      assert marks[0].pair in PairsOf(marks);
      ghost var was := log.Log();
      var ordered := SortedMarks(marks);
      TheImportIsOrdered(marks);
      ImportLeads(ordered);
      ImportIntoRows(ordered);
      assert |ordered| == |marks| by {
        assert |multiset(ordered)| == |multiset(marks)|;
      }
      r := Commit(ImportOf(ordered), false);
      OneBatchBrings(was, ImportOf(ordered), PairsOf(marks), r.Ok?, log.Log());
    }

    /** Replay the log; import the rows into an empty one, or reconcile a shadowed one. */
    method Fill(marks: seq<Mark>) returns (r: Result<(), TeachingError>)
      requires Tracking() && state == {} && uncertain == {} && applied == 0 && DistinctMarks(marks)
      requires shadow.Some? ==>
        shadow.value == PairsOf(marks) == log.Log().rows && log.Log().pending.None?
      modifies this, log, log.server
      ensures Tracking() && (shadow.Some? <==> old(shadow).Some?) && firsts == old(firsts) && differed == old(differed)
      ensures r.Ok? ==> Valid() && CaughtUp()
      ensures
        r.Ok? && marks != [] && old(log.Log().chain == [] && log.Log().pending.None?)
        ==> |log.Log().chain| == 1 && log.Log().chain[0].batch.members == ImportOf(SortedMarks(marks))
      ensures r.Ok? && (shadow.Some? || old(log.Log().chain == [] && log.Log().pending.None?)) ==>
        Fold(log.Log().chain) == PairsOf(marks)
      ensures r.Ok? && shadow.None? && old(log.Log().chain) != [] ==> FenceStep(old(log.Log()), true, log.Log())
      ensures old(log.Log().pending.None?) && PairsOf(marks) == old(log.Log().rows) ==>
        Booted(old(log.Log()), shadow.Some?, r.Ok?, log.Log())
      ensures if r.Ok? then log.server.faults >= old(log.server.faults) else log.server.faults > old(log.server.faults)
    {
      hide Sound, Steady, OursOnly, AnsweredOnce, LogOf, Certain, RecordsOnlyNew, DistinctMarks, ApplyAll, SortedMarks, Ordered;
      var caught := CatchUp(false);
      if caught.Err? {
        return caught;
      }
      ghost var chain := log.Log().chain;
      assert chain[..|chain|] == chain;
      if head == 0 && marks != [] {
        r := Import(marks);
      } else if head != 0 && shadow.Some? {
        r := Reconcile(marks);
      } else {
        r := Ok(());
      }
    }

    /** Open the log, read the marks, and fill the ledger: the boot. */
    static method Serving(server: Remote, shadowed: bool, ghost earlier: seq<First>)
      returns (r: Result<LoggedTeachings, TeachingError>)
      requires Sound(server.db) && OursOnly(LogOf(server.db))
      requires AnsweredOnce(earlier, LogOf(server.db).chain)
      modifies server
      ensures Sound(server.db) && OursOnly(LogOf(server.db))
      ensures AnsweredOnce(earlier, LogOf(server.db).chain)
      ensures r.Ok? ==>
        && fresh(r.value) && fresh(r.value.log) && r.value.log.server == server
        && r.value.Valid() && r.value.CaughtUp() && r.value.firsts == earlier
        && (r.value.shadow.Some? <==> shadowed)
      ensures r.Ok? ==> r.value.state == Fold(LogOf(server.db).chain) && r.value.differed == 0
      ensures r.Ok? ==> exists landed: bool ::
        var m := Settled(old(LogOf(server.db)), landed);
        if shadowed || m.chain == [] then r.value.state == m.rows == LogOf(server.db).rows else LogOf(server.db) == m
      ensures
        || (r.Err? && Drifts(old(LogOf(server.db)), LogOf(server.db)))
        || exists landed: bool :: Booted(Settled(old(LogOf(server.db)), landed), shadowed, r.Ok?, LogOf(server.db))
      ensures r.Err? ==> server.faults > old(server.faults)
    {
      hide Sound, Steady, AnsweredOnce, LogOf, Fold, Certain, RecordsOnlyNew, PairsOf, Booted, RowsAgree, OursOnly;
      DriftsKeepOurs(LogOf(server.db), earlier);
      var session := DoltLog.Open(server);
      if session.Err? {
        return Err(TeachingError.Store);
      }
      var log := session.value;
      ghost var met := log.Log();
      var marks := log.SelectMarks();
      if marks.Err? {
        return Err(TeachingError.Store);
      }
      var ledger := new LoggedTeachings(log, if shadowed then Some(PairsOf(marks.value)) else None, earlier);
      var filled := ledger.Fill(marks.value);
      if filled.Err? {
        return Err(filled.error);
      }
      ghost var chain := LogOf(server.db).chain;
      assert chain[..|chain|] == chain;
      assert Booted(met, shadowed, true, LogOf(server.db));
      ABootedLog(met, shadowed, LogOf(server.db));
      r := Ok(ledger);
    }
  }
}
