/** What the ledger's memory says of the log, and what it may answer from it. */
module LedgerSpec {
  import opened Wrappers
  import opened TeachingEvents
  import opened EventLog
  import opened Network

  function EventsOf(entries: seq<Entry>): seq<Event>
    decreases |entries|
  {
    if entries == [] then []
    else EventsOf(entries[..|entries| - 1]) + entries[|entries| - 1].batch.members
  }

  /** The pairs the whole chain folds to. */
  function Fold(chain: seq<Entry>): set<Pair> { ApplyAll({}, EventsOf(chain)) }

  lemma EventsPush(chain: seq<Entry>, e: Entry)
    ensures EventsOf(chain + [e]) == EventsOf(chain) + e.batch.members
  {
    assert (chain + [e])[..|chain|] == chain;
  }

  lemma FoldPush(chain: seq<Entry>, e: Entry)
    ensures Fold(chain + [e]) == ApplyAll(Fold(chain), e.batch.members)
  {
    EventsPush(chain, e);
    ApplyAllConcat({}, EventsOf(chain), e.batch.members);
  }

  /** The identity `commit` gives a batch. */
  function Identity(head: nat, events: seq<Event>): BatchId { Sealed(head, events) }

  ghost predicate OwnId(batch: Batch) { batch.id == Identity(batch.prev, batch.members) }

  /** Only this ledger wrote the log, and it never recorded a held pair. */
  ghost predicate OursOnly(l: Log) {
    && Good(l)
    && (forall i :: 0 <= i < |l.chain| ==> OwnId(l.chain[i].batch))
    && (l.pending.Some? ==> OwnId(l.pending.value.batch))
    && RecordsOnlyNew({}, EventsOf(l.chain))
    && RecordsOnlyNew({}, EventsOf(Settled(l, true).chain))
  }

  /** The held state is the fold of the log's first `applied` batches; `head` is their end. */
  ghost predicate Replays(l: Log, applied: nat, state: set<Pair>, head: nat) {
    && applied <= |l.chain|
    && head == LastPosition(l.chain[..applied])
    && state == Fold(l.chain[..applied])
  }

  /** At most one batch lies beyond the head, and all its runs are uncertain. */
  ghost predicate BeyondIsUncertain(l: Log, applied: nat, uncertain: set<Run>) {
    && |l.chain| - applied + PendingCount(l) <= 1
    && (forall i :: applied <= i < |l.chain| ==> RunsOf(l.chain[i].batch.members) <= uncertain)
    && (l.pending.Some? ==> RunsOf(l.pending.value.batch.members) <= uncertain)
  }

  function PendingCount(l: Log): nat { if l.pending.Some? then 1 else 0 }

  /** The legacy rows hold what the log folds to, however the pending commit resolves. */
  ghost predicate RowsAgree(l: Log) {
    && l.rows == Fold(l.chain)
    && Settled(l, true).rows == Fold(Settled(l, true).chain)
  }

  /** The pairs of the runs whose reads are certain. */
  function Certain(state: set<Pair>, uncertain: set<Run>): set<Pair> {
    set p | p in state && p.run !in uncertain
  }

  lemma DriftsKeepOurs(l: Log, firsts: seq<First>)
    requires OursOnly(l) && AnsweredOnce(firsts, l.chain)
    ensures forall l' :: Drifts(l, l') ==> OursOnly(l') && AnsweredOnce(firsts, l'.chain)
  {
    hide Good, RecordsOnlyNew, EventsOf, AnsweredOnce, OwnId;
    SettledIsGood(l, true);
    SettledIsGood(l, false);
    AnsweredOnceGrows(firsts, l.chain, Settled(l, true).chain);
  }

  lemma EmptyFold()
    ensures Fold([]) == {}
  {
  }

  /** A tail read at the held head brings the next batches of the chain. */
  lemma TailIsWhatIsLeft(l: Log, applied: nat, state: set<Pair>, head: nat, bound: nat)
    requires OursOnly(l) && Replays(l, applied, state, head) && bound > 0
    ensures
      var batches := Take(Tail(l.chain, head), bound);
      && applied + |batches| <= |l.chain|
      && (forall i :: 0 <= i < |batches| ==> batches[i] == l.chain[applied + i].batch)
      && (batches == [] ==> applied == |l.chain|)
  {
    hide GapFree, Fold, Tail, Batches, RecordsOnlyNew, EventsOf, LastPosition;
    TailOfWhole(l.chain, applied, head);
  }

  /** Drifting keeps everything the ledger relies on. */
  lemma DriftKeeps(l: Log, l': Log, applied: nat, state: set<Pair>, head: nat)
    requires OursOnly(l) && Replays(l, applied, state, head) && Drifts(l, l')
    ensures OursOnly(l') && Replays(l', applied, state, head)
    ensures RowsAgree(l) ==> RowsAgree(l')
    ensures |l'.chain| + PendingCount(l') <= |l.chain| + PendingCount(l)
    ensures forall uncertain: set<Run> :: BeyondIsUncertain(l, applied, uncertain) ==> BeyondIsUncertain(l', applied, uncertain)
  {
    hide Good, Fold, ExecAll, LastPosition, RecordsOnlyNew, RunsOf, EventsOf;
    SettledIsGood(l, true);
    SettledIsGood(l, false);
    assert l'.chain[..applied] == l.chain[..applied];
  }

  lemma OneMoreBatch(chain: seq<Entry>, applied: nat, p: Pair)
    requires applied <= |chain| <= applied + 1
    requires applied < |chain| ==> p.run !in RunsOf(chain[applied].batch.members)
    ensures p in Fold(chain[..applied]) <==> p in Fold(chain)
  {
    if applied == |chain| {
      assert chain[..applied] == chain;
    } else {
      assert chain == chain[..applied] + [chain[applied]];
      FoldPush(chain[..applied], chain[applied]);
      ApplyAllIsLocal(Fold(chain[..applied]), chain[applied].batch.members, p);
    }
  }

  /**
   **A certain run's answer is the log's own**: whichever way a pending commit
   resolves, the whole log folds to what the held state says of that run.
   */
  lemma CertainAnswersAreTheLogs(l: Log, l': Log, applied: nat, state: set<Pair>, head: nat, uncertain: set<Run>, p: Pair)
    requires Replays(l, applied, state, head) && BeyondIsUncertain(l, applied, uncertain)
    requires Drifts(l, l') && p.run !in uncertain
    ensures p in state <==> p in Fold(l'.chain)
  {
    assert l'.chain[..applied] == l.chain[..applied];
    OneMoreBatch(l'.chain, applied, p);
  }

  /** The statements a live batch carries, event by event. */
  function StatementOf(e: Event): Statement {
    match e
    case Recorded(run, domain, _) => InsertRow(Pair(run, domain))
    case Cleared(run) => DeleteRun(run)
  }

  function StatementsOf(events: seq<Event>): (r: seq<Statement>)
    ensures |r| == |events|
    ensures forall i :: 0 <= i < |r| ==> r[i] == StatementOf(events[i])
    decreases |events|
  {
    if events == [] then [] else StatementsOf(events[..|events| - 1]) + [StatementOf(events[|events| - 1])]
  }

  /** The statements do to the rows what the events do to the pairs. */
  lemma {:induction false} StatementsDoWhatEventsDo(rows: set<Pair>, events: seq<Event>)
    ensures ExecAll(rows, StatementsOf(events)) == ApplyAll(rows, events)
    decreases |events|
  {
    if events != [] {
      StatementsDoWhatEventsDo(rows, events[..|events| - 1]);
      assert StatementsOf(events)[..|events| - 1] == StatementsOf(events[..|events| - 1]);
    }
  }

  /** Events that record nothing held keep the chain clean. */
  lemma CleanPush(events: seq<Event>, more: seq<Event>)
    requires RecordsOnlyNew({}, events)
    requires RecordsOnlyNew(ApplyAll({}, events), more)
    ensures RecordsOnlyNew({}, events + more)
  {
    var all := events + more;
    forall i | 0 <= i < |all| && all[i].Recorded?
      ensures Pair(all[i].run, all[i].domain) !in ApplyAll({}, all[..i])
    {
      if i < |events| {
        assert all[..i] == events[..i];
      } else {
        assert all[..i] == events + more[..i - |events|];
        ApplyAllConcat({}, events, more[..i - |events|]);
      }
    }
  }

  /** A new batch at the end of a caught-up log: fresh, clean, and ours. */
  lemma NewBatchFits(l: Log, e: Entry)
    requires OursOnly(l) && l.pending.None?
    requires e.batch.prev == LastPosition(l.chain) && OwnId(e.batch)
    requires RecordsOnlyNew(Fold(l.chain), e.batch.members)
    ensures Extends(l.chain, e)
    ensures OursOnly(Extended(l, e)) && OursOnly(l.(pending := Some(e)))
  {
    hide GapFree, DistinctIds, RecordsOnlyNew, ExecAll, EventsOf, ApplyAll;
    NewIdentityIsFresh(l, e);
    ExtendedIsGood(l, e);
    EventsPush(l.chain, e);
    CleanPush(EventsOf(l.chain), e.batch.members);
  }

  /** A batch sealed at the head has an identity no stored batch has. */
  lemma NewIdentityIsFresh(l: Log, e: Entry)
    requires OursOnly(l) && e.batch.prev == LastPosition(l.chain) && OwnId(e.batch)
    ensures !Stored(l.chain, e.batch.id)
  {
    hide RecordsOnlyNew, EventsOf, DistinctIds, ExecAll;
    var chain := l.chain;
    forall i | 0 <= i < |chain|
      ensures chain[i].batch.id != e.batch.id
    {
      LastPositionGrows(chain, i, |chain|);
      assert chain[..|chain|] == chain;
      assert OwnId(chain[i].batch);
    }
  }

  lemma {:induction false} EventsOfPrefix(a: seq<Entry>, b: seq<Entry>)
    requires a <= b
    ensures EventsOf(a) <= EventsOf(b)
    decreases |b|
  {
    if |a| < |b| {
      EventsOfPrefix(a, b[..|b| - 1]);
    } else {
      assert a == b;
    }
  }

  /** A call answered `true` for `pair` at the event before position `at` of the log. */
  datatype First = First(pair: Pair, at: nat)

  /** Each `true` answer stands on its own `Recorded` event of the log. */
  ghost predicate AnsweredOnce(firsts: seq<First>, chain: seq<Entry>) {
    var events := EventsOf(chain);
    && (forall i :: 0 <= i < |firsts| ==>
          firsts[i].at < |events| && events[firsts[i].at].Recorded?
          && Pair(events[firsts[i].at].run, events[firsts[i].at].domain) == firsts[i].pair)
    && (forall i, j :: 0 <= i < j < |firsts| ==> firsts[i].at < firsts[j].at)
  }

  /**
   **At most one `true` per pair between two clears**: two `true` answers for
   one pair have a `Cleared` of its run between their events in the durable log.
   */
  lemma TwoFirstsHaveAClearBetween(firsts: seq<First>, l: Log, i: nat, j: nat)
    requires OursOnly(l) && AnsweredOnce(firsts, l.chain)
    requires i < j < |firsts| && firsts[i].pair == firsts[j].pair
    ensures firsts[j].at < |EventsOf(l.chain)|
    ensures exists k :: firsts[i].at < k < firsts[j].at && EventsOf(l.chain)[k] == Cleared(firsts[i].pair.run)
  {
    var events := EventsOf(l.chain);
    TwoRecordsHaveAClearBetween(events, firsts[i].at, firsts[j].at);
    var k :| firsts[i].at < k < firsts[j].at && events[k] == Cleared(events[firsts[i].at].run);
  }

  lemma PreparedIsNew(state: set<Pair>, pair: Pair, at: int)
    requires pair !in state
    ensures RecordsOnlyNew(state, PrepareContact(state, pair, at))
  {
    assert PrepareContact(state, pair, at)[..0] == [];
  }

  lemma ClearIsNew(state: set<Pair>, run: Run)
    ensures RecordsOnlyNew(state, [Cleared(run)])
    ensures forall p :: p in ApplyAll(state, [Cleared(run)]) ==> p.run != run
  {
    ApplyAllOne(state, Cleared(run));
  }

  lemma FirstPush(firsts: seq<First>, chain: seq<Entry>, e: Entry, pair: Pair, at: int)
    requires AnsweredOnce(firsts, chain) && e.batch.members == [Recorded(pair.run, pair.domain, at)]
    ensures |EventsOf(chain + [e])| == |EventsOf(chain)| + 1
    ensures AnsweredOnce(firsts + [First(pair, |EventsOf(chain)|)], chain + [e])
  {
    EventsPush(chain, e);
  }

  lemma AnsweredOnceGrows(firsts: seq<First>, chain: seq<Entry>, chain': seq<Entry>)
    requires AnsweredOnce(firsts, chain) && chain <= chain'
    ensures AnsweredOnce(firsts, chain')
  {
    EventsOfPrefix(chain, chain');
  }

  /** What an append of a new batch, on a settled log, may answer and leave. */
  lemma AppendOutcome(l: Log, e: Entry, ready: bool, reply: AppendReply, l': Log)
    requires l.pending.None? && Extends(l.chain, e) && AppendStep(l, e.batch.prev, e, ready, reply, l')
    ensures reply.Err? ==> reply.error == LogError.Store && l' == l
    ensures reply.Ok? && reply.value.Committed? ==> reply.value.range == RangeOf(e.batch) && l' == Extended(l, e)
    ensures reply == Ok(DefinitelyNotCommitted) ==> l' == l
    ensures reply == Ok(Append.Indeterminate) ==> l' == l || l' == Extended(l, e) || l' == l.(pending := Some(e))
  {
  }

  lemma StatementsPrefix(events: seq<Event>, n: nat)
    requires n <= |events|
    ensures StatementsOf(events)[..n] == StatementsOf(events[..n])
  {
  }

  /** **No insert meets an existing row**: what is recorded is new to the rows too. */
  lemma StatementsNeverClash(rows: set<Pair>, events: seq<Event>)
    requires RecordsOnlyNew(rows, events)
    ensures NoClash(rows, StatementsOf(events))
  {
    var statements := StatementsOf(events);
    forall i | 0 <= i < |statements| && statements[i].InsertRow?
      ensures statements[i].pair !in ExecAll(rows, statements[..i])
    {
      StatementsPrefix(events, i);
      StatementsDoWhatEventsDo(rows, events[..i]);
    }
  }

  lemma NothingClashes(rows: set<Pair>)
    ensures NoClash(rows, []) && ExecAll(rows, []) == rows
  {
  }

  /** After an unknown append the batch is beyond the head, wherever it went. */
  lemma UnknownAppendKeeps(l: Log, e: Entry, l': Log, state: set<Pair>, head: nat, uncertain: set<Run>)
    requires OursOnly(l) && l.pending.None? && Replays(l, |l.chain|, state, head)
    requires OursOnly(Extended(l, e)) && OursOnly(l.(pending := Some(e)))
    requires l' == l || l' == Extended(l, e) || l' == l.(pending := Some(e))
    ensures OursOnly(l') && Replays(l', |l.chain|, state, head)
    ensures BeyondIsUncertain(l', |l.chain|, uncertain + RunsOf(e.batch.members))
  {
    hide OursOnly, Fold, LastPosition, RunsOf;
    assert l'.chain[..|l.chain|] == l.chain[..|l.chain|];
  }

  /** The rows follow a batch whose statements do what its events do. */
  lemma RowsFollowAppend(l: Log, e: Entry)
    requires l.rows == Fold(l.chain) && l.pending.None?
    requires e.beside == StatementsOf(e.batch.members)
    ensures RowsAgree(l) && RowsAgree(Extended(l, e)) && RowsAgree(l.(pending := Some(e)))
  {
    FoldPush(l.chain, e);
    StatementsDoWhatEventsDo(l.rows, e.batch.members);
  }

  lemma RowsFollowAppendOf(l: Log, e: Entry)
    requires RowsAgree(l) && l.pending.None? && e.beside == StatementsOf(e.batch.members)
    ensures l.rows == Fold(l.chain)
    ensures RowsAgree(Extended(l, e)) && RowsAgree(l.(pending := Some(e)))
  {
    RowsFollowAppend(l, e);
  }

  lemma CommittedState(l: Log, e: Entry, state: set<Pair>)
    requires state == Fold(l.chain)
    ensures ApplyAll(state, e.batch.members) == Fold(Extended(l, e).chain)
    ensures Extended(l, e).chain[..|l.chain| + 1] == Extended(l, e).chain
  {
    FoldPush(l.chain, e);
  }

  lemma FewerBeyond(l: Log, applied: nat, applied': nat, uncertain: set<Run>)
    requires BeyondIsUncertain(l, applied, uncertain) && applied <= applied'
    ensures BeyondIsUncertain(l, applied', uncertain)
  {
  }

  lemma AppliedIsInRange(l: Log, applied: nat, state: set<Pair>, head: nat)
    requires Replays(l, applied, state, head)
    ensures applied <= |l.chain|
  {
  }

  lemma NothingBeyond(l: Log, uncertain: set<Run>)
    requires l.pending.None?
    ensures BeyondIsUncertain(l, |l.chain|, uncertain)
  {
  }

  /** A catch-up that went only part of the way moved no certain pair. */
  lemma CertainPairsStay(l: Log, l': Log, applied: nat, applied': nat, state: set<Pair>, state': set<Pair>,
                         head: nat, head': nat, uncertain: set<Run>)
    requires Replays(l, applied, state, head) && BeyondIsUncertain(l, applied, uncertain) && Drifts(l, l')
    requires Replays(l', applied', state', head') && BeyondIsUncertain(l', applied', uncertain)
    ensures Certain(state', uncertain) == Certain(state, uncertain)
  {
    hide Replays, BeyondIsUncertain, Fold;
    forall p: Pair | p.run !in uncertain
      ensures p in state <==> p in state'
    {
      CertainAnswersAreTheLogs(l, l', applied, state, head, uncertain, p);
      CertainAnswersAreTheLogs(l', l', applied', state', head', uncertain, p);
    }
  }

  // ---- What a call of the ledger may put in the log ----

  /** The batch of these members at the end of a log, carrying its own rows or none. */
  function SealedOn(m: Log, members: seq<Event>, withRows: bool): Entry
    requires members != []
  {
    var head := LastPosition(m.chain);
    Entry(Batch(Identity(head, members), head, members), if withRows then StatementsOf(members) else [])
  }

  /** A settled log after a batch was sent whose outcome nobody knows. */
  ghost predicate MaySend(m: Log, e: Entry, l': Log) {
    l' == m || l' == Extended(m, e) || l' == m.(pending := Some(e))
  }

  /** A settled log and exactly one batch more, of these members. */
  ghost predicate Took(m: Log, members: seq<Event>, withRows: bool, l': Log) {
    members != [] && l' == Extended(m, SealedOn(m, members, withRows))
  }

  ghost predicate MayHaveTaken(m: Log, members: seq<Event>, withRows: bool, l': Log) {
    members != [] && MaySend(m, SealedOn(m, members, withRows), l')
  }

  lemma DriftsCompose(l: Log, l': Log, l'': Log)
    requires Drifts(l, l') && Drifts(l', l'')
    ensures Drifts(l, l'')
  {
  }

  lemma SendingDrifts(m: Log, e: Entry, l': Log, l'': Log)
    requires m.pending.None? && MaySend(m, e, l') && Drifts(l', l'')
    ensures MaySend(m, e, l'')
  {
  }

  /** What a boot brings the ledger to: the rows, or without a shadow the log if it holds anything. */
  function Wanted(m: Log, shadowed: bool): set<Pair> {
    if shadowed || m.chain == [] then m.rows else Fold(m.chain)
  }

  /** The log folds to these pairs by one batch more, or by none if it did already; no row moved. */
  ghost predicate BroughtTo(m: Log, wanted: set<Pair>, l': Log) {
    if Fold(m.chain) == wanted then l' == m
    else
      && |l'.chain| == |m.chain| + 1 && m.chain <= l'.chain && l'.pending.None?
      && Fold(l'.chain) == wanted && l'.rows == m.rows
  }

  /** The one batch that would bring the log to these pairs may be in it, or in flight. */
  ghost predicate MayBring(m: Log, wanted: set<Pair>, l': Log) {
    exists e: Entry :: e.beside == [] && Fold(m.chain) != wanted && Fold(m.chain + [e]) == wanted && MaySend(m, e, l')
  }

  // ---- Reads that wait for nobody ----

  /**
   The logs that a reader without the lock may meet while a call runs that appends
   `e` at most: the server's own drift of the log at the call's start, and the
   call's batch sent or landed on it.
   */
  ghost predicate MayMeet(l: Log, e: Entry, l': Log) {
    || Drifts(l, l')
    || exists landed: bool :: l' == Settled(l, landed).(pending := Some(e)) || l' == Extended(Settled(l, landed), e)
  }

  /** `start` is the log as it was when `pairs` was last published, by a call that held the lock. */
  ghost predicate PublishedFrom(start: Log, pairs: set<Pair>) {
    exists applied: nat, state: set<Pair>, head: nat, uncertain: set<Run> ::
      Replays(start, applied, state, head) && BeyondIsUncertain(start, applied, uncertain) && pairs == Certain(state, uncertain)
  }

  lemma PublishedWhenCaughtUp(start: Log, state: set<Pair>, head: nat, pairs: set<Pair>)
    requires start.pending.None? && Replays(start, |start.chain|, state, head) && pairs == Certain(state, {})
    ensures PublishedFrom(start, pairs)
  {
    NothingBeyond(start, {});
  }

  /** The call's own batch has landed. */
  ghost predicate LandedIn(l: Log, e: Entry, l': Log) {
    exists landed: bool :: l' == Extended(Settled(l, landed), e)
  }

  /** What the server does on its own leads from one such log to another. */
  lemma MeetingGoesOn(l: Log, e: Entry, l': Log, l'': Log)
    requires MayMeet(l, e, l') && Drifts(l', l'')
    ensures MayMeet(l, e, l'')
  {
    if landed: bool :| l' == Settled(l, landed).(pending := Some(e)) {
      assert Settled(l', true) == Extended(Settled(l, landed), e);
      assert Settled(l', false) == Settled(l, landed);
    }
  }

  /** Whatever an append answers, the log it leaves is one of them. */
  lemma AnAppendIsMet(l: Log, head: nat, e: Entry, ready: bool, reply: AppendReply, l': Log)
    requires AppendStep(l, head, e, ready, reply, l')
    ensures MayMeet(l, e, l')
  {
    if ready {
      var landed: bool :| AppendFrom(Settled(l, landed), head, e, reply, l');
      assert Drifts(l, Settled(l, landed));
    }
  }

  /** The pair is recorded again after every clear of its run. */
  ghost predicate KeepsPair(events: seq<Event>, p: Pair) {
    forall i :: 0 <= i < |events| && events[i] == Cleared(p.run)
      ==> exists j :: i < j < |events| && events[j].Recorded? && Pair(events[j].run, events[j].domain) == p
  }

  lemma {:induction false} AHeldPairStaysIfKept(held: set<Pair>, events: seq<Event>, p: Pair)
    requires p in held
    ensures p in ApplyAll(held, events) <==> KeepsPair(events, p)
    decreases |events|
  {
    if events != [] {
      var n := |events| - 1;
      var init, last := events[..n], events[n];
      AHeldPairStaysIfKept(held, init, p);
      if last == Cleared(p.run) {
        assert !KeepsPair(events, p);
      } else if last.Recorded? && Pair(last.run, last.domain) == p {
        assert KeepsPair(events, p);
      } else {
        KeepingIsOfThePrefix(events, p);
      }
    }
  }

  lemma KeepingIsOfThePrefix(events: seq<Event>, p: Pair)
    requires events != []
    requires
      var last := events[|events| - 1];
      last != Cleared(p.run) && !(last.Recorded? && Pair(last.run, last.domain) == p)
    ensures KeepsPair(events, p) <==> KeepsPair(events[..|events| - 1], p)
  {
    var init := events[..|events| - 1];
    if KeepsPair(events, p) {
      forall i | 0 <= i < |init| && init[i] == Cleared(p.run)
        ensures exists j :: i < j < |init| && init[j].Recorded? && Pair(init[j].run, init[j].domain) == p
      {
        var j :| i < j < |events| && events[j].Recorded? && Pair(events[j].run, events[j].domain) == p;
        assert init[j] == events[j];
      }
    }
    if KeepsPair(init, p) {
      forall i | 0 <= i < |events| && events[i] == Cleared(p.run)
        ensures exists j :: i < j < |events| && events[j].Recorded? && Pair(events[j].run, events[j].domain) == p
      {
        assert init[i] == Cleared(p.run);
        var j :| i < j < |init| && init[j].Recorded? && Pair(init[j].run, init[j].domain) == p;
        assert events[j] == init[j];
      }
    }
  }

  /** A batch of one event, as a contact or a clear sends it, keeps a pair unless it clears the pair's run. */
  lemma OneEventKeepsUnlessItClears(event: Event, p: Pair)
    ensures KeepsPair([event], p) <==> event != Cleared(p.run)
  {
    assert [event][0] == event;
  }

  /**
   **A read at any instant of another call.** A pair published from the log as it
   was at that call's start is in the durable log if and only if the call's batch
   has not landed, or keeps the pair.
   */
  lemma AReadAtAnyInstant(l: Log, e: Entry, l': Log, applied: nat, state: set<Pair>, head: nat, uncertain: set<Run>, p: Pair)
    requires Replays(l, applied, state, head) && BeyondIsUncertain(l, applied, uncertain)
    requires MayMeet(l, e, l') && p in Certain(state, uncertain)
    ensures p in Fold(l'.chain) <==> !LandedIn(l, e, l') || KeepsPair(e.batch.members, p)
  {
    hide Replays, BeyondIsUncertain, Fold, KeepsPair;
    forall landed: bool
      ensures p in Fold(Settled(l, landed).chain)
      ensures p in Fold(Extended(Settled(l, landed), e).chain) <==> KeepsPair(e.batch.members, p)
    {
      CertainAnswersAreTheLogs(l, Settled(l, landed), applied, state, head, uncertain, p);
      FoldPush(Settled(l, landed).chain, e);
      AHeldPairStaysIfKept(Fold(Settled(l, landed).chain), e.batch.members, p);
    }
    CertainAnswersAreTheLogs(l, l, applied, state, head, uncertain, p);
  }

  /** The same of whatever was published from that log. */
  lemma APublishedPairAtAnyInstant(start: Log, e: Entry, l': Log, pairs: set<Pair>, p: Pair)
    requires PublishedFrom(start, pairs) && MayMeet(start, e, l') && p in pairs
    ensures p in Fold(l'.chain) <==> !LandedIn(start, e, l') || KeepsPair(e.batch.members, p)
  {
    var applied: nat, state: set<Pair>, head: nat, uncertain: set<Run> :|
      Replays(start, applied, state, head) && BeyondIsUncertain(start, applied, uncertain) && pairs == Certain(state, uncertain);
    AReadAtAnyInstant(start, e, l', applied, state, head, uncertain, p);
  }

  /**
   **A forget in flight is not seen.** Its clear has landed and nothing has been
   published yet: a pair that is still published is in no durable log any more.
   */
  lemma AForgetInFlightIsNotSeen()
    ensures
      var pair := Pair("run", "domain");
      var taught: seq<Event>, forgotten: seq<Event> := [Recorded("run", "domain", 0)], [Cleared("run")];
      var first, clear := Entry(Batch(Sealed(0, taught), 0, taught), []), Entry(Batch(Sealed(1, forgotten), 1, forgotten), []);
      var l := Log([first], None, {});
      && OursOnly(l) && Replays(l, 1, {pair}, 1) && BeyondIsUncertain(l, 1, {}) && pair in Certain({pair}, {})
      && MayMeet(l, clear, Extended(l, clear)) && pair !in Fold(Extended(l, clear).chain)
  {
    var pair := Pair("run", "domain");
    var taught: seq<Event>, forgotten: seq<Event> := [Recorded("run", "domain", 0)], [Cleared("run")];
    var first, clear := Entry(Batch(Sealed(0, taught), 0, taught), []), Entry(Batch(Sealed(1, forgotten), 1, forgotten), []);
    var l := Log([first], None, {});
    assert l.chain[..0] == [] && l.chain[..1] == l.chain;
    assert EventsOf(l.chain) == taught by {
      assert [] + taught == taught;
    }
    ApplyAllOne({}, taught[0]);
    assert taught[..0] == [];
    assert Fold(l.chain) == {pair};
    assert Settled(l, true) == l;
    assert OursOnly(l);
    FoldPush(l.chain, clear);
    ApplyAllOne({pair}, forgotten[0]);
    assert Extended(l, clear) == Extended(Settled(l, true), clear);
  }
}
