/**
 The lane that takes a call's bookkeeping off the path of its answer: callers queue
 counts and return, one worker applies them in order, and the calls that show or
 reset a count wait for a token they send down the same lane. Every interleaving
 of callers and worker is a run of `Step`s.
 */
module DeferredCounts {

  type Key = nat
  type Run = nat
  type Day = nat

  datatype Work =
    | Count(key: Key)
    | Served(run: Run, chars: nat, day: Day)
    | Settle(call: nat)

  /** A number the store keeps. */
  datatype Counter = Calls(key: Key) | RunTotal(run: Run) | DayTotal(run: Run, day: Day)

  type Totals = map<Counter, nat>

  datatype Asks = Read | Reset(run: Run)

  /** `Done` remembers how much of the lane was decided when the store answered. */
  datatype Phase =
    | Begun
    | Waiting(token: nat)
    | Settled
    | Done(cut: nat, seen: Totals, since: map<Run, nat>)
    | Refused
    | Left

  /** `mark` is how many items were queued when the call was made. */
  datatype Call = Call(asks: Asks, mark: nat, phase: Phase)

  datatype Worker = Idle | Applying(landed: bool)

  /** `took[i]` says that the store took the i-th item of the lane. */
  datatype State = State(
    laneOpen: bool,
    sent: seq<Work>,
    took: seq<bool>,
    worker: Worker,
    totals: Totals,
    since: map<Run, nat>,
    calls: seq<Call>)

  datatype Step =
    | Open
    | Queue(work: Work)
    | Ask(asks: Asks)
    | Look(call: nat)
    | Pop
    | Land
    | End(panicked: bool)
    | Do(call: nat)
    | Refuse(call: nat)
    | Leave(call: nat)

  function At(totals: Totals, c: Counter): nat {
    if c in totals then totals[c] else 0
  }

  /** What one item adds to one number. */
  function Adds(work: Work, c: Counter): nat {
    match work
    case Count(key) => if c == Calls(key) then 1 else 0
    case Served(run, chars, day) => if c == RunTotal(run) || c == DayTotal(run, day) then chars else 0
    case Settle(_) => 0
  }

  /** The store's own arithmetic: a call counts once, an answer adds to its run and its day. */
  function Taking(totals: Totals, work: Work): Totals {
    match work
    case Count(key) => totals[Calls(key) := At(totals, Calls(key)) + 1]
    case Served(run, chars, day) =>
      totals[RunTotal(run) := At(totals, RunTotal(run)) + chars]
            [DayTotal(run, day) := At(totals, DayTotal(run, day)) + chars]
    case Settle(_) => totals
  }

  function Initial(start: Totals): State {
    State(false, [], [], Idle, start, map[], [])
  }

  function PhaseOf(s: State, call: nat): Phase {
    if call < |s.calls| then s.calls[call].phase else Left
  }

  function WithPhase(s: State, call: nat, phase: Phase): State
    requires call < |s.calls|
  {
    s.(calls := s.calls[call := s.calls[call].(phase := phase)])
  }

  /** How many items are over: applied, refused or panicked. */
  function Over(s: State): int { if s.worker.Applying? then |s.took| - 1 else |s.took| }

  /** How many items can no longer change whether the store took them. */
  function Cut(s: State): int { if s.worker == Applying(false) then |s.took| - 1 else |s.took| }

  predicate Enabled(s: State, step: Step) {
    match step
    case Open => true
    case Queue(work) => s.laneOpen && !work.Settle?
    case Ask(_) => true
    case Look(call) => PhaseOf(s, call).Begun?
    case Pop => s.worker.Idle? && |s.took| < |s.sent|
    case Land => s.worker == Applying(false) && 0 < |s.took| <= |s.sent|
    case End(_) => s.worker.Applying? && 0 < |s.took| <= |s.sent|
    case Do(call) => PhaseOf(s, call).Settled? && Cut(s) >= 0
    case Refuse(call) => PhaseOf(s, call).Settled?
    case Leave(call) => PhaseOf(s, call).Begun? || PhaseOf(s, call).Waiting?
  }

  /** What the store does for a call that waited: a reset sets its run's total back. */
  function Answering(s: State, asks: Asks, cut: nat): State {
    match asks
    case Read => s
    case Reset(run) => s.(totals := s.totals[RunTotal(run) := 0], since := s.since[run := cut])
  }

  function After(s: State, step: Step): State
    requires Enabled(s, step)
  {
    match step
    case Open => s.(laneOpen := true)
    case Queue(work) => s.(sent := s.sent + [work])
    case Ask(asks) => s.(calls := s.calls + [Call(asks, |s.sent|, Begun)])
    // A lane no count has opened holds nothing to wait for.
    case Look(call) =>
      if s.laneOpen then WithPhase(s, call, Waiting(|s.sent|)).(sent := s.sent + [Settle(call)])
      else WithPhase(s, call, Settled)
    case Pop => s.(took := s.took + [false], worker := Applying(false))
    case Land =>
      s.(took := s.took[|s.took| - 1 := true], worker := Applying(true),
         totals := Taking(s.totals, s.sent[|s.took| - 1]))
    // A panic ends one application and the worker takes the next item.
    case End(_) =>
      var work := s.sent[|s.took| - 1];
      var t := s.(worker := Idle);
      if work.Settle? && PhaseOf(s, work.call).Waiting? then WithPhase(t, work.call, Settled) else t
    case Do(call) =>
      var cut: nat := Cut(s);
      var t := Answering(s, s.calls[call].asks, cut);
      WithPhase(t, call, Done(cut, t.totals, t.since))
    case Refuse(call) => WithPhase(s, call, Refused)
    case Leave(call) => WithPhase(s, call, Left)
  }

  /** What the items from `from` up to `upto` that the store took add to one number. */
  function Tally(sent: seq<Work>, took: seq<bool>, from: nat, upto: nat, c: Counter): nat
    requires upto <= |took| && upto <= |sent|
    decreases upto
  {
    if upto <= from then 0
    else Tally(sent, took, from, upto - 1, c) + if took[upto - 1] then Adds(sent[upto - 1], c) else 0
  }

  lemma {:induction false} TallyIsOfItsItems(sent: seq<Work>, took: seq<bool>, sent': seq<Work>, took': seq<bool>,
                                             from: nat, upto: nat, c: Counter)
    requires upto <= |took| && upto <= |sent| && upto <= |took'| && upto <= |sent'|
    requires sent[..upto] == sent'[..upto] && took[..upto] == took'[..upto]
    ensures Tally(sent, took, from, upto, c) == Tally(sent', took', from, upto, c)
    decreases upto
  {
    if from < upto {
      assert sent[..upto][upto - 1] == sent'[..upto][upto - 1] && took[..upto][upto - 1] == took'[..upto][upto - 1];
      assert sent[..upto - 1] == sent[..upto][..upto - 1] && sent'[..upto - 1] == sent'[..upto][..upto - 1];
      assert took[..upto - 1] == took[..upto][..upto - 1] && took'[..upto - 1] == took'[..upto][..upto - 1];
      TallyIsOfItsItems(sent, took, sent', took', from, upto - 1, c);
    }
  }

  /** A reset starts a run's total again from the items not decided when it was applied. */
  function From(since: map<Run, nat>, c: Counter): nat {
    if c.RunTotal? && c.run in since then since[c.run] else 0
  }

  function Base(start: Totals, since: map<Run, nat>, c: Counter): nat {
    if c.RunTotal? && c.run in since then 0 else At(start, c)
  }

  /** The totals are the starting ones and exactly what the store took of the first `cut` items. */
  ghost predicate Explains(start: Totals, sent: seq<Work>, took: seq<bool>, cut: nat, since: map<Run, nat>, totals: Totals) {
    && cut <= |took| && cut <= |sent|
    && (forall run :: run in since ==> since[run] <= cut)
    && forall c: Counter {:trigger At(totals, c)} :: At(totals, c) == Base(start, since, c) + Tally(sent, took, From(since, c), cut, c)
  }

  lemma ExplainsOnlyItsItems(start: Totals, sent: seq<Work>, took: seq<bool>, sent': seq<Work>, took': seq<bool>,
                             cut: nat, since: map<Run, nat>, totals: Totals)
    requires Explains(start, sent, took, cut, since, totals)
    requires cut <= |took'| && cut <= |sent'|
    requires sent[..cut] == sent'[..cut] && took[..cut] == took'[..cut]
    ensures Explains(start, sent', took', cut, since, totals)
  {
    forall c: Counter
      ensures At(totals, c) == Base(start, since, c) + Tally(sent', took', From(since, c), cut, c)
    {
      TallyIsOfItsItems(sent, took, sent', took', From(since, c), cut, c);
    }
  }

  ghost predicate CallFits(start: Totals, s: State, call: nat)
    requires call < |s.calls|
  {
    var mark := s.calls[call].mark;
    && mark <= |s.sent|
    && match s.calls[call].phase
       case Waiting(token) => Over(s) <= token < |s.sent| && s.sent[token] == Settle(call)
       case Settled => mark <= Over(s)
       case Done(cut, seen, since) =>
         && mark <= cut <= Cut(s) && Explains(start, s.sent, s.took, cut, since, seen)
         && (s.calls[call].asks.Reset? ==> s.calls[call].asks.run in s.since && cut <= s.since[s.calls[call].asks.run])
       case _ => true
  }

  ghost predicate Invariant(start: Totals, s: State) {
    && |s.took| <= |s.sent|
    && (s.worker.Applying? ==> |s.took| > 0)
    && (s.worker == Applying(false) ==> !s.took[|s.took| - 1])
    && (!s.laneOpen ==> s.sent == [])
    && (forall i :: 0 <= i < |s.sent| && s.sent[i].Settle? ==>
          s.sent[i].call < |s.calls| && s.calls[s.sent[i].call].mark <= i)
    && (forall call :: 0 <= call < |s.calls| ==> CallFits(start, s, call))
    && Explains(start, s.sent, s.took, Cut(s), s.since, s.totals)
  }

  lemma LandingIsExplained(start: Totals, sent: seq<Work>, took: seq<bool>, cut: nat, since: map<Run, nat>, totals: Totals)
    requires Explains(start, sent, took, cut, since, totals) && cut < |took| && cut < |sent|
    ensures Explains(start, sent, took[cut := true], cut + 1, since, Taking(totals, sent[cut]))
  {
    var took' := took[cut := true];
    assert took'[..cut] == took[..cut];
    ExplainsOnlyItsItems(start, sent, took, sent, took', cut, since, totals);
    forall c: Counter
      ensures At(Taking(totals, sent[cut]), c) == Base(start, since, c) + Tally(sent, took', From(since, c), cut + 1, c)
    {
      assert At(totals, c) == Base(start, since, c) + Tally(sent, took', From(since, c), cut, c);
    }
  }

  /** An item that ended without landing adds nothing. */
  lemma EndingIsExplained(start: Totals, sent: seq<Work>, took: seq<bool>, cut: nat, since: map<Run, nat>, totals: Totals)
    requires Explains(start, sent, took, cut, since, totals) && cut < |took| && cut < |sent| && !took[cut]
    ensures Explains(start, sent, took, cut + 1, since, totals)
  {
    forall c: Counter
      ensures At(totals, c) == Base(start, since, c) + Tally(sent, took, From(since, c), cut + 1, c)
    {
      assert At(totals, c) == Base(start, since, c) + Tally(sent, took, From(since, c), cut, c);
    }
  }

  lemma ResettingIsExplained(start: Totals, sent: seq<Work>, took: seq<bool>, cut: nat, since: map<Run, nat>,
                             totals: Totals, run: Run)
    requires Explains(start, sent, took, cut, since, totals)
    ensures Explains(start, sent, took, cut, since[run := cut], totals[RunTotal(run) := 0])
  {
    var since' := since[run := cut];
    var totals' := totals[RunTotal(run) := 0];
    forall c: Counter
      ensures At(totals', c) == Base(start, since', c) + Tally(sent, took, From(since', c), cut, c)
    {
      assert At(totals, c) == Base(start, since, c) + Tally(sent, took, From(since, c), cut, c);
    }
  }

  lemma TheTotalsStayExplained(start: Totals, s: State, step: Step)
    requires Invariant(start, s) && Enabled(s, step)
    ensures
      var s' := After(s, step);
      && 0 <= Cut(s) <= Cut(s')
      && Explains(start, s'.sent, s'.took, Cut(s'), s'.since, s'.totals)
  {
    hide CallFits, Explains, Tally, Taking;
    var s' := After(s, step);
    var cut: nat := Cut(s);
    if step.Land? {
      LandingIsExplained(start, s.sent, s.took, cut, s.since, s.totals);
    } else if step.End? && s.worker == Applying(false) {
      EndingIsExplained(start, s.sent, s.took, cut, s.since, s.totals);
    } else if step.Do? && s.calls[step.call].asks.Reset? {
      ResettingIsExplained(start, s.sent, s.took, cut, s.since, s.totals, s.calls[step.call].asks.run);
    } else {
      assert cut <= |s'.sent| && s'.sent[..cut] == s.sent[..cut];
      assert cut <= |s'.took| && s'.took[..cut] == s.took[..cut];
      ExplainsOnlyItsItems(start, s.sent, s.took, s'.sent, s'.took, cut, s.since, s.totals);
    }
  }

  /** The items decided so far keep whether the store took them. */
  lemma DecidedItemsStay(start: Totals, s: State, step: Step, cut: nat)
    requires Invariant(start, s) && Enabled(s, step) && cut <= Cut(s)
    ensures cut <= |s.took| <= |After(s, step).took| && After(s, step).took[..cut] == s.took[..cut]
    ensures |s.calls| <= |After(s, step).calls|
    ensures |s.sent| <= |After(s, step).sent| && After(s, step).sent[..|s.sent|] == s.sent
    ensures Cut(s) <= Cut(After(s, step)) && Over(s) <= Over(After(s, step))
  {
    hide CallFits, Explains;
  }

  lemma MarksFit(start: Totals, s: State, call: nat)
    requires call < |s.calls| && CallFits(start, s, call)
    ensures s.calls[call].mark <= |s.sent|
    ensures s.calls[call].phase.Settled? ==> s.calls[call].mark <= Over(s)
  {
  }

  lemma CallsStay(s: State, step: Step, call: nat)
    requires Enabled(s, step) && call < |s.calls|
    ensures |s.calls| <= |After(s, step).calls|
    ensures
      var before, after := s.calls[call], After(s, step).calls[call];
      && after.mark == before.mark && after.asks == before.asks
      && (before.phase.Done? ==> after == before)
      && (after.phase.Waiting? && before.phase.Waiting? ==> after.phase == before.phase)
      && (after.phase.Settled? && before.phase.Waiting? ==>
            step.End? && 0 < |s.took| <= |s.sent| && s.sent[|s.took| - 1] == Settle(call))
      && (after.phase.Settled? && before.phase.Begun? ==> !s.laneOpen)
      && (after.phase.Waiting? && before.phase.Begun? ==>
            after.phase == Waiting(|s.sent|) && step == Look(call) && s.laneOpen)
      && (after.phase.Done? && !before.phase.Done? ==> before.phase.Settled? && step == Do(call))
      && (after.phase.Waiting? ==> before.phase.Waiting? || before.phase.Begun?)
      && (after.phase.Settled? ==> before.phase.Waiting? || before.phase.Begun? || before.phase.Settled?)
  {
  }

  lemma ANewCallIsMarked(s: State, step: Step, call: nat)
    requires Enabled(s, step) && |s.calls| <= call < |After(s, step).calls|
    ensures After(s, step).calls[call].mark == |s.sent|
  {
  }

  lemma AnAnswerStaysExplained(start: Totals, s: State, step: Step, call: nat)
    requires Invariant(start, s) && Enabled(s, step) && call < |s.calls| && s.calls[call].phase.Done?
    ensures call < |After(s, step).calls| && CallFits(start, After(s, step), call)
  {
    hide Explains, Taking, Tally;
    var s' := After(s, step);
    var done := s.calls[call].phase;
    assert CallFits(start, s, call);
    CallsStay(s, step, call);
    DecidedItemsStay(start, s, step, done.cut);
    assert s'.sent[..done.cut] == s'.sent[..|s.sent|][..done.cut] == s.sent[..done.cut];
    ExplainsOnlyItsItems(start, s.sent, s.took, s'.sent, s'.took, done.cut, done.since, done.seen);
    assert forall run :: run in s.since ==> run in s'.since && (s'.since[run] == s.since[run] || s'.since[run] == Cut(s));
  }

  /** A call that waited for its token has every earlier item over, and keeps what it was told. */
  lemma TheAnswersStayExplained(start: Totals, s: State, step: Step, call: nat)
    requires Invariant(start, s) && Enabled(s, step) && call < |After(s, step).calls|
    ensures CallFits(start, After(s, step), call)
  {
    hide Explains, Taking, Tally;
    DecidedItemsStay(start, s, step, 0);
    if call < |s.calls| {
      assert CallFits(start, s, call);
      if s.calls[call].phase.Done? {
        AnAnswerStaysExplained(start, s, step, call);
      } else if After(s, step).calls[call].phase.Done? {
        CallsStay(s, step, call);
        TheTotalsStayExplained(start, s, step);
      } else {
        AWaitingCallStaysOnTheLane(start, s, step, call);
      }
    }
  }

  lemma AWaitingCallStaysOnTheLane(start: Totals, s: State, step: Step, call: nat)
    requires Invariant(start, s) && Enabled(s, step) && call < |s.calls|
    requires call < |After(s, step).calls| && !After(s, step).calls[call].phase.Done?
    ensures CallFits(start, After(s, step), call)
  {
    hide Explains, Taking, Tally;
    var s' := After(s, step);
    DecidedItemsStay(start, s, step, 0);
    assert CallFits(start, s, call);
    CallsStay(s, step, call);
    if s.calls[call].phase.Waiting? && s'.calls[call].phase.Waiting? {
      var token := s.calls[call].phase.token;
      assert s'.sent[..|s.sent|][token] == s.sent[token];
      assert step.End? ==> s.sent[|s.took| - 1] != Settle(call);
    }
  }

  lemma StepKeepsInvariant(start: Totals, s: State, step: Step)
    requires Invariant(start, s) && Enabled(s, step)
    ensures Invariant(start, After(s, step))
  {
    hide Explains, CallFits, Tally, Taking;
    var s' := After(s, step);
    TheTotalsStayExplained(start, s, step);
    forall call | 0 <= call < |s'.calls|
      ensures CallFits(start, s', call)
    {
      TheAnswersStayExplained(start, s, step, call);
    }
    if step.Look? {
      MarksFit(start, s, step.call);
    }
  }

  ghost predicate IsRun(start: Totals, states: seq<State>, steps: seq<Step>) {
    && |states| == |steps| + 1 && states[0] == Initial(start)
    && forall k :: 0 <= k < |steps| ==> Enabled(states[k], steps[k]) && states[k + 1] == After(states[k], steps[k])
  }

  lemma {:induction false} EveryRunIsExplained(start: Totals, states: seq<State>, steps: seq<Step>, at: nat)
    requires IsRun(start, states, steps) && at < |states|
    ensures Invariant(start, states[at])
  {
    if at > 0 {
      EveryRunIsExplained(start, states, steps, at - 1);
      StepKeepsInvariant(start, states[at - 1], steps[at - 1]);
    }
  }

  lemma {:induction false} ARunOnlyAdds(start: Totals, states: seq<State>, steps: seq<Step>, k: nat, at: nat)
    requires IsRun(start, states, steps) && k <= at < |states|
    ensures |states[k].sent| <= |states[at].sent| && states[at].sent[..|states[k].sent|] == states[k].sent
    ensures |states[k].calls| <= |states[at].calls|
    ensures 0 <= Cut(states[k]) <= Cut(states[at]) && Cut(states[k]) <= |states[k].took| && Cut(states[at]) <= |states[at].took|
    ensures |states[k].took| <= |states[at].took| && states[at].took[..Cut(states[k])] == states[k].took[..Cut(states[k])]
    decreases at
  {
    hide Explains, CallFits, After, Enabled;
    EveryRunIsExplained(start, states, steps, k);
    if k < at {
      ARunOnlyAdds(start, states, steps, k, at - 1);
      EveryRunIsExplained(start, states, steps, at - 1);
      var s, s' := states[at - 1], states[at];
      assert Enabled(s, steps[at - 1]) && s' == After(s, steps[at - 1]);
      var cut, n := Cut(states[k]), |states[k].sent|;
      DecidedItemsStay(start, s, steps[at - 1], cut);
      assert s'.sent[..n] == s'.sent[..|s.sent|][..n];
    }
  }

  /** A call's mark is at least what was queued at any moment before it was made. */
  lemma {:induction false} QueuedBeforeIsMarked(start: Totals, states: seq<State>, steps: seq<Step>, k: nat, at: nat, call: nat)
    requires IsRun(start, states, steps) && k <= at < |states|
    requires |states[k].calls| <= call < |states[at].calls|
    ensures |states[k].sent| <= states[at].calls[call].mark
    decreases at
  {
    hide Explains, CallFits, After, Enabled;
    if k < at {
      var s := states[at - 1];
      assert Enabled(s, steps[at - 1]) && states[at] == After(s, steps[at - 1]);
      ARunOnlyAdds(start, states, steps, k, at - 1);
      if call < |s.calls| {
        QueuedBeforeIsMarked(start, states, steps, k, at - 1, call);
        CallsStay(s, steps[at - 1], call);
      } else {
        ANewCallIsMarked(s, steps[at - 1], call);
      }
    }
  }

  /**
   **A call that settles sees every count queued before it was made**: when it is
   answered all of them are decided, and what it read is the starting totals and
   exactly those of the decided items the store took, in any later state too.
   */
  lemma ASettledCallSeesEveryCountQueuedBefore(start: Totals, states: seq<State>, steps: seq<Step>, k: nat, at: nat,
                                               call: nat, key: Key)
    requires IsRun(start, states, steps) && k <= at < |states|
    requires |states[k].calls| <= call < |states[at].calls| && states[at].calls[call].phase.Done?
    ensures
      var s := states[at];
      var done := s.calls[call].phase;
      && |states[k].sent| <= done.cut <= |s.took| <= |s.sent|
      && Explains(start, s.sent, s.took, done.cut, done.since, done.seen)
      && At(done.seen, Calls(key)) == At(start, Calls(key)) + Tally(s.sent, s.took, 0, done.cut, Calls(key))
  {
    EveryRunIsExplained(start, states, steps, at);
    QueuedBeforeIsMarked(start, states, steps, k, at, call);
    assert CallFits(start, states[at], call);
  }

  /**
   **No count queued before a reset was called lands after it**: whether the store
   took it is fixed once the reset is answered, and the run's total from then on
   is made of items queued after the call and of nothing else.
   */
  lemma NothingQueuedBeforeAResetLandsAfter(start: Totals, states: seq<State>, steps: seq<Step>, k: nat, at: nat,
                                            later: nat, call: nat, i: nat)
    requires IsRun(start, states, steps) && k <= at <= later < |states|
    requires |states[k].calls| <= call < |states[at].calls| && states[at].calls[call].phase.Done?
    requires states[at].calls[call].asks.Reset? && i < |states[k].sent|
    ensures i < |states[at].took| <= |states[later].took| && states[later].took[i] == states[at].took[i]
    ensures
      var s, run := states[later], states[at].calls[call].asks.run;
      && run in s.since && |states[k].sent| <= s.since[run] && 0 <= Cut(s) <= |s.took| <= |s.sent|
      && At(s.totals, RunTotal(run)) == Tally(s.sent, s.took, s.since[run], Cut(s), RunTotal(run))
  {
    EveryRunIsExplained(start, states, steps, at);
    EveryRunIsExplained(start, states, steps, later);
    QueuedBeforeIsMarked(start, states, steps, k, at, call);
    assert CallFits(start, states[at], call);
    ARunOnlyAdds(start, states, steps, at, later);
    var cut := Cut(states[at]);
    assert states[later].took[..cut][i] == states[at].took[..cut][i];
    AnsweredCallsStay(start, states, steps, at, later, call);
    assert CallFits(start, states[later], call);
  }

  lemma {:induction false} AnsweredCallsStay(start: Totals, states: seq<State>, steps: seq<Step>, at: nat, later: nat, call: nat)
    requires IsRun(start, states, steps) && at <= later < |states|
    requires call < |states[at].calls| && states[at].calls[call].phase.Done?
    ensures call < |states[later].calls| && states[later].calls[call] == states[at].calls[call]
    decreases later
  {
    hide After, Enabled;
    if at < later {
      AnsweredCallsStay(start, states, steps, at, later - 1, call);
      CallsStay(states[later - 1], steps[later - 1], call);
      assert Enabled(states[later - 1], steps[later - 1]) && states[later] == After(states[later - 1], steps[later - 1]);
    }
  }

  /**
   **Conservation**: a lane that ran dry leaves the store with its starting totals
   and every item it took, none lost and none twice, whichever applications panicked;
   and then nobody is left waiting for a token.
   */
  lemma ADryLaneHasAddedExactlyWhatWasTaken(start: Totals, states: seq<State>, steps: seq<Step>, at: nat, c: Counter)
    requires IsRun(start, states, steps) && at < |states|
    requires states[at].worker.Idle? && |states[at].took| == |states[at].sent|
    ensures
      var s := states[at];
      && (c.RunTotal? && c.run in s.since ==> s.since[c.run] <= |s.sent|)
      && (if c.RunTotal? && c.run in s.since then
            At(s.totals, c) == Tally(s.sent, s.took, s.since[c.run], |s.sent|, c)
          else
            At(s.totals, c) == At(start, c) + Tally(s.sent, s.took, 0, |s.sent|, c))
    ensures start == map[] && !c.RunTotal? ==>
      Tally(states[at].sent, states[at].took, 0, |states[at].sent|, c) == if c in states[at].totals then states[at].totals[c] else 0
    ensures forall call :: 0 <= call < |states[at].calls| ==> !states[at].calls[call].phase.Waiting?
  {
    EveryRunIsExplained(start, states, steps, at);
    forall call | 0 <= call < |states[at].calls|
      ensures !states[at].calls[call].phase.Waiting?
    {
      assert CallFits(start, states[at], call);
    }
  }

  /** **A panic never stops the lane**: while somebody waits, the worker has a next step that brings the token closer. */
  lemma TheLaneNeverStops(start: Totals, states: seq<State>, steps: seq<Step>, at: nat, call: nat, panicked: bool)
    requires IsRun(start, states, steps) && at < |states|
    requires call < |states[at].calls| && states[at].calls[call].phase.Waiting?
    ensures
      var s := states[at];
      if s.worker.Idle? then
        Enabled(s, Pop) && After(s, Pop).worker.Applying?
      else
        && Enabled(s, End(panicked)) && Over(After(s, End(panicked))) == Over(s) + 1
        && (s.calls[call].phase.token == Over(s) ==> After(s, End(panicked)).calls[call].phase.Settled?)
  {
    EveryRunIsExplained(start, states, steps, at);
    assert CallFits(start, states[at], call);
  }

  lemma OneMore(states: seq<State>, steps: seq<Step>, step: Step, next: State) returns (states': seq<State>, steps': seq<Step>)
    requires IsRun(map[], states, steps) && Enabled(states[|steps|], step) && After(states[|steps|], step) == next
    ensures IsRun(map[], states', steps') && states'[|steps'|] == next
  {
    states', steps' := states + [next], steps + [step];
  }

  lemma ACountLands(key: Key) returns (states: seq<State>, steps: seq<Step>)
    ensures IsRun(map[], states, steps)
    ensures states[|steps|] ==
      State(true, [Count(key), Settle(0)], [true], Idle, map[Calls(key) := 1], map[], [Call(Read, 1, Waiting(1))])
  {
    var call, lane := Call(Read, 1, Waiting(1)), [Count(key), Settle(0)];
    states, steps := [Initial(map[])], [];
    assert IsRun(map[], states, steps);
    hide IsRun;
    states, steps := OneMore(states, steps, Open, State(true, [], [], Idle, map[], map[], []));
    states, steps := OneMore(states, steps, Queue(Count(key)), State(true, [Count(key)], [], Idle, map[], map[], []));
    states, steps := OneMore(states, steps, Ask(Read), State(true, [Count(key)], [], Idle, map[], map[], [Call(Read, 1, Begun)]));
    states, steps := OneMore(states, steps, Look(0), State(true, lane, [], Idle, map[], map[], [call]));
    states, steps := OneMore(states, steps, Pop, State(true, lane, [false], Applying(false), map[], map[], [call]));
    states, steps := OneMore(states, steps, Land, State(true, lane, [true], Applying(true), map[Calls(key) := 1], map[], [call]));
    states, steps := OneMore(states, steps, End(false), State(true, lane, [true], Idle, map[Calls(key) := 1], map[], [call]));
  }

  /** **A read waits for the one count queued before it**, and answers it on a store that held none. */
  lemma ACountIsReadBack(key: Key)
    ensures exists states: seq<State>, steps: seq<Step> ::
      IsRun(map[], states, steps) && |states[|steps|].calls| == 1
      && states[|steps|].calls[0].phase == Done(2, map[Calls(key) := 1], map[])
  {
    var waiting, lane, counted := Call(Read, 1, Waiting(1)), [Count(key), Settle(0)], map[Calls(key) := 1];
    var answered := Call(Read, 1, Done(2, counted, map[]));
    var states, steps := ACountLands(key);
    hide IsRun;
    states, steps := OneMore(states, steps, Pop, State(true, lane, [true, false], Applying(false), counted, map[], [waiting]));
    states, steps := OneMore(states, steps, Land, State(true, lane, [true, true], Applying(true), counted, map[], [waiting]));
    states, steps := OneMore(states, steps, End(false), State(true, lane, [true, true], Idle, counted, map[], [Call(Read, 1, Settled)]));
    states, steps := OneMore(states, steps, Do(0), State(true, lane, [true, true], Idle, counted, map[], [answered]));
  }
}
