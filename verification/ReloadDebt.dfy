/**
 The reader's debt of reloads. The class is the pair of counters as one
 thread drives it; the rest of the module is every interleaving of threads that
 commit, reload and settle, one atomic operation at a time.
 */
module ReloadDebt {
  /** The debt after a reload that covered `covered` commits was settled. */
  function Settled(owed: nat, covered: nat, reloaded: bool): nat {
    if !reloaded then (if owed > covered + 1 then owed else covered + 1)
    else if owed <= covered + 1 then 0 else owed
  }

  class ReloadDebt {
    /** How many commits were counted; a commit lands before it is counted. */
    var commits: nat
    /** Nothing is owed at zero; at `n + 1` a reload covering `n` commits is. */
    var owed: nat

    ghost predicate Valid()
      reads this
    {
      owed <= commits + 1
    }

    constructor ()
      ensures Valid() && commits == 0 && owed == 0
    {
      commits, owed := 0, 0;
    }

    method Committed()
      requires Valid()
      modifies this
      ensures Valid() && commits == old(commits) + 1 && owed == old(owed)
    {
      commits := commits + 1;
    }

    method Settle(covered: nat, reloaded: bool)
      requires Valid() && covered <= commits
      modifies this
      ensures Valid() && commits == old(commits) && owed == Settled(old(owed), covered, reloaded)
      ensures reloaded ==> owed == if old(owed) <= covered + 1 then 0 else old(owed)
      ensures !reloaded ==> owed >= covered + 1 && owed >= old(owed) && (owed == covered + 1 || owed == old(owed))
    {
      if !reloaded {
        owed := if owed > covered + 1 then owed else covered + 1;
        return;
      }
      var seen := owed;
      while seen != 0 && seen <= covered + 1
        invariant Valid() && seen == owed && commits == old(commits)
        invariant Settled(owed, covered, true) == Settled(old(owed), covered, true)
        decreases seen
      {
        // The exchange: alone, the value just read is the value there.
        owed := 0;
        seen := owed;
      }
    }
  }

  // Every interleaving.

  /** Where a thread is. `mine` numbers its own commit; zero when it made none. */
  datatype Thread =
    | Idle
    | Landed
    | Owing(mine: nat)
    | Reloading(mine: nat, covered: nat)
    | Opened(mine: nat, covered: nat, view: nat, read: nat)
    | Failed(mine: nat, covered: nat)
    | Reloaded(mine: nat, covered: nat)
    | Clearing(mine: nat, covered: nat, seen: nat)
    | Done(mine: nat, ok: bool)

  /**
   `landed` commits are in the index; the reader shows the first `visible` of them.
   A reload opens a view and then publishes it; `opens` numbers the views opened,
   and `shown` is the number of the one published last.
   */
  datatype State = State(
    landed: nat, commits: nat, visible: nat, owed: nat, opens: nat, shown: nat, threads: seq<Thread>)

  function At(s: State, i: nat, t: Thread): State
    requires i < |s.threads|
  {
    s.(threads := s.threads[i := t])
  }

  datatype Step = Commit | Count | Retry | Begin | Open | Publish | ReloadFail | Record | Load | Exchange

  predicate Enabled(s: State, i: nat, step: Step) {
    i < |s.threads| &&
    match step
    case Commit => (s.threads[i].Idle? || s.threads[i].Done?) && forall j :: 0 <= j < |s.threads| ==> !s.threads[j].Landed?
    case Count => s.threads[i].Landed?
    case Retry => (s.threads[i].Idle? || s.threads[i].Done?) && s.owed != 0
    case Begin => s.threads[i].Owing?
    case Open => s.threads[i].Reloading?
    case Publish => s.threads[i].Opened?
    case ReloadFail => s.threads[i].Reloading? || s.threads[i].Opened?
    case Record => s.threads[i].Failed?
    case Load => s.threads[i].Reloaded?
    case Exchange => s.threads[i].Clearing?
  }

  function After(s: State, i: nat, step: Step): State
    requires Enabled(s, i, step)
  {
    var t := s.threads[i];
    match step
    case Commit => At(s, i, Landed).(landed := s.landed + 1)
    case Count => At(s, i, Owing(s.commits + 1)).(commits := s.commits + 1)
    case Retry => At(s, i, Owing(0))
    case Begin => At(s, i, Reloading(t.mine, s.commits))
    case Open => At(s, i, Opened(t.mine, t.covered, s.landed, s.opens + 1)).(opens := s.opens + 1)
    case Publish => At(s, i, Reloaded(t.mine, t.covered)).(visible := t.view, shown := t.read)
    case ReloadFail => At(s, i, Failed(t.mine, t.covered))
    case Record => At(s, i, Done(t.mine, false)).(owed := if s.owed > t.covered + 1 then s.owed else t.covered + 1)
    case Load => At(s, i, Clearing(t.mine, t.covered, s.owed))
    case Exchange =>
      if t.seen == 0 || t.seen > t.covered + 1 then At(s, i, Done(t.mine, true))
      else if s.owed == t.seen then At(s, i, Done(t.mine, true)).(owed := 0)
      else At(s, i, Clearing(t.mine, t.covered, s.owed))
  }

  /** **Alone, a thread's last steps are the settling of the class**: a failure is recorded, a success clears what it covers. */
  lemma SettlingIsTheLastSteps(s: State, i: nat)
    requires i < |s.threads|
    ensures s.threads[i].Failed? ==>
      && Enabled(s, i, Record)
      && After(s, i, Record).owed == Settled(s.owed, s.threads[i].covered, false)
    ensures s.threads[i].Reloaded? ==>
      && Enabled(s, i, Load) && Enabled(After(s, i, Load), i, Exchange)
      && var last := After(After(s, i, Load), i, Exchange);
         last.owed == Settled(s.owed, s.threads[i].covered, true) && last.threads[i] == Done(s.threads[i].mine, true)
  {
  }

  /** This thread has yet to run a reload, or to record the failure of one, that covers `k`. */
  predicate MustReload(s: State, t: Thread, k: nat) {
    match t
    case Landed => k == s.landed
    case Owing(_) => k <= s.commits
    case Reloading(_, covered) => k <= covered
    case Opened(_, covered, _, _) => k <= covered
    case Failed(_, covered) => k <= covered
    case _ => false
  }

  ghost predicate Obliged(s: State, k: nat) {
    exists i :: 0 <= i < |s.threads| && MustReload(s, s.threads[i], k)
  }

  ghost predicate ThreadFits(s: State, t: Thread) {
    match t
    case Idle => true
    case Landed => s.landed == s.commits + 1
    case Owing(mine) => mine <= s.commits
    case Reloading(mine, covered) => mine <= covered <= s.commits
    case Opened(mine, covered, view, _) => mine <= covered <= s.commits && covered <= view <= s.landed
    case Failed(mine, covered) => mine <= covered <= s.commits
    case Reloaded(mine, covered) => mine <= covered <= s.visible
    case Clearing(mine, covered, _) => mine <= covered <= s.visible
    case Done(mine, ok) => ok ==> mine <= s.visible
  }

  ghost predicate SomeLanded(s: State) {
    exists i :: 0 <= i < |s.threads| && s.threads[i].Landed?
  }

  ghost predicate Invariant(s: State) {
    && s.visible <= s.landed && s.commits <= s.landed
    && (if SomeLanded(s) then s.landed == s.commits + 1 else s.landed == s.commits)
    && (forall i, j :: 0 <= i < j < |s.threads| ==> !(s.threads[i].Landed? && s.threads[j].Landed?))
    && (forall i :: 0 <= i < |s.threads| ==> ThreadFits(s, s.threads[i]))
    && (forall k :: s.visible < k <= s.landed ==> Obliged(s, k) || s.owed >= k + 1)
  }

  function Start(n: nat): State {
    State(0, 0, 0, 0, 0, 0, seq(n, _ => Idle))
  }

  /** The step, if it publishes, does not lower what the reader sees. */
  predicate GoesForward(s: State, i: nat, step: Step) {
    step == Publish && i < |s.threads| && s.threads[i].Opened? ==> s.threads[i].view >= s.visible
  }

  /** The thread that took the step holds its new place; the others their old one. */
  lemma ObligedStays(s: State, s': State, i: nat, k: nat)
    requires i < |s.threads| == |s'.threads|
    requires forall j :: 0 <= j < |s.threads| && j != i ==> s'.threads[j] == s.threads[j]
    requires forall j :: 0 <= j < |s.threads| && MustReload(s, s.threads[j], k) ==> MustReload(s', s'.threads[j], k)
    requires Obliged(s, k)
    ensures Obliged(s', k)
  {
    var j :| 0 <= j < |s.threads| && MustReload(s, s.threads[j], k);
    assert MustReload(s', s'.threads[j], k);
  }

  lemma StepKeepsCounts(s: State, i: nat, step: Step)
    requires Invariant(s) && Enabled(s, i, step) && GoesForward(s, i, step)
    ensures
      var s' := After(s, i, step);
      && s'.visible <= s'.landed && s'.commits <= s'.landed && s.visible <= s'.visible
      && (if SomeLanded(s') then s'.landed == s'.commits + 1 else s'.landed == s'.commits)
      && (forall i, j :: 0 <= i < j < |s'.threads| ==> !(s'.threads[i].Landed? && s'.threads[j].Landed?))
      && (forall j :: 0 <= j < |s'.threads| ==> ThreadFits(s', s'.threads[j]))
  {
    var s' := After(s, i, step);
    assert ThreadFits(s, s.threads[i]);
    assert forall j :: 0 <= j < |s.threads| && j != i ==> s'.threads[j] == s.threads[j];
    if step == Commit {
      assert !SomeLanded(s);
      assert s'.threads[i].Landed?;
    } else if step == Count {
      assert SomeLanded(s);
      assert !SomeLanded(s');
    } else {
      if SomeLanded(s) {
        var j :| 0 <= j < |s.threads| && s.threads[j].Landed?;
        assert s'.threads[j].Landed?;
      }
      assert SomeLanded(s') ==> SomeLanded(s);
    }
  }

  lemma StepKeepsCover(s: State, i: nat, step: Step, k: nat)
    requires Invariant(s) && Enabled(s, i, step) && GoesForward(s, i, step)
    requires After(s, i, step).visible < k <= After(s, i, step).landed
    ensures Obliged(After(s, i, step), k) || After(s, i, step).owed >= k + 1
  {
    var s' := After(s, i, step);
    var t, t' := s.threads[i], s'.threads[i];
    assert ThreadFits(s, t);
    if k > s.landed {
      assert MustReload(s', t', k);
    } else if s.owed >= k + 1 {
    } else {
      assert Obliged(s, k);
      if MustReload(s, t, k) {
        if step != Record {
          assert MustReload(s', t', k);
        }
      } else if step != Commit {
        ObligedStays(s, s', i, k);
      } else {
        var j :| 0 <= j < |s.threads| && MustReload(s, s.threads[j], k);
        assert MustReload(s', s'.threads[j], k);
      }
    }
  }

  lemma StepKeepsInvariant(s: State, i: nat, step: Step)
    requires Invariant(s) && Enabled(s, i, step) && GoesForward(s, i, step)
    ensures Invariant(After(s, i, step))
  {
    StepKeepsCounts(s, i, step);
    forall k | After(s, i, step).visible < k <= After(s, i, step).landed
      ensures Obliged(After(s, i, step), k) || After(s, i, step).owed >= k + 1
    {
      StepKeepsCover(s, i, step, k);
    }
  }

  ghost predicate IsRun(states: seq<State>, steps: seq<(nat, Step)>, n: nat) {
    && |states| == |steps| + 1 && states[0] == Start(n)
    && forall k :: 0 <= k < |steps| ==>
         Enabled(states[k], steps[k].0, steps[k].1) && states[k + 1] == After(states[k], steps[k].0, steps[k].1)
  }

  /** No publication of the run lowers what the reader sees. */
  ghost predicate Forward(states: seq<State>, steps: seq<(nat, Step)>) {
    |steps| <= |states| && forall k :: 0 <= k < |steps| ==> GoesForward(states[k], steps[k].0, steps[k].1)
  }

  /**
   **In every interleaving whose publications do not lower what the reader sees, a
   commit the reader cannot see is covered** by an unfinished reload or by a debt
   that names at least that commit.
   */
  lemma {:induction false} UnseenCommitsAreCovered(states: seq<State>, steps: seq<(nat, Step)>, n: nat, at: nat)
    requires IsRun(states, steps, n) && Forward(states, steps) && at < |states|
    ensures Invariant(states[at])
  {
    if at == 0 {
      assert !SomeLanded(states[0]);
    } else {
      UnseenCommitsAreCovered(states, steps, n, at - 1);
      StepKeepsInvariant(states[at - 1], steps[at - 1].0, steps[at - 1].1);
    }
  }

  /** No thread still has to reload, or to record that a reload failed. */
  ghost predicate NothingInFlight(s: State) {
    forall i :: 0 <= i < |s.threads| ==>
      && !s.threads[i].Landed? && !s.threads[i].Owing? && !s.threads[i].Reloading?
      && !s.threads[i].Opened? && !s.threads[i].Failed?
  }

  /** **Zero debt with nothing in flight means the reader sees every commit.** */
  lemma NoDebtSeesEverything(states: seq<State>, steps: seq<(nat, Step)>, n: nat, at: nat)
    requires IsRun(states, steps, n) && Forward(states, steps) && at < |states|
    requires states[at].owed == 0 && NothingInFlight(states[at])
    ensures states[at].visible == states[at].landed
  {
    UnseenCommitsAreCovered(states, steps, n, at);
    NothingIsObliged(states[at], states[at].landed);
  }

  lemma NothingIsObliged(s: State, k: nat)
    requires NothingInFlight(s)
    ensures !Obliged(s, k)
  {
  }

  lemma {:induction false} VisibleGrows(states: seq<State>, steps: seq<(nat, Step)>, n: nat, at: nat, later: nat)
    requires IsRun(states, steps, n) && Forward(states, steps) && at <= later < |states|
    ensures states[at].visible <= states[later].visible
    decreases later
  {
    if at < later {
      VisibleGrows(states, steps, n, at, later - 1);
      UnseenCommitsAreCovered(states, steps, n, later - 1);
      StepKeepsCounts(states[later - 1], steps[later - 1].0, steps[later - 1].1);
    }
  }

  /** **An ingest that answered `Ok` leaves its own commit visible**, from then on. */
  lemma OkLeavesItsCommitVisible(states: seq<State>, steps: seq<(nat, Step)>, n: nat, at: nat, later: nat, i: nat)
    requires IsRun(states, steps, n) && Forward(states, steps) && at <= later < |states| && i < |states[at].threads|
    requires states[at].threads[i].Done? && states[at].threads[i].ok
    ensures states[at].threads[i].mine <= states[later].visible
  {
    UnseenCommitsAreCovered(states, steps, n, at);
    assert ThreadFits(states[at], states[at].threads[i]);
    VisibleGrows(states, steps, n, at, later);
  }

  // ---- When publications may lower what the reader sees ----

  /** Some thread has told its caller, or is clearing a debt on the word, that the reader sees commit `k`. */
  ghost predicate Vouched(s: State, k: nat) {
    exists j :: 0 <= j < |s.threads| && Vouches(s.threads[j], k)
  }

  predicate Vouches(t: Thread, k: nat) {
    match t
    case Reloaded(_, covered) => k <= covered
    case Clearing(_, covered, _) => k <= covered
    case Done(mine, ok) => ok && k <= mine
    case _ => false
  }

  /** The publication hides only commits nobody vouched for and some obligation or the debt still covers. */
  ghost predicate HidesNoPromise(s: State, i: nat)
    requires Enabled(s, i, Publish)
  {
    forall k: nat :: s.threads[i].view < k <= s.visible ==>
      !Vouched(s, k) && (Obliged(After(s, i, Publish), k) || s.owed >= k + 1)
  }

  /** **Exactly which publications keep the reader's promises.** One that goes forward always does. */
  lemma APublicationKeepsThePromises(s: State, i: nat)
    requires Invariant(s) && Enabled(s, i, Publish)
    ensures Invariant(After(s, i, Publish)) <==> HidesNoPromise(s, i)
    ensures GoesForward(s, i, Publish) ==> HidesNoPromise(s, i)
  {
    var s', view := After(s, i, Publish), s.threads[i].view;
    assert ThreadFits(s, s.threads[i]);
    if GoesForward(s, i, Publish) {
      StepKeepsInvariant(s, i, Publish);
    } else if HidesNoPromise(s, i) {
      ItsThreadsFit(s, i);
      forall k | view < k <= s.landed
        ensures Obliged(s', k) || s'.owed >= k + 1
      {
        if k > s.visible {
          ItsCoverStays(s, i, k);
        }
      }
      SomeLandedStays(s, i);
    } else {
      var k: nat :| view < k <= s.visible && (Vouched(s, k) || !(Obliged(s', k) || s.owed >= k + 1));
      if Vouched(s, k) {
        var j :| 0 <= j < |s.threads| && Vouches(s.threads[j], k);
        assert j != i && s'.threads[j] == s.threads[j];
        assert !ThreadFits(s', s'.threads[j]);
      }
    }
  }

  lemma SomeLandedStays(s: State, i: nat)
    requires Invariant(s) && Enabled(s, i, Publish)
    ensures
      var s' := After(s, i, Publish);
      && (if SomeLanded(s') then s'.landed == s'.commits + 1 else s'.landed == s'.commits)
      && forall j, k :: 0 <= j < k < |s'.threads| ==> !(s'.threads[j].Landed? && s'.threads[k].Landed?)
  {
    var s' := After(s, i, Publish);
    assert forall j :: 0 <= j < |s.threads| && j != i ==> s'.threads[j] == s.threads[j];
    if SomeLanded(s) {
      var j :| 0 <= j < |s.threads| && s.threads[j].Landed?;
      assert s'.threads[j].Landed?;
    }
  }

  lemma ItsThreadsFit(s: State, i: nat)
    requires Invariant(s) && Enabled(s, i, Publish) && HidesNoPromise(s, i)
    ensures forall j :: 0 <= j < |s.threads| ==> ThreadFits(After(s, i, Publish), After(s, i, Publish).threads[j])
  {
    var s', view := After(s, i, Publish), s.threads[i].view;
    assert ThreadFits(s, s.threads[i]);
    forall j | 0 <= j < |s.threads|
      ensures ThreadFits(s', s'.threads[j])
    {
      assert ThreadFits(s, s.threads[j]);
      if j != i && view < s.visible && !ThreadFits(s', s.threads[j]) {
        assert Vouches(s.threads[j], view + 1);
        assert Vouched(s, view + 1);
      }
    }
  }

  lemma ItsCoverStays(s: State, i: nat, k: nat)
    requires Invariant(s) && Enabled(s, i, Publish) && s.visible < k <= s.landed && s.threads[i].view < k
    ensures Obliged(After(s, i, Publish), k) || s.owed >= k + 1
  {
    assert ThreadFits(s, s.threads[i]);
    if s.owed < k + 1 {
      ObligedStays(s, After(s, i, Publish), i, k);
    }
  }

  // ---- Over whole runs, whatever they publish ----

  /** What each thread has covered so far, whatever the reader sees. */
  predicate InOrder(s: State, t: Thread) {
    match t
    case Landed => s.commits < s.landed
    case Owing(mine) => mine <= s.commits
    case Reloading(mine, covered) => mine <= covered <= s.commits
    case Opened(mine, covered, view, _) => mine <= covered <= view
    case Failed(mine, covered) => mine <= covered
    case Reloaded(mine, covered) => mine <= covered
    case Clearing(mine, covered, _) => mine <= covered
    case _ => true
  }

  ghost predicate AllInOrder(s: State) {
    && s.commits <= s.landed
    && (forall i, j :: 0 <= i < j < |s.threads| ==> !(s.threads[i].Landed? && s.threads[j].Landed?))
    && forall i :: 0 <= i < |s.threads| ==> InOrder(s, s.threads[i])
  }

  lemma StepKeepsOrder(s: State, i: nat, step: Step)
    requires AllInOrder(s) && Enabled(s, i, step)
    ensures AllInOrder(After(s, i, step))
  {
    var s' := After(s, i, step);
    assert InOrder(s, s.threads[i]);
    assert forall j :: 0 <= j < |s.threads| && j != i ==> s'.threads[j] == s.threads[j];
  }

  lemma {:induction false} RunKeepsOrder(states: seq<State>, steps: seq<(nat, Step)>, n: nat, at: nat)
    requires IsRun(states, steps, n) && at < |states|
    ensures AllInOrder(states[at])
  {
    if at > 0 {
      RunKeepsOrder(states, steps, n, at - 1);
      StepKeepsOrder(states[at - 1], steps[at - 1].0, steps[at - 1].1);
    }
  }

  /** A step vouches for a commit newly only by publishing a view that holds it. */
  lemma NewlyVouched(s: State, i: nat, step: Step, k: nat)
    requires AllInOrder(s) && Enabled(s, i, step) && Vouched(After(s, i, step), k)
    ensures Vouched(s, k) || (step == Publish && k <= s.threads[i].view)
  {
    var s' := After(s, i, step);
    var j :| 0 <= j < |s'.threads| && Vouches(s'.threads[j], k);
    if j != i {
      assert s'.threads[j] == s.threads[j];
    } else {
      assert InOrder(s, s.threads[i]);
      if step != Publish {
        assert Vouches(s.threads[i], k);
      }
    }
  }

  /** Every commit that was ever vouched for so far can be seen. */
  ghost predicate KeepsItsWord(states: seq<State>, later: nat)
    requires later < |states|
  {
    forall at: nat, k: nat :: at <= later && Vouched(states[at], k) ==> k <= states[later].visible
  }

  /** The step at `p`, if it publishes, publishes no view from before a commit that was vouched for. */
  ghost predicate PublishesNothingOlder(states: seq<State>, steps: seq<(nat, Step)>, p: nat)
    requires p < |steps| < |states|
  {
    var (i, step) := steps[p];
    Enabled(states[p], i, step) && step == Publish ==>
      forall at: nat, k: nat :: at <= p && Vouched(states[at], k) ==> k <= states[p].threads[i].view
  }

  /**
   **Exactly when the reader keeps its word.** In every interleaving, every commit that
   was vouched for is visible from then on if and only if no reload publishes a view
   that was opened before a commit vouched for by then.
   */
  lemma TheReaderKeepsItsWord(states: seq<State>, steps: seq<(nat, Step)>, n: nat)
    requires IsRun(states, steps, n)
    ensures (forall later: nat :: later < |states| ==> KeepsItsWord(states, later)) <==>
      (forall p: nat :: p < |steps| ==> PublishesNothingOlder(states, steps, p))
  {
    hide Vouched, KeepsItsWord, PublishesNothingOlder;
    if forall p: nat :: p < |steps| ==> PublishesNothingOlder(states, steps, p) {
      forall later: nat | later < |states|
        ensures KeepsItsWord(states, later)
      {
        WordSoFar(states, steps, n, later);
      }
    } else {
      var p: nat :| p < |steps| && !PublishesNothingOlder(states, steps, p);
      AWordBroken(states, steps, n, p);
    }
  }

  lemma {:induction false} WordSoFar(states: seq<State>, steps: seq<(nat, Step)>, n: nat, later: nat)
    requires IsRun(states, steps, n) && later < |states|
    requires forall p: nat :: p < |steps| ==> PublishesNothingOlder(states, steps, p)
    ensures KeepsItsWord(states, later)
  {
    if later == 0 {
      assert forall k: nat :: !Vouched(states[0], k);
    } else {
      var s := states[later - 1];
      var (i, step) := steps[later - 1];
      WordSoFar(states, steps, n, later - 1);
      RunKeepsOrder(states, steps, n, later - 1);
      assert Enabled(s, i, step) && states[later] == After(s, i, step);
      assert PublishesNothingOlder(states, steps, later - 1);
      hide Vouched;
      forall at: nat, k: nat | at <= later && Vouched(states[at], k)
        ensures k <= states[later].visible
      {
        if at == later {
          NewlyVouched(s, i, step, k);
        }
      }
    }
  }

  lemma AWordBroken(states: seq<State>, steps: seq<(nat, Step)>, n: nat, p: nat)
    requires IsRun(states, steps, n) && p < |steps| && !PublishesNothingOlder(states, steps, p)
    ensures !KeepsItsWord(states, p + 1)
  {
    hide Vouched;
    var (i, step) := steps[p];
    assert states[p + 1] == After(states[p], i, step);
    var at: nat, k: nat :| at <= p && Vouched(states[at], k) && k > states[p].threads[i].view;
    assert at <= p + 1;
  }

  predicate ShowsALaterRead(s: State, i: nat, step: Step) {
    step == Publish && i < |s.threads| && s.threads[i].Opened? ==> s.threads[i].read > s.shown
  }

  /** Views are published in the order they were opened. */
  ghost predicate InReadOrder(states: seq<State>, steps: seq<(nat, Step)>) {
    && |steps| <= |states|
    && forall k :: 0 <= k < |steps| ==> ShowsALaterRead(states[k], steps[k].0, steps[k].1)
  }

  predicate OpenedBefore(t: Thread, u: Thread) { t.Opened? && u.Opened? && t.read < u.read }

  /** A view opened later holds at least as many commits, and so does one opened after what is shown. */
  ghost predicate ViewsGrow(s: State) {
    && s.visible <= s.landed && s.shown <= s.opens
    && (forall i :: 0 <= i < |s.threads| && s.threads[i].Opened? ==> s.threads[i].view <= s.landed && s.threads[i].read <= s.opens)
    && (forall i :: 0 <= i < |s.threads| && s.threads[i].Opened? && s.threads[i].read > s.shown ==> s.visible <= s.threads[i].view)
    && (forall i, j :: 0 <= i < |s.threads| && 0 <= j < |s.threads| && OpenedBefore(s.threads[i], s.threads[j])
          ==> s.threads[i].view <= s.threads[j].view)
  }

  lemma ViewsKeepGrowing(s: State, i: nat, step: Step)
    requires ViewsGrow(s) && Enabled(s, i, step)
    requires ShowsALaterRead(s, i, step)
    ensures ViewsGrow(After(s, i, step))
  {
    var s' := After(s, i, step);
    assert forall j :: 0 <= j < |s.threads| && j != i ==> s'.threads[j] == s.threads[j];
  }

  lemma {:induction false} InReadOrderViewsGrow(states: seq<State>, steps: seq<(nat, Step)>, n: nat, at: nat)
    requires IsRun(states, steps, n) && InReadOrder(states, steps) && at < |states|
    ensures ViewsGrow(states[at])
  {
    if at > 0 {
      InReadOrderViewsGrow(states, steps, n, at - 1);
      ViewsKeepGrowing(states[at - 1], steps[at - 1].0, steps[at - 1].1);
    }
  }

  /** **Publishing in the order of the reads lowers nothing**, so the theorems above hold of every such run. */
  lemma PublishingInReadOrderGoesForward(states: seq<State>, steps: seq<(nat, Step)>, n: nat)
    requires IsRun(states, steps, n) && InReadOrder(states, steps)
    ensures Forward(states, steps)
  {
    forall k | 0 <= k < |steps|
      ensures GoesForward(states[k], steps[k].0, steps[k].1)
    {
      InReadOrderViewsGrow(states, steps, n, k);
      assert ShowsALaterRead(states[k], steps[k].0, steps[k].1);
    }
  }

  // ---- Two reloads that overlap ----

  lemma OneMore(states: seq<State>, steps: seq<(nat, Step)>, n: nat, i: nat, step: Step, next: State)
    returns (states': seq<State>, steps': seq<(nat, Step)>)
    requires IsRun(states, steps, n) && Enabled(states[|steps|], i, step) && After(states[|steps|], i, step) == next
    ensures IsRun(states', steps', n) && states'[|steps'|] == next
  {
    states', steps' := states + [next], steps + [(i, step)];
    forall k | 0 <= k < |steps'|
      ensures Enabled(states'[k], steps'[k].0, steps'[k].1) && states'[k + 1] == After(states'[k], steps'[k].0, steps'[k].1)
    {
      if k < |steps| {
        assert Enabled(states[k], steps[k].0, steps[k].1) && states[k + 1] == After(states[k], steps[k].0, steps[k].1);
      }
    }
  }

  /** One ingest has opened its view of the first commit when the other commits. */
  lemma OneOpensFirst() returns (states: seq<State>, steps: seq<(nat, Step)>)
    ensures IsRun(states, steps, 2) && states[|steps|] == State(2, 2, 0, 0, 1, 0, [Opened(1, 1, 1, 1), Owing(2)])
  {
    states, steps := [Start(2)], [];
    assert IsRun(states, steps, 2);
    hide IsRun;
    states, steps := OneMore(states, steps, 2, 0, Commit, State(1, 0, 0, 0, 0, 0, [Landed, Idle]));
    states, steps := OneMore(states, steps, 2, 0, Count, State(1, 1, 0, 0, 0, 0, [Owing(1), Idle]));
    states, steps := OneMore(states, steps, 2, 0, Begin, State(1, 1, 0, 0, 0, 0, [Reloading(1, 1), Idle]));
    states, steps := OneMore(states, steps, 2, 0, Open, State(1, 1, 0, 0, 1, 0, [Opened(1, 1, 1, 1), Idle]));
    states, steps := OneMore(states, steps, 2, 1, Commit, State(2, 1, 0, 0, 1, 0, [Opened(1, 1, 1, 1), Landed]));
    states, steps := OneMore(states, steps, 2, 1, Count, State(2, 2, 0, 0, 1, 0, [Opened(1, 1, 1, 1), Owing(2)]));
  }

  /** The other ingest is answered `Ok`; then the first publishes its older view. */
  lemma OtherPublishesFirst(states: seq<State>, steps: seq<(nat, Step)>) returns (states': seq<State>, steps': seq<(nat, Step)>)
    requires IsRun(states, steps, 2) && states[|steps|] == State(2, 2, 0, 0, 1, 0, [Opened(1, 1, 1, 1), Owing(2)])
    ensures IsRun(states', steps', 2) && states'[|steps'|] == State(2, 2, 1, 0, 2, 1, [Reloaded(1, 1), Done(2, true)])
  {
    hide IsRun;
    var one := Opened(1, 1, 1, 1);
    states', steps' := OneMore(states, steps, 2, 1, Begin, State(2, 2, 0, 0, 1, 0, [one, Reloading(2, 2)]));
    states', steps' := OneMore(states', steps', 2, 1, Open, State(2, 2, 0, 0, 2, 0, [one, Opened(2, 2, 2, 2)]));
    states', steps' := OneMore(states', steps', 2, 1, Publish, State(2, 2, 2, 0, 2, 2, [one, Reloaded(2, 2)]));
    states', steps' := OneMore(states', steps', 2, 1, Load, State(2, 2, 2, 0, 2, 2, [one, Clearing(2, 2, 0)]));
    states', steps' := OneMore(states', steps', 2, 1, Exchange, State(2, 2, 2, 0, 2, 2, [one, Done(2, true)]));
    states', steps' := OneMore(states', steps', 2, 0, Publish, State(2, 2, 1, 0, 2, 1, [Reloaded(1, 1), Done(2, true)]));
  }

  /** Both ingests answered `Ok`, nothing is in flight or owed, and the second commit cannot be seen. */
  ghost predicate HiddenAndForgotten(s: State) {
    && s.threads == [Done(1, true), Done(2, true)] && NothingInFlight(s)
    && s.owed == 0 && s.visible == 1 && s.landed == 2
  }

  /** **Two overlapping reloads that publish out of order hide a commit that was answered `Ok`.** */
  lemma PublishingOutOfOrderHidesACommit()
    ensures exists states: seq<State>, steps: seq<(nat, Step)> ::
      IsRun(states, steps, 2) && HiddenAndForgotten(states[|steps|])
  {
    var states, steps := OneOpensFirst();
    states, steps := OtherPublishesFirst(states, steps);
    hide IsRun;
    states, steps := OneMore(states, steps, 2, 0, Load, State(2, 2, 1, 0, 2, 1, [Clearing(1, 1, 0), Done(2, true)]));
    states, steps := OneMore(states, steps, 2, 0, Exchange, State(2, 2, 1, 0, 2, 1, [Done(1, true), Done(2, true)]));
    assert HiddenAndForgotten(states[|steps|]);
  }
}
