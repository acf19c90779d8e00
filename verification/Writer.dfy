/**
 The single writer: one queue of accepted jobs and one task that runs them, under
 every interleaving with callers that submit, stop waiting, or call from inside.
 */
module Writer {
  import opened Wrappers

  /** A job by the order it was accepted in, with the moments it passed. */
  datatype Job =
    | Queued
    | Working(began: nat)
    | Delivering(began: nat)
    | Answering(began: nat, published: nat)
    | Answered(began: nat, published: nat, ended: nat)
    | Panicked(began: nat, ended: nat)
  {
    predicate Over() { Answered? || Panicked? }

    /** This job was over before the next one began. */
    predicate Before(next: Job) { Over() && !next.Queued? && ended < next.began }
  }

  datatype Caller = Waiting | Gone | Got | Crashed

  /** A change the State applied in a job, and when the subscribers were told. */
  datatype Change = Change(job: nat, at: nat, told: Option<nat>)

  datatype State = State(
    now: nat,
    jobs: seq<Job>,
    queue: seq<nat>,
    current: Option<nat>,
    callers: seq<Caller>,
    changes: seq<Change>)

  datatype Step =
    | Call(inside: bool)
    | Leave(caller: nat)
    | Take
    | Apply
    | Panic
    | Finish
    | Deliver
    | Answer

  const Empty: State := State(0, [], [], None, [], [])

  predicate Running(s: State) { s.current.Some? && s.current.value < |s.jobs| && s.current.value < |s.callers| }

  predicate Enabled(s: State, step: Step) {
    match step
    // A call from inside the writer task runs in the current job.
    case Call(inside) => inside ==> Running(s) && s.jobs[s.current.value].Working?
    case Leave(c) => c < |s.callers| && s.callers[c].Waiting?
    case Take => s.current.None? && s.queue != [] && s.queue[0] < |s.jobs|
    case Apply => Running(s) && s.jobs[s.current.value].Working?
    case Panic => Running(s) && s.jobs[s.current.value].Working?
    case Finish => Running(s) && s.jobs[s.current.value].Working?
    case Deliver => Running(s) && s.jobs[s.current.value].Delivering?
    case Answer => Running(s) && s.jobs[s.current.value].Answering?
  }

  function Tell(changes: seq<Change>, now: nat): (r: seq<Change>)
    ensures |r| == |changes|
    ensures forall i :: 0 <= i < |r| ==> r[i] == if changes[i].told.None? then changes[i].(told := Some(now)) else changes[i]
  {
    seq(|changes|, i requires 0 <= i < |changes| =>
      if changes[i].told.None? then changes[i].(told := Some(now)) else changes[i])
  }

  /** Only a caller that still waits learns how its job ended. */
  function Reply(caller: Caller, reply: Caller): Caller {
    if caller.Waiting? then reply else caller
  }

  function After(s: State, step: Step): State
    requires Enabled(s, step)
  {
    var t := s.(now := s.now + 1);
    match step
    case Call(inside) =>
      if inside then t.(changes := s.changes + [Change(s.current.value, s.now, None)])
      else t.(jobs := s.jobs + [Queued], queue := s.queue + [|s.jobs|], callers := s.callers + [Waiting])
    case Leave(c) => t.(callers := s.callers[c := Gone])
    case Take =>
      var j := s.queue[0];
      t.(jobs := s.jobs[j := Working(s.now)], queue := s.queue[1..], current := Some(j))
    case Apply => t.(changes := s.changes + [Change(s.current.value, s.now, None)])
    case Panic =>
      var j := s.current.value;
      t.(jobs := s.jobs[j := Panicked(s.jobs[j].began, s.now)], current := None,
         callers := s.callers[j := Reply(s.callers[j], Crashed)])
    case Finish =>
      var j := s.current.value;
      t.(jobs := s.jobs[j := Delivering(s.jobs[j].began)])
    case Deliver =>
      var j := s.current.value;
      t.(jobs := s.jobs[j := Answering(s.jobs[j].began, s.now)], changes := Tell(s.changes, s.now))
    case Answer =>
      var j := s.current.value;
      t.(jobs := s.jobs[j := Answered(s.jobs[j].began, s.jobs[j].published, s.now)], current := None,
         callers := s.callers[j := Reply(s.callers[j], Got)])
  }

  /** How many jobs the writer has taken from the queue. */
  function Taken(s: State): int { |s.jobs| - |s.queue| }

  ghost predicate JobFits(s: State, j: nat)
    requires j < |s.jobs|
  {
    && (if j >= Taken(s) then s.jobs[j].Queued? else !s.jobs[j].Queued?)
    && (j < Taken(s) && s.current != Some(j) ==> s.jobs[j].Over())
    && (s.current == Some(j) ==> !s.jobs[j].Over())
    && (!s.jobs[j].Queued? ==> s.jobs[j].began < s.now)
    && (s.jobs[j].Answering? ==> s.jobs[j].began < s.jobs[j].published < s.now)
    && (s.jobs[j].Answered? ==> s.jobs[j].began < s.jobs[j].published < s.jobs[j].ended < s.now)
    && (s.jobs[j].Panicked? ==> s.jobs[j].began < s.jobs[j].ended < s.now)
  }

  ghost predicate CallerFits(caller: Caller, job: Job) {
    match caller
    case Waiting => !job.Over()
    case Gone => true
    case Got => job.Answered?
    case Crashed => job.Panicked?
  }

  ghost predicate ChangeFits(s: State, c: Change) {
    && c.job < |s.jobs| && !s.jobs[c.job].Queued?
    && s.jobs[c.job].began < c.at < s.now
    && (c.told.Some? ==> c.at < c.told.value < s.now)
    && match s.jobs[c.job]
       case Queued => false
       case Working(_) => c.told.None?
       case Delivering(_) => c.told.None?
       case Answering(_, published) => c.told.Some? && c.told.value <= published
       case Answered(_, published, _) => c.told.Some? && c.told.value <= published
       case Panicked(_, ended) => c.at < ended && (c.told.Some? ==> ended < c.told.value)
  }

  ghost predicate Invariant(s: State) {
    && |s.callers| == |s.jobs| && |s.queue| <= |s.jobs|
    && (forall i :: 0 <= i < |s.queue| ==> s.queue[i] == Taken(s) + i)
    && (s.current.Some? ==> s.current.value == Taken(s) - 1)
    && (forall j :: 0 <= j < |s.jobs| ==> JobFits(s, j))
    && (forall j, k :: 0 <= j < k < Taken(s) ==> s.jobs[j].Before(s.jobs[k]))
    && (forall j :: 0 <= j < |s.jobs| ==> CallerFits(s.callers[j], s.jobs[j]))
    && (forall c :: c in s.changes ==> ChangeFits(s, c))
  }

  lemma JobsStayInOrder(s: State, step: Step)
    requires Invariant(s) && Enabled(s, step)
    ensures
      var s' := After(s, step);
      && |s'.callers| == |s'.jobs| && |s'.queue| <= |s'.jobs|
      && (forall i :: 0 <= i < |s'.queue| ==> s'.queue[i] == Taken(s') + i)
      && (s'.current.Some? ==> s'.current.value == Taken(s') - 1)
      && (forall j :: 0 <= j < |s'.jobs| ==> JobFits(s', j))
  {
    var s' := After(s, step);
    if s.current.Some? {
      assert JobFits(s, s.current.value);
    }
    forall j | 0 <= j < |s'.jobs|
      ensures JobFits(s', j)
    {
      if j < |s.jobs| {
        assert JobFits(s, j);
      }
    }
  }

  lemma JobsStayApart(s: State, step: Step)
    requires Invariant(s) && Enabled(s, step)
    ensures
      var s' := After(s, step);
      && (forall j, k :: 0 <= j < k < Taken(s') ==> s'.jobs[j].Before(s'.jobs[k]))
      && |s'.callers| == |s'.jobs|
      && (forall j :: 0 <= j < |s'.jobs| ==> CallerFits(s'.callers[j], s'.jobs[j]))
  {
    var s' := After(s, step);
    if s.current.Some? {
      assert JobFits(s, s.current.value);
    }
    forall j, k | 0 <= j < k < Taken(s')
      ensures s'.jobs[j].Before(s'.jobs[k])
    {
      assert JobFits(s, j);
    }
    forall j | 0 <= j < |s'.jobs|
      ensures CallerFits(s'.callers[j], s'.jobs[j])
    {
      if j < |s.jobs| {
        assert CallerFits(s.callers[j], s.jobs[j]) && JobFits(s, j);
      }
    }
  }

  lemma ChangeStaysTold(s: State, step: Step, c: Change)
    requires Invariant(s) && Enabled(s, step) && c in s.changes
    ensures ChangeFits(After(s, step), if step.Deliver? && c.told.None? then c.(told := Some(s.now)) else c)
  {
    assert ChangeFits(s, c) && JobFits(s, c.job);
    if s.current.Some? {
      assert JobFits(s, s.current.value);
    }
  }

  lemma ChangesStayTold(s: State, step: Step)
    requires Invariant(s) && Enabled(s, step)
    ensures forall c :: c in After(s, step).changes ==> ChangeFits(After(s, step), c)
  {
    var s' := After(s, step);
    forall i | 0 <= i < |s'.changes|
      ensures ChangeFits(s', s'.changes[i])
    {
      if i < |s.changes| {
        ChangeStaysTold(s, step, s.changes[i]);
      } else {
        assert JobFits(s, s.current.value);
      }
    }
  }

  lemma StepKeepsInvariant(s: State, step: Step)
    requires Invariant(s) && Enabled(s, step)
    ensures Invariant(After(s, step))
  {
    JobsStayInOrder(s, step);
    JobsStayApart(s, step);
    ChangesStayTold(s, step);
  }

  ghost predicate IsRun(states: seq<State>, steps: seq<Step>) {
    && |states| == |steps| + 1 && states[0] == Empty
    && forall k :: 0 <= k < |steps| ==> Enabled(states[k], steps[k]) && states[k + 1] == After(states[k], steps[k])
  }

  lemma {:induction false} EveryRunIsOrderly(states: seq<State>, steps: seq<Step>, at: nat)
    requires IsRun(states, steps) && at < |states|
    ensures Invariant(states[at])
  {
    if at > 0 {
      EveryRunIsOrderly(states, steps, at - 1);
      StepKeepsInvariant(states[at - 1], steps[at - 1]);
    }
  }

  /**
   **No two jobs overlap and none overtakes another**, whoever still waits: a job
   that began found every earlier one over, and a queue that ran dry left none behind.
   */
  lemma AcceptedJobsRunInOrder(states: seq<State>, steps: seq<Step>, at: nat)
    requires IsRun(states, steps) && at < |states|
    ensures
      var s := states[at];
      && (forall j, k :: 0 <= j < k < |s.jobs| && !s.jobs[k].Queued? ==> s.jobs[j].Before(s.jobs[k]))
      && (s.queue == [] && s.current.None? ==> forall j :: 0 <= j < |s.jobs| ==> s.jobs[j].Over())
  {
    EveryRunIsOrderly(states, steps, at);
    var s := states[at];
    forall j, k | 0 <= j < k < |s.jobs| && !s.jobs[k].Queued?
      ensures s.jobs[j].Before(s.jobs[k])
    {
      assert JobFits(s, k);
    }
    forall j | 0 <= j < |s.jobs| && s.queue == [] && s.current.None?
      ensures s.jobs[j].Over()
    {
      assert JobFits(s, j);
    }
  }

  /** **A job runs once**: it never begins again, and once over it stays as it ended. */
  lemma {:induction false} AJobRunsOnce(states: seq<State>, steps: seq<Step>, at: nat, later: nat, j: nat)
    requires IsRun(states, steps) && at <= later < |states|
    requires j < |states[at].jobs| && !states[at].jobs[j].Queued?
    ensures j < |states[later].jobs| && !states[later].jobs[j].Queued?
    ensures states[later].jobs[j].began == states[at].jobs[j].began
    ensures states[at].jobs[j].Over() ==> states[later].jobs[j] == states[at].jobs[j]
    decreases later
  {
    if at < later {
      AJobRunsOnce(states, steps, at, later - 1, j);
      EveryRunIsOrderly(states, steps, later - 1);
      var s := states[later - 1];
      assert JobFits(s, j) && Enabled(s, steps[later - 1]) && states[later] == After(s, steps[later - 1]);
      if s.current.Some? {
        assert JobFits(s, s.current.value);
      }
    }
  }

  /**
   **What a job does, it does alone**, and a call from inside the writer task
   runs in the job that made it: every change was applied after its own job
   began, before it ended, and while no other job had begun and not ended.
   */
  lemma ChangesFallInTheirOwnJob(states: seq<State>, steps: seq<Step>, at: nat, c: Change, other: nat)
    requires IsRun(states, steps) && at < |states| && c in states[at].changes
    requires other < |states[at].jobs| && other != c.job && !states[at].jobs[other].Queued?
    ensures c.job < |states[at].jobs| && !states[at].jobs[c.job].Queued? && states[at].jobs[c.job].began < c.at
    ensures states[at].jobs[c.job].Over() ==> c.at < states[at].jobs[c.job].ended
    ensures (states[at].jobs[other].Over() && states[at].jobs[other].ended < c.at) || c.at < states[at].jobs[other].began
  {
    EveryRunIsOrderly(states, steps, at);
    var s := states[at];
    assert ChangeFits(s, c) && JobFits(s, c.job) && JobFits(s, other);
    if other < c.job {
      assert s.jobs[other].Before(s.jobs[c.job]);
    } else {
      assert s.jobs[c.job].Before(s.jobs[other]);
    }
  }

  /** **A panic fails only its own caller**, and a caller is answered only by its own job. */
  lemma PanicsFailTheirOwnCaller(states: seq<State>, steps: seq<Step>, at: nat, j: nat)
    requires IsRun(states, steps) && at < |states| && j < |states[at].jobs|
    ensures |states[at].callers| == |states[at].jobs|
    ensures states[at].jobs[j].Panicked? ==> states[at].callers[j] in {Crashed, Gone}
    ensures states[at].jobs[j].Answered? ==> states[at].callers[j] in {Got, Gone}
    ensures states[at].callers[j] == Crashed ==> states[at].jobs[j].Panicked?
    ensures states[at].callers[j] == Got ==> states[at].jobs[j].Answered?
  {
    EveryRunIsOrderly(states, steps, at);
    assert CallerFits(states[at].callers[j], states[at].jobs[j]);
  }

  /** **`drain` returns only after every earlier job is over.** */
  lemma DrainWaits(states: seq<State>, steps: seq<Step>, at: nat, drain: nat, j: nat)
    requires IsRun(states, steps) && at < |states| && j < drain < |states[at].jobs|
    requires |states[at].callers| == |states[at].jobs| && states[at].callers[drain] == Got
    ensures states[at].jobs[drain].Answered? && states[at].jobs[j].Before(states[at].jobs[drain])
  {
    EveryRunIsOrderly(states, steps, at);
    assert CallerFits(states[at].callers[drain], states[at].jobs[drain]);
    assert JobFits(states[at], drain) && JobFits(states[at], j);
  }

  /**
   **When subscribers are told before the next job.** A change of a job that is
   over was told before that job ended, and so before the next one began, if and
   only if the job did not panic.
   */
  lemma ToldBeforeTheEndUnlessPanicked(states: seq<State>, steps: seq<Step>, at: nat, c: Change)
    requires IsRun(states, steps) && at < |states| && c in states[at].changes
    requires c.job < |states[at].jobs| && states[at].jobs[c.job].Over()
    ensures (c.told.Some? && c.told.value < states[at].jobs[c.job].ended) <==> states[at].jobs[c.job].Answered?
  {
    EveryRunIsOrderly(states, steps, at);
    assert ChangeFits(states[at], c) && JobFits(states[at], c.job);
  }

  ghost predicate LeftUntold(s: State) {
    s.current == Some(1) && s.changes == [Change(0, 3, None)]
  }

  lemma OneMore(states: seq<State>, steps: seq<Step>, step: Step, next: State)
    returns (states': seq<State>, steps': seq<Step>)
    requires IsRun(states, steps) && Enabled(states[|steps|], step) && After(states[|steps|], step) == next
    ensures IsRun(states', steps') && states'[|steps'|] == next
  {
    states', steps' := states + [next], steps + [step];
    forall k | 0 <= k < |steps'|
      ensures Enabled(states'[k], steps'[k]) && states'[k + 1] == After(states'[k], steps'[k])
    {
      if k < |steps| {
        assert Enabled(states[k], steps[k]) && states[k + 1] == After(states[k], steps[k]);
      }
    }
  }

  const Applied: State :=
    State(4, [Working(2), Queued], [1], Some(0), [Waiting, Waiting], [Change(0, 3, None)])

  lemma ARunApplies() returns (states: seq<State>, steps: seq<Step>)
    ensures IsRun(states, steps) && states[|steps|] == Applied
  {
    states, steps := [Empty], [];
    states, steps := OneMore(states, steps, Call(false), State(1, [Queued], [0], None, [Waiting], []));
    var asked := State(2, [Queued, Queued], [0, 1], None, [Waiting, Waiting], []);
    states, steps := OneMore(states, steps, Call(false), asked);
    var took := State(3, [Working(2), Queued], [1], Some(0), [Waiting, Waiting], []);
    assert After(asked, Take) == took;
    states, steps := OneMore(states, steps, Take, took);
    states, steps := OneMore(states, steps, Apply, Applied);
  }

  /** A change of a job that panicked is still untold when the next job begins. */
  lemma APanicLeavesItsChangeForTheNextJob()
    ensures exists states: seq<State>, steps: seq<Step> :: IsRun(states, steps) && LeftUntold(states[|steps|])
  {
    var states, steps := ARunApplies();
    var failed := State(5, [Panicked(2, 4), Queued], [1], None, [Crashed, Waiting], [Change(0, 3, None)]);
    states, steps := OneMore(states, steps, Panic, failed);
    var next := State(6, [Panicked(2, 4), Working(5)], [], Some(1), [Crashed, Waiting], [Change(0, 3, None)]);
    states, steps := OneMore(states, steps, Take, next);
    assert LeftUntold(states[|steps|]);
  }
}
