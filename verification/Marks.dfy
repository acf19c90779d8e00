/**
 The marks that say the index is behind, under every interleaving of writes,
 marks and whole-corpus readings. A stamp and its store are one step.
 */
module Marks {
  /** A behind mark: when it was made, and the committed writes it speaks for. */
  datatype Mark = Mark(at: nat, writes: set<nat>)

  /** A reading of the whole store, from its reading point to its ingest. */
  datatype Reading =
    | Began(point: nat, clock: nat)
    | Snapped(point: nat, clock: nat, snapshot: nat)
    | Retained(point: nat, clock: nat, snapshot: nat)
    | Loaded(point: nat, clock: nat, snapshot: nat, seen: nat)
    | Ended

  /**
   `clock` counts the writes committed to the store. `unseen` remembers every
   marked write that no reading's ingest, and no refresh of its entity, has shown
   to the index since. `marked` are all the writes that were ever marked, `shown` is
   how far into the store the last ingest came, and `refreshed` how far a refresh of
   one entity came after it. `failedClock` is the clock when the failure was stamped.
   */
  datatype State = State(
    seqNo: nat,
    clock: nat,
    marks: map<string, Mark>,
    failedAt: nat,
    failedClock: nat,
    readings: map<nat, Reading>,
    unseen: set<(string, nat)>,
    marked: set<(string, nat)>,
    shown: nat,
    refreshed: map<string, nat>)

  datatype Step =
    | CommitWrite
    | MarkBehind(entity: string, write: nat)
    | Current(entity: string)
    | FailRefresh
    | BeginReading(r: nat)
    | TakeSnapshot(r: nat)
    | RetainMarks(r: nat)
    | LoadFailure(r: nat)
    | Exchange(r: nat)

  predicate Enabled(s: State, step: Step) {
    match step
    case CommitWrite => true
    case MarkBehind(_, write) => write <= s.clock
    case Current(_) => true
    case FailRefresh => true
    case BeginReading(r) => r !in s.readings
    case TakeSnapshot(r) => r in s.readings && s.readings[r].Began?
    case RetainMarks(r) => r in s.readings && s.readings[r].Snapped?
    case LoadFailure(r) => r in s.readings && s.readings[r].Retained?
    case Exchange(r) => r in s.readings && s.readings[r].Loaded?
  }

  function After(s: State, step: Step): State
    requires Enabled(s, step)
  {
    match step
    case CommitWrite => s.(clock := s.clock + 1)
    case MarkBehind(entity, write) =>
      var writes := if entity in s.marks then s.marks[entity].writes else {};
      s.(seqNo := s.seqNo + 1,
         marks := s.marks[entity := Mark(s.seqNo + 1, writes + {write})],
         unseen := s.unseen + {(entity, write)},
         marked := s.marked + {(entity, write)})
    case Current(entity) =>
      s.(marks := s.marks - {entity},
         unseen := (set u | u in s.unseen && u.0 != entity),
         refreshed := s.refreshed[entity := s.clock])
    case FailRefresh => s.(seqNo := s.seqNo + 1, failedAt := s.seqNo + 1, failedClock := s.clock)
    case BeginReading(r) => s.(readings := s.readings[r := Began(s.seqNo, s.clock)])
    case TakeSnapshot(r) =>
      var reading := s.readings[r];
      s.(readings := s.readings[r := Snapped(reading.point, reading.clock, s.clock)])
    case RetainMarks(r) =>
      var reading := s.readings[r];
      s.(marks := (map e | e in s.marks && s.marks[e].at > reading.point :: s.marks[e]),
         unseen := (set u | u in s.unseen && u.1 > reading.snapshot),
         shown := reading.snapshot,
         refreshed := map[],
         readings := s.readings[r := Retained(reading.point, reading.clock, reading.snapshot)])
    case LoadFailure(r) =>
      var reading := s.readings[r];
      s.(readings := s.readings[r := Loaded(reading.point, reading.clock, reading.snapshot, s.failedAt)])
    case Exchange(r) =>
      var reading := s.readings[r];
      var clears := reading.seen != 0 && reading.seen <= reading.point && s.failedAt == reading.seen;
      s.(failedAt := if clears then 0 else s.failedAt, readings := s.readings[r := Ended])
  }

  ghost predicate ReadingFits(s: State, reading: Reading) {
    reading.Ended? ||
    (&& reading.point <= s.seqNo && reading.clock <= s.clock
     && (forall e :: e in s.marks && s.marks[e].at <= reading.point ==>
           forall w :: w in s.marks[e].writes ==> w <= reading.clock)
     && (s.failedAt != 0 && s.failedAt <= reading.point ==> s.failedClock <= reading.clock)
     && (reading.Snapped? || reading.Retained? || reading.Loaded? ==> reading.clock <= reading.snapshot <= s.clock))
  }

  ghost predicate Invariant(s: State) {
    && s.failedAt <= s.seqNo && s.failedClock <= s.clock
    && (forall e :: e in s.marks ==> s.marks[e].at <= s.seqNo && forall w :: w in s.marks[e].writes ==> w <= s.clock)
    && (forall r :: r in s.readings ==> ReadingFits(s, s.readings[r]))
    && (forall u :: u in s.unseen ==> u.0 in s.marks && u.1 in s.marks[u.0].writes)
  }

  const Nothing: State := State(0, 0, map[], 0, 0, map[], {}, {}, 0, map[])

  lemma StepKeepsInvariant(s: State, step: Step)
    requires Invariant(s) && Enabled(s, step)
    ensures Invariant(After(s, step))
  {
    var s' := After(s, step);
    forall r | r in s'.readings
      ensures ReadingFits(s', s'.readings[r])
    {
      if r in s.readings {
        assert ReadingFits(s, s.readings[r]);
      }
    }
    if step.RetainMarks? {
      RetainClearsOnlyWhatItSaw(s, step.r);
    }
  }

  /**
   **A mark made after a reading began survives that reading's ingest**, as it
   was, and a mark it clears belongs to writes the reading's snapshot contains.
   */
  lemma RetainClearsOnlyWhatItSaw(s: State, r: nat)
    requires Invariant(s) && Enabled(s, RetainMarks(r))
    ensures forall e :: e in s.marks && e !in After(s, RetainMarks(r)).marks ==>
      forall w :: w in s.marks[e].writes ==> w <= s.readings[r].snapshot
    ensures forall e :: e in s.marks && s.marks[e].at > s.readings[r].point ==>
      e in After(s, RetainMarks(r)).marks && After(s, RetainMarks(r)).marks[e] == s.marks[e]
  {
    assert ReadingFits(s, s.readings[r]);
  }

  /**
   **A failure is cleared only by a reading that began after it** and whose
   snapshot holds every write of its time; one stamped in between is kept.
   */
  lemma ExchangeClearsOnlyWhatItSaw(s: State, r: nat)
    requires Invariant(s) && Enabled(s, Exchange(r))
    ensures
      var reading, s' := s.readings[r], After(s, Exchange(r));
      && (s'.failedAt != s.failedAt ==>
            s'.failedAt == 0 && s.failedAt <= reading.point && s.failedClock <= reading.snapshot)
      && (s.failedAt > reading.point ==> s'.failedAt == s.failedAt)
      && (s.failedAt != reading.seen ==> s'.failedAt == s.failedAt)
  {
    assert ReadingFits(s, s.readings[r]);
  }

  ghost predicate IsRun(states: seq<State>, steps: seq<Step>) {
    && |states| == |steps| + 1 && states[0] == Nothing
    && forall k :: 0 <= k < |steps| ==> Enabled(states[k], steps[k]) && states[k + 1] == After(states[k], steps[k])
  }

  /**
   **No reading vouches for a write it never saw**: in every run, every marked
   write that no ingest has shown to the index still has its entity marked.
   */
  lemma {:induction false} UnseenWritesStayMarked(states: seq<State>, steps: seq<Step>, at: nat)
    requires IsRun(states, steps) && at < |states|
    ensures Invariant(states[at])
    ensures forall u :: u in states[at].unseen ==> u.0 in states[at].marks
  {
    if at > 0 {
      UnseenWritesStayMarked(states, steps, at - 1);
      StepKeepsInvariant(states[at - 1], steps[at - 1]);
    }
  }

  // ---- Readings that land out of order ----

  /** How many writes the index shows of this entity. */
  function ShownOf(s: State, entity: string): nat {
    if entity in s.refreshed then s.refreshed[entity] else s.shown
  }

  /** A marked write that the index does not show now, whether or not it did before. */
  predicate Hidden(s: State, u: (string, nat)) {
    u in s.marked && u.1 > ShownOf(s, u.0)
  }

  ghost predicate HiddenAreMarked(s: State) {
    forall u :: Hidden(s, u) ==> u.0 in s.marks
  }

  /** A mark a reading may clear was made when every write ever marked of its entity was in the reading's snapshot. */
  ghost predicate MarksFit(s: State) {
    && (forall u :: u in s.marked ==> u.1 <= s.clock)
    && (forall e :: e in s.marks ==> s.marks[e].at <= s.seqNo)
    && forall r :: r in s.readings ==> ReadingCovers(s, s.readings[r])
  }

  ghost predicate ReadingCovers(s: State, reading: Reading) {
    reading.Ended? ||
    (&& reading.point <= s.seqNo && reading.clock <= s.clock
     && (reading.Snapped? ==> reading.clock <= reading.snapshot)
     && forall u :: u in s.marked && u.0 in s.marks && s.marks[u.0].at <= reading.point ==> u.1 <= reading.clock)
  }

  lemma StepKeepsMarksFit(s: State, step: Step)
    requires MarksFit(s) && Enabled(s, step)
    ensures MarksFit(After(s, step))
  {
    var s' := After(s, step);
    forall r | r in s'.readings
      ensures ReadingCovers(s', s'.readings[r])
    {
      if r in s.readings {
        assert ReadingCovers(s, s.readings[r]);
      }
    }
  }

  lemma {:induction false} RunKeepsMarksFit(states: seq<State>, steps: seq<Step>, at: nat)
    requires IsRun(states, steps) && at < |states|
    ensures MarksFit(states[at])
  {
    if at > 0 {
      RunKeepsMarksFit(states, steps, at - 1);
      StepKeepsMarksFit(states[at - 1], steps[at - 1]);
    }
  }

  /** The reading's snapshot takes no marked write back out of the index, but of entities marked after it began. */
  ghost predicate PutsNothingBack(s: State, r: nat)
    requires Enabled(s, RetainMarks(r))
  {
    forall u :: u in s.marked && s.readings[r].snapshot < u.1 <= ShownOf(s, u.0) ==>
      u.0 in s.marks && s.marks[u.0].at > s.readings[r].point
  }

  lemma StepKeepsHiddenMarked(s: State, step: Step)
    requires MarksFit(s) && HiddenAreMarked(s) && Enabled(s, step)
    ensures HiddenAreMarked(After(s, step)) <==> (step.RetainMarks? ==> PutsNothingBack(s, step.r))
  {
    var s' := After(s, step);
    if step.RetainMarks? {
      assert ReadingCovers(s, s.readings[step.r]);
      forall u | u in s.marked && s.readings[step.r].snapshot < u.1
        ensures Hidden(s', u)
      {
      }
      forall u: (string, nat) | Hidden(s', u) && u.1 > ShownOf(s, u.0)
        ensures u.0 in s'.marks
      {
        assert Hidden(s, u);
      }
    } else {
      forall u | Hidden(s', u)
        ensures u.0 in s'.marks
      {
        assert (step.MarkBehind? && u.0 == step.entity) || Hidden(s, u);
      }
    }
  }

  /**
   **Exactly when every write the index lacks has its entity marked.** In every run,
   a marked write that is not in the index has its entity marked, in all states, if and
   only if no ingest lands a snapshot from before a marked write the index showed,
   but of entities that were marked after that reading began.
   */
  lemma HiddenWritesAreMarked(states: seq<State>, steps: seq<Step>)
    requires IsRun(states, steps)
    ensures (forall at: nat :: at < |states| ==> HiddenAreMarked(states[at])) <==>
      (forall k: nat :: k < |steps| && steps[k].RetainMarks? ==> PutsNothingBack(states[k], steps[k].r))
  {
    hide HiddenAreMarked, PutsNothingBack;
    if forall k: nat :: k < |steps| && steps[k].RetainMarks? ==> PutsNothingBack(states[k], steps[k].r) {
      forall at: nat | at < |states|
        ensures HiddenAreMarked(states[at])
      {
        MarkedSoFar(states, steps, at);
      }
    } else {
      var k: nat :| k < |steps| && steps[k].RetainMarks? && !PutsNothingBack(states[k], steps[k].r);
      RunKeepsMarksFit(states, steps, k);
      assert states[k + 1] == After(states[k], steps[k]);
      if HiddenAreMarked(states[k]) {
        StepKeepsHiddenMarked(states[k], steps[k]);
      }
    }
  }

  lemma {:induction false} MarkedSoFar(states: seq<State>, steps: seq<Step>, at: nat)
    requires IsRun(states, steps) && at < |states|
    requires forall k: nat :: k < |steps| && steps[k].RetainMarks? ==> PutsNothingBack(states[k], steps[k].r)
    ensures HiddenAreMarked(states[at])
  {
    if at > 0 {
      MarkedSoFar(states, steps, at - 1);
      RunKeepsMarksFit(states, steps, at - 1);
      StepKeepsHiddenMarked(states[at - 1], steps[at - 1]);
    }
  }

  lemma OneMore(states: seq<State>, steps: seq<Step>, step: Step) returns (states': seq<State>, steps': seq<Step>)
    requires IsRun(states, steps) && Enabled(states[|steps|], step)
    ensures IsRun(states', steps') && states'[|steps'|] == After(states[|steps|], step)
  {
    states', steps' := states + [After(states[|steps|], step)], steps + [step];
  }

  /** **An older reading that lands after a newer one puts old content back with no mark.** */
  lemma AnOlderReadingHidesAWrite(entity: string)
    ensures exists states: seq<State>, steps: seq<Step> ::
      IsRun(states, steps) && states[|steps|].marks == map[] && states[|steps|].failedAt == 0 && Hidden(states[|steps|], (entity, 1))
  {
    var states, steps := [Nothing], [];
    assert IsRun(states, steps);
    hide IsRun;
    states, steps := OneMore(states, steps, BeginReading(0));
    states, steps := OneMore(states, steps, TakeSnapshot(0));
    states, steps := OneMore(states, steps, CommitWrite);
    states, steps := OneMore(states, steps, MarkBehind(entity, 1));
    states, steps := OneMore(states, steps, BeginReading(1));
    states, steps := OneMore(states, steps, TakeSnapshot(1));
    states, steps := OneMore(states, steps, RetainMarks(1));
    assert states[|steps|].marks == map[];
    states, steps := OneMore(states, steps, RetainMarks(0));
    assert states[|steps|].marks == map[];
  }
}
