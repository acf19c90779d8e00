/** Teaching events and the set of pairs they fold to. */
module TeachingEvents {
  type Run = string
  type Domain = string

  datatype Pair = Pair(run: Run, domain: Domain)

  datatype Event =
    | Recorded(run: Run, domain: Domain, taughtAt: int)
    | Cleared(run: Run)

  function Apply(held: set<Pair>, event: Event): set<Pair> {
    match event
    case Recorded(run, domain, _) => held + {Pair(run, domain)}
    case Cleared(run) => set p | p in held && p.run != run
  }

  function ApplyAll(held: set<Pair>, events: seq<Event>): set<Pair>
    decreases |events|
  {
    if events == [] then held
    else Apply(ApplyAll(held, events[..|events| - 1]), events[|events| - 1])
  }

  function RunsOf(events: seq<Event>): set<Run> {
    set e | e in events :: e.run
  }

  lemma {:induction false} ApplyAllConcat(held: set<Pair>, a: seq<Event>, b: seq<Event>)
    ensures ApplyAll(held, a + b) == ApplyAll(ApplyAll(held, a), b)
    decreases |b|
  {
    if b == [] {
      assert a + b == a;
    } else {
      var last := |b| - 1;
      assert (a + b)[..|a + b| - 1] == a + b[..last];
      ApplyAllConcat(held, a, b[..last]);
    }
  }

  lemma ApplyAllPush(held: set<Pair>, events: seq<Event>, event: Event)
    ensures ApplyAll(held, events + [event]) == Apply(ApplyAll(held, events), event)
  {
    assert (events + [event])[..|events|] == events;
  }

  lemma ApplyAllOne(held: set<Pair>, event: Event)
    ensures ApplyAll(held, [event]) == Apply(held, event)
  {
    assert [event][..0] == [];
    assert ApplyAll(held, []) == held;
  }

  /** Events move only the pairs of the runs they name. */
  lemma {:induction false} ApplyAllIsLocal(held: set<Pair>, events: seq<Event>, p: Pair)
    requires p.run !in RunsOf(events)
    ensures p in ApplyAll(held, events) <==> p in held
    decreases |events|
  {
    if events != [] {
      var last := |events| - 1;
      assert events[last] in events;
      assert forall e :: e in events[..last] ==> e in events;
      ApplyAllIsLocal(held, events[..last], p);
    }
  }

  /** What `State::first_contact` prepares: one record for a pair not held yet. */
  function PrepareContact(held: set<Pair>, pair: Pair, at: int): seq<Event> {
    if pair in held then [] else [Recorded(pair.run, pair.domain, at)]
  }

  /** What `State::forget` prepares: one clear for a run that holds a pair. */
  function PrepareForget(held: set<Pair>, run: Run): seq<Event> {
    if exists p :: p in held && p.run == run then [Cleared(run)] else []
  }

  /** No event records a pair held already when its turn comes. */
  ghost predicate RecordsOnlyNew(held: set<Pair>, events: seq<Event>) {
    forall i :: 0 <= i < |events| && events[i].Recorded? ==>
      Pair(events[i].run, events[i].domain) !in ApplyAll(held, events[..i])
  }

  /** A pair held and never cleared stays held. */
  lemma {:induction false} HeldUntilCleared(events: seq<Event>, i: nat, j: nat)
    requires i < j <= |events| && events[i].Recorded?
    requires forall k :: i < k < j ==> events[k] != Cleared(events[i].run)
    ensures Pair(events[i].run, events[i].domain) in ApplyAll({}, events[..j])
    decreases j
  {
    assert events[..j][..j - 1] == events[..j - 1];
    if i < j - 1 {
      HeldUntilCleared(events, i, j - 1);
    }
  }

  /** Between two records of one pair there is a clear of its run. */
  lemma TwoRecordsHaveAClearBetween(events: seq<Event>, i: nat, j: nat)
    requires RecordsOnlyNew({}, events)
    requires i < j < |events| && events[i].Recorded? && events[j].Recorded?
    requires events[i].run == events[j].run && events[i].domain == events[j].domain
    ensures exists k :: i < k < j && events[k] == Cleared(events[i].run)
  {
    if forall k :: i < k < j ==> events[k] != Cleared(events[i].run) {
      HeldUntilCleared(events, i, j);
    }
  }
}
