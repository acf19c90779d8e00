/** Events that lead the log's pairs to the pairs of the legacy rows, and no further. */
module Reconcile {
  import opened TeachingEvents
  import opened Order

  /** A pair of the legacy rows and its own time. */
  datatype Mark = Mark(pair: Pair, taughtAt: int)

  function PairsOf(marks: seq<Mark>): set<Pair> {
    set m | m in marks :: m.pair
  }

  /** No pair is marked twice. */
  ghost predicate DistinctMarks(marks: seq<Mark>) {
    forall i, j :: 0 <= i < j < |marks| ==> marks[i].pair != marks[j].pair
  }

  type Rows = map<Run, map<Domain, int>>

  type Logged = map<Run, set<Domain>>

  ghost function RowPairs(rows: Rows): iset<Pair> {
    iset p: Pair | p.run in rows && p.domain in rows[p.run]
  }

  ghost function LoggedPairs(logged: Logged): iset<Pair> {
    iset p: Pair | p.run in logged && p.domain in logged[p.run]
  }

  method RowsByRun(marks: seq<Mark>) returns (rows: Rows)
    ensures forall p :: p in RowPairs(rows) <==> p in PairsOf(marks)
    ensures forall p :: p in RowPairs(rows) ==> Mark(p, rows[p.run][p.domain]) in marks
  {
    rows := map[];
    for i := 0 to |marks|
      invariant forall p :: p in RowPairs(rows) <==> p in PairsOf(marks[..i])
      invariant forall p :: p in RowPairs(rows) ==> Mark(p, rows[p.run][p.domain]) in marks[..i]
    {
      var mark := marks[i];
      var row := if mark.pair.run in rows then rows[mark.pair.run] else map[];
      rows := rows[mark.pair.run := row[mark.pair.domain := mark.taughtAt]];
      assert marks[..i + 1] == marks[..i] + [mark];
      assert PairsOf(marks[..i + 1]) == PairsOf(marks[..i]) + {mark.pair};
    }
    assert marks[..|marks|] == marks;
  }

  method LoggedByRun(held: set<Pair>) returns (logged: Logged)
    ensures forall p :: p in LoggedPairs(logged) <==> p in held
  {
    logged := map[];
    var todo := held;
    while todo != {}
      invariant todo <= held
      invariant forall p :: p in LoggedPairs(logged) <==> p in held - todo
    {
      var p :| p in todo;
      var domains := if p.run in logged then logged[p.run] else {};
      ghost var before := logged;
      logged := logged[p.run := domains + {p.domain}];
      forall q: Pair
        ensures q in LoggedPairs(logged) <==> q in LoggedPairs(before) || q == p
      {
        assert q == p <==> q.run == p.run && q.domain == p.domain;
      }
      todo := todo - {p};
    }
  }

  /** The log and the rows disagree about this run. */
  ghost predicate Disagree(held: set<Pair>, wanted: set<Pair>, run: Run) {
    exists d: Domain :: (Pair(run, d) in held) != (Pair(run, d) in wanted)
  }

  /** What the events do to `held`: they land on `after` and record nothing twice. */
  ghost predicate Leads(held: set<Pair>, events: seq<Event>, after: set<Pair>) {
    ApplyAll(held, events) == after && RecordsOnlyNew(held, events)
  }

  /** Every event names a run in dispute, and a record carries its mark's own time. */
  ghost predicate Justified(held: set<Pair>, wanted: set<Pair>, marks: seq<Mark>, e: Event) {
    && Disagree(held, wanted, e.run)
    && (e.Recorded? ==> Mark(Pair(e.run, e.domain), e.taughtAt) in marks)
  }

  lemma LeadsPush(held: set<Pair>, events: seq<Event>, after: set<Pair>, e: Event)
    requires Leads(held, events, after)
    requires e.Recorded? ==> Pair(e.run, e.domain) !in after
    ensures Leads(held, events + [e], Apply(after, e))
  {
    hide ApplyAll, Apply;
    ApplyAllPush(held, events, e);
    var more := events + [e];
    assert more[..|events|] == events;
    forall i | 0 <= i < |more| && more[i].Recorded?
      ensures Pair(more[i].run, more[i].domain) !in ApplyAll(held, more[..i])
    {
      if i < |events| {
        assert more[..i] == events[..i];
      }
    }
  }

  /** Runs rise; inside a run the clear comes first, and then the domains rise. */
  predicate EventBefore(a: Event, b: Event) {
    Less(a.run, b.run)
    || (a.run == b.run && b.Recorded? && (a.Cleared? || Less(a.domain, b.domain)))
  }

  ghost predicate Ordered(events: seq<Event>) {
    forall i, j :: 0 <= i < j < |events| ==> EventBefore(events[i], events[j])
  }

  lemma OrderedPush(events: seq<Event>, e: Event)
    requires Ordered(events) && forall x :: x in events ==> EventBefore(x, e)
    ensures Ordered(events + [e])
  {
  }

  /** The pairs of run `name` are exactly those with a domain in `domains`. */
  ghost predicate HoldsOf(held: set<Pair>, name: Run, domains: set<Domain>) {
    forall d :: Pair(name, d) in held <==> d in domains
  }

  lemma DisagreeOn(held: set<Pair>, wanted: set<Pair>, run: Run)
    ensures forall d: Domain :: (Pair(run, d) in held) != (Pair(run, d) in wanted) ==> Disagree(held, wanted, run)
  {
  }

  function RowOf(rows: Rows, name: Run): (row: map<Domain, int>)
    ensures forall d :: d in row <==> Pair(name, d) in RowPairs(rows)
    ensures forall d :: d in row ==> Pair(name, d).run in rows && row[d] == rows[name][d]
  {
    if name in rows then rows[name] else map[]
  }

  function LoggedOf(logged: Logged, name: Run): (domains: set<Domain>)
    ensures forall d :: d in domains <==> Pair(name, d) in LoggedPairs(logged)
  {
    if name in logged then logged[name] else {}
  }

  /** One run's events: a clear when the log has too much, then what is missing. */
  method RunDifferences(name: Run, row: map<Domain, int>, inLog: set<Domain>, sofar: seq<Event>,
                        ghost held: set<Pair>, ghost marks: seq<Mark>, ghost was: set<Pair>)
    returns (events: seq<Event>, ghost now: set<Pair>)
    requires Leads(held, sofar, was)
    requires HoldsOf(was, name, inLog) && HoldsOf(held, name, inLog) && HoldsOf(PairsOf(marks), name, row.Keys)
    requires forall d :: d in row ==> Mark(Pair(name, d), row[d]) in marks
    requires forall e :: e in sofar ==> Justified(held, PairsOf(marks), marks, e)
    requires Ordered(sofar) && forall e :: e in sofar ==> Less(e.run, name)
    ensures Ordered(events) && forall e :: e in events ==> e in sofar || e.run == name
    ensures Leads(held, events, now)
    ensures forall e :: e in events ==> Justified(held, PairsOf(marks), marks, e)
    ensures HoldsOf(now, name, row.Keys)
    ensures forall p: Pair :: p.run != name ==> (p in now <==> p in was)
  {
    hide Leads, Disagree, PairsOf, Ordered, Less;
    assert forall d :: (d in inLog) != (d in row) ==> Disagree(held, PairsOf(marks), name) by {
      DisagreeOn(held, PairsOf(marks), name);
    }
    events, now := sofar, was;
    var logHasExtra := exists d :: d in inLog && d !in row;
    if logHasExtra {
      LeadsPush(held, events, now, Cleared(name));
      OrderedPush(events, Cleared(name));
      events, now := events + [Cleared(name)], Apply(now, Cleared(name));
    }
    ghost var kept := if logHasExtra then {} else inLog;
    var domains := row.Keys;
    while domains != {}
      invariant domains <= row.Keys
      invariant forall done, left :: done in row.Keys - domains && left in domains ==> Less(done, left)
      invariant Ordered(events)
      invariant forall e :: e in events ==> e in sofar || (e.run == name && (e.Recorded? ==> e.domain in row.Keys - domains))
      invariant Leads(held, events, now)
      invariant forall e :: e in events ==> Justified(held, PairsOf(marks), marks, e)
      invariant forall p: Pair :: p.run != name ==> (p in now <==> p in was)
      invariant HoldsOf(now, name, (row.Keys - domains) + kept)
    {
      var domain := Least(domains);
      if logHasExtra || domain !in inLog {
        var e := Recorded(name, domain, row[domain]);
        assert Justified(held, PairsOf(marks), marks, e);
        LeadsPush(held, events, now, e);
        OrderedPush(events, e);
        events, now := events + [e], Apply(now, e);
      }
      domains := domains - {domain};
    }
  }

  /**
   The events that turn the log's pairs into the rows' pairs, run by run and domain
   by domain in their order.
   */
  method Differences(held: set<Pair>, marks: seq<Mark>) returns (events: seq<Event>)
    ensures Leads(held, events, PairsOf(marks))
    ensures forall e :: e in events ==> Justified(held, PairsOf(marks), marks, e)
    ensures events == [] <==> held == PairsOf(marks)
    ensures Ordered(events)
  {
    assert Leads(held, [], held);
    hide Leads, PairsOf, Justified, Less, Ordered, Disagree, RowOf, LoggedOf, RowPairs, LoggedPairs;
    var rows := RowsByRun(marks);
    var logged := LoggedByRun(held);
    ghost var wanted := PairsOf(marks);
    var runs := rows.Keys + logged.Keys;
    events := [];
    ghost var now := held;
    var todo := runs;
    while todo != {}
      invariant todo <= runs
      invariant forall done, left :: done in runs - todo && left in todo ==> Less(done, left)
      invariant Ordered(events) && forall e :: e in events ==> e.run in runs - todo
      invariant Leads(held, events, now)
      invariant forall e :: e in events ==> Justified(held, wanted, marks, e)
      invariant forall p: Pair :: p in now <==> if p.run in runs - todo then p in wanted else p in held
    {
      var name := Least(todo);
      var row, inLog := RowOf(rows, name), LoggedOf(logged, name);
      assert HoldsOf(held, name, inLog) && HoldsOf(wanted, name, row.Keys);
      events, now := RunDifferences(name, row, inLog, events, held, marks, now);
      todo := todo - {name};
      assert forall p: Pair :: p.run == name ==> p == Pair(name, p.domain);
    }
    forall p: Pair
      ensures p in now <==> p in wanted
    {
      assert p in held <==> p in LoggedPairs(logged);
      assert p in wanted <==> p in RowPairs(rows);
    }
    assert now == wanted;
    NothingToDo(held, marks, events);
  }

  lemma NothingToDo(held: set<Pair>, marks: seq<Mark>, events: seq<Event>)
    requires Leads(held, events, PairsOf(marks))
    requires forall e :: e in events ==> Justified(held, PairsOf(marks), marks, e)
    ensures events == [] <==> held == PairsOf(marks)
  {
    if events != [] {
      assert Justified(held, PairsOf(marks), marks, events[0]);
    }
  }

  /** One record for each mark, at the mark's time. */
  function ImportOf(marks: seq<Mark>): (events: seq<Event>)
    ensures |events| == |marks|
    ensures forall i :: 0 <= i < |marks| ==> events[i] == Recorded(marks[i].pair.run, marks[i].pair.domain, marks[i].taughtAt)
  {
    seq(|marks|, i requires 0 <= i < |marks| => Recorded(marks[i].pair.run, marks[i].pair.domain, marks[i].taughtAt))
  }

  predicate MarkBefore(a: Mark, b: Mark) {
    Less(a.pair.run, b.pair.run) || (a.pair.run == b.pair.run && Less(a.pair.domain, b.pair.domain))
  }

  /** The marks by run and then by domain. */
  function SortedMarks(marks: seq<Mark>): (sorted: seq<Mark>)
    ensures multiset(sorted) == multiset(marks)
  {
    if marks == [] then []
    else
      assert marks == [marks[0]] + marks[1..];
      InsertMark(marks[0], SortedMarks(marks[1..]))
  }

  function InsertMark(mark: Mark, sorted: seq<Mark>): (more: seq<Mark>)
    ensures multiset(more) == multiset{mark} + multiset(sorted)
  {
    if sorted == [] || !MarkBefore(sorted[0], mark) then [mark] + sorted
    else
      assert sorted == [sorted[0]] + sorted[1..];
      [sorted[0]] + InsertMark(mark, sorted[1..])
  }

  ghost predicate MarksRise(marks: seq<Mark>) {
    forall i, j :: 0 <= i < j < |marks| ==> MarkBefore(marks[i], marks[j])
  }

  lemma MarksCompare(a: Mark, b: Mark)
    ensures a.pair == b.pair || MarkBefore(a, b) || MarkBefore(b, a)
  {
    LessIsTotal(a.pair.run, b.pair.run);
    LessIsTotal(a.pair.domain, b.pair.domain);
  }

  lemma MarksCarryOver(a: Mark, b: Mark, c: Mark)
    requires MarkBefore(a, b) && MarkBefore(b, c)
    ensures MarkBefore(a, c)
  {
    if Less(a.pair.run, b.pair.run) && Less(b.pair.run, c.pair.run) {
      LessIsTransitive(a.pair.run, b.pair.run, c.pair.run);
    }
    if Less(a.pair.domain, b.pair.domain) && Less(b.pair.domain, c.pair.domain) {
      LessIsTransitive(a.pair.domain, b.pair.domain, c.pair.domain);
    }
  }

  lemma {:induction false} InsertedMarksRise(mark: Mark, sorted: seq<Mark>)
    requires MarksRise(sorted) && forall m :: m in sorted ==> m.pair != mark.pair
    ensures MarksRise(InsertMark(mark, sorted))
    decreases |sorted|
  {
    if sorted != [] {
      var first, rest := sorted[0], sorted[1..];
      assert forall m :: m in rest ==> m in sorted && MarkBefore(first, m);
      MarksCompare(first, mark);
      if MarkBefore(first, mark) {
        InsertedMarksRise(mark, rest);
        forall m | m in InsertMark(mark, rest)
          ensures MarkBefore(first, m)
        {
          assert m in multiset(InsertMark(mark, rest));
          assert m == mark || m in rest;
        }
      } else {
        forall m | m in rest
          ensures MarkBefore(mark, m)
        {
          MarksCarryOver(mark, first, m);
        }
      }
    }
  }

  lemma SameMarks(a: seq<Mark>, b: seq<Mark>)
    requires multiset(a) == multiset(b)
    ensures forall m :: m in a <==> m in b
    ensures PairsOf(a) == PairsOf(b)
  {
    assert forall m :: m in a <==> m in multiset(a);
    assert forall m :: m in b <==> m in multiset(b);
  }

  lemma {:induction false} SortedMarksRise(marks: seq<Mark>)
    requires DistinctMarks(marks)
    ensures MarksRise(SortedMarks(marks))
    decreases |marks|
  {
    if marks != [] {
      var rest := marks[1..];
      SortedMarksRise(rest);
      SameMarks(SortedMarks(rest), rest);
      assert forall m :: m in rest ==> exists i :: 0 < i < |marks| && marks[i] == m;
      InsertedMarksRise(marks[0], SortedMarks(rest));
    }
  }

  /** **The import is in order**, and is of the same marks. */
  lemma TheImportIsOrdered(marks: seq<Mark>)
    requires DistinctMarks(marks)
    ensures Ordered(ImportOf(SortedMarks(marks)))
    ensures DistinctMarks(SortedMarks(marks)) && PairsOf(SortedMarks(marks)) == PairsOf(marks)
  {
    SortedMarksRise(marks);
    SameMarks(SortedMarks(marks), marks);
    var sorted := SortedMarks(marks);
    forall i, j | 0 <= i < j < |sorted|
      ensures sorted[i].pair != sorted[j].pair
    {
      assert MarkBefore(sorted[i], sorted[j]);
      LessIsTotal(sorted[i].pair.run, sorted[j].pair.run);
      LessIsTotal(sorted[i].pair.domain, sorted[j].pair.domain);
    }
  }

  lemma {:induction false} ImportAdds(held: set<Pair>, marks: seq<Mark>, n: nat)
    requires n <= |marks|
    ensures ApplyAll(held, ImportOf(marks)[..n]) == held + PairsOf(marks[..n])
  {
    if n > 0 {
      ImportAdds(held, marks, n - 1);
      assert ImportOf(marks)[..n][..n - 1] == ImportOf(marks)[..n - 1];
      assert marks[..n] == marks[..n - 1] + [marks[n - 1]];
      assert PairsOf(marks[..n]) == PairsOf(marks[..n - 1]) + {marks[n - 1].pair};
    }
  }

  /** Importing distinct marks into an empty log records nothing twice. */
  lemma ImportLeads(marks: seq<Mark>)
    requires DistinctMarks(marks)
    ensures Leads({}, ImportOf(marks), PairsOf(marks))
  {
    forall n | 0 <= n <= |marks|
      ensures ApplyAll({}, ImportOf(marks)[..n]) == PairsOf(marks[..n])
    {
      ImportAdds({}, marks, n);
    }
    assert marks[..|marks|] == marks && ImportOf(marks)[..|marks|] == ImportOf(marks);
  }

  /** Importing the rows into a set that holds them changes nothing. */
  lemma ImportIntoRows(marks: seq<Mark>)
    ensures ApplyAll(PairsOf(marks), ImportOf(marks)) == PairsOf(marks)
  {
    ImportAdds(PairsOf(marks), marks, |marks|);
    assert marks[..|marks|] == marks && ImportOf(marks)[..|marks|] == ImportOf(marks);
  }

  ghost predicate Records(events: seq<Event>, p: Pair) {
    exists i :: 0 <= i < |events| && events[i].Recorded? && Pair(events[i].run, events[i].domain) == p
  }

  /** A cleared run forgets where it started; any other pair is held or recorded. */
  lemma {:induction false} ClearsForget(a: set<Pair>, b: set<Pair>, events: seq<Event>, p: Pair)
    ensures Cleared(p.run) in events ==> (p in ApplyAll(a, events) <==> p in ApplyAll(b, events))
    ensures Cleared(p.run) !in events ==> (p in ApplyAll(a, events) <==> p in a || Records(events, p))
    decreases |events|
  {
    if events != [] {
      var n := |events| - 1;
      ClearsForget(a, b, events[..n], p);
      assert events == events[..n] + [events[n]];
      assert Records(events[..n], p) ==> Records(events, p);
    }
  }

  /** What leads `held` to `wanted` leaves `wanted` as it is. */
  lemma ReconcilingTwiceIsOnce(held: set<Pair>, events: seq<Event>, wanted: set<Pair>)
    requires Leads(held, events, wanted)
    ensures ApplyAll(wanted, events) == wanted
  {
    forall p: Pair
      ensures p in ApplyAll(wanted, events) <==> p in wanted
    {
      ClearsForget(wanted, held, events, p);
      ClearsForget(held, wanted, events, p);
    }
  }
}
