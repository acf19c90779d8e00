/**
 The event log as its callers see it: a committed chain of batches, at most one
 batch whose commit is still pending, and the legacy rows that commit beside
 the batches. `DoltLog` proves its methods against the step relations here.
 */
module EventLog {
  import opened Wrappers
  import opened TeachingEvents

  // Digests are taken not to collide, so a sealed identity is its own content.
  datatype BatchId = Sealed(head: nat, members: seq<Event>) | Named(name: string)

  datatype RawBatch = Batch(id: BatchId, prev: nat, members: seq<Event>) {
    function First(): nat { prev + 1 }
    function Last(): nat { prev + |members| }
  }

  /** A sealed batch has at least one member. */
  type Batch = b: RawBatch | b.members != [] witness Batch(Named("first"), 0, [Cleared("run")])

  /** A companion statement over the legacy rows. */
  datatype Statement = InsertRow(pair: Pair) | DeleteRun(run: Run)

  /** A batch and the companions that commit in its transaction. */
  datatype Entry = Entry(batch: Batch, beside: seq<Statement>)

  datatype Range = Range(first: nat, last: nat)

  datatype Append = Committed(range: Range) | DefinitelyNotCommitted | Indeterminate

  datatype LogError = Conflict | Indeterminate | Store

  type AppendReply = Result<Append, LogError>

  type ReadReply = Result<seq<Batch>, LogError>

  datatype Log = Log(chain: seq<Entry>, pending: Option<Entry>, rows: set<Pair>)

  function RangeOf(batch: Batch): Range { Range(batch.First(), batch.Last()) }

  function Exec(rows: set<Pair>, statement: Statement): set<Pair> {
    match statement
    case InsertRow(pair) => rows + {pair}
    case DeleteRun(run) => set p | p in rows && p.run != run
  }

  function ExecAll(rows: set<Pair>, statements: seq<Statement>): set<Pair>
    decreases |statements|
  {
    if statements == [] then rows
    else Exec(ExecAll(rows, statements[..|statements| - 1]), statements[|statements| - 1])
  }

  /** The rows after the companions of every entry, in order. */
  function ExecChain(rows: set<Pair>, entries: seq<Entry>): set<Pair>
    decreases |entries|
  {
    if entries == [] then rows
    else ExecAll(ExecChain(rows, entries[..|entries| - 1]), entries[|entries| - 1].beside)
  }

  function LastPosition(chain: seq<Entry>): nat {
    if chain == [] then 0 else chain[|chain| - 1].batch.Last()
  }

  ghost predicate GapFree(chain: seq<Entry>) {
    forall i :: 0 <= i < |chain| ==> chain[i].batch.prev == LastPosition(chain[..i])
  }

  ghost predicate DistinctIds(chain: seq<Entry>) {
    forall i, j :: 0 <= i < j < |chain| ==> chain[i].batch.id != chain[j].batch.id
  }

  predicate Stored(chain: seq<Entry>, id: BatchId) {
    exists i :: 0 <= i < |chain| && chain[i].batch.id == id
  }

  predicate Holds(chain: seq<Entry>, batch: Batch) {
    exists i :: 0 <= i < |chain| && chain[i].batch == batch
  }

  ghost predicate Extends(chain: seq<Entry>, entry: Entry) {
    entry.batch.prev == LastPosition(chain) && !Stored(chain, entry.batch.id)
  }

  ghost predicate Good(log: Log) {
    && GapFree(log.chain)
    && DistinctIds(log.chain)
    && (log.pending.Some? ==> Extends(log.chain, log.pending.value))
  }

  function Extended(log: Log, entry: Entry): Log {
    Log(log.chain + [entry], None, ExecAll(log.rows, entry.beside))
  }

  /** The pending commit resolved, one way or the other. */
  function Settled(log: Log, landed: bool): Log {
    if log.pending.None? then log
    else if landed then Extended(log, log.pending.value)
    else log.(pending := None)
  }

  /** What the server may do on its own: leave the pending commit, or resolve it. */
  ghost predicate Drifts(log: Log, log': Log) {
    log' == log || log' == Settled(log, true) || log' == Settled(log, false)
  }

  /** An append that found the log settled as `m`. */
  ghost predicate AppendFrom(m: Log, head: nat, entry: Entry, reply: AppendReply, log': Log)
    requires m.pending.None?
  {
    var batch := entry.batch;
    match reply
    case Ok(Committed(range)) =>
      && head == batch.prev && range == RangeOf(batch)
      && (if Stored(m.chain, batch.id) then Holds(m.chain, batch) && log' == m
          else Extends(m.chain, entry) && log' == Extended(m, entry))
    case Ok(DefinitelyNotCommitted) =>
      head == batch.prev && Extends(m.chain, entry) && entry.beside != [] && log' == m
    case Ok(Indeterminate) =>
      && head == batch.prev && Extends(m.chain, entry)
      && (log' == m || log' == Extended(m, entry) || log' == m.(pending := Some(entry)))
    case Err(Conflict) =>
      && log' == m
      && (head != batch.prev
          || (Stored(m.chain, batch.id) && !Holds(m.chain, batch))
          || (!Stored(m.chain, batch.id) && head != LastPosition(m.chain)))
    case Err(Store) => log' == m
    case Err(Indeterminate) => false
  }

  /** An append that was `ready` passed the fence before it did anything else. */
  ghost predicate AppendStep(log: Log, head: nat, entry: Entry, ready: bool, reply: AppendReply, log': Log) {
    if ready then exists landed: bool :: AppendFrom(Settled(log, landed), head, entry, reply, log')
    else reply == Ok(Append.Indeterminate) && Drifts(log, log')
  }

  /** The batches that end after `position`. */
  function Tail(chain: seq<Entry>, position: nat): seq<Batch>
    decreases |chain|
  {
    if chain == [] then []
    else
      var last := chain[|chain| - 1].batch;
      Tail(chain[..|chain| - 1], position) + (if last.Last() > position then [last] else [])
  }

  function Take<T>(s: seq<T>, bound: nat): seq<T> {
    if |s| <= bound then s else s[..bound]
  }

  ghost predicate ReadStep(log: Log, position: nat, bound: nat, ready: bool, reply: ReadReply, log': Log) {
    && FenceStep(log, ready, log')
    && (reply.Ok? ==> ready && reply.value == Take(Tail(log'.chain, position), bound))
  }

  /** A call that only passes the fence: a snapshot stored or loaded, a reopening. */
  ghost predicate FenceStep(log: Log, ready: bool, log': Log) {
    if ready then log' == Settled(log, true) || log' == Settled(log, false)
    else Drifts(log, log')
  }

  // Runs of calls.

  /** `ready` says whether the call passed the fence, whatever became of its own reply. */
  datatype Call =
    | AppendCall(head: nat, entry: Entry, ready: bool, reply: AppendReply)
    | ReadCall(position: nat, bound: nat, ready: bool, read: ReadReply)
    | SnapshotCall(ready: bool)
    | ReopenCall(ready: bool)

  ghost predicate CallStep(log: Log, call: Call, log': Log) {
    match call
    case AppendCall(head, entry, ready, reply) => AppendStep(log, head, entry, ready, reply, log')
    case ReadCall(position, bound, ready, reply) => ReadStep(log, position, bound, ready, reply, log')
    case SnapshotCall(ready) => FenceStep(log, ready, log')
    case ReopenCall(ready) => FenceStep(log, ready, log')
  }

  ghost predicate IsRun(logs: seq<Log>, calls: seq<Call>) {
    && |logs| == |calls| + 1
    && forall i :: 0 <= i < |calls| ==> CallStep(logs[i], calls[i], logs[i + 1])
  }

  /** The call passed the fence, and did not itself leave the batch with no known outcome. */
  predicate Passed(call: Call, id: BatchId) {
    call.ready && (call.AppendCall? && call.reply == Ok(Append.Indeterminate) ==> call.entry.batch.id != id)
  }

  lemma ExtendedIsGood(log: Log, entry: Entry)
    requires Good(log) && Extends(log.chain, entry)
    ensures Good(Extended(log, entry))
  {
    var chain := log.chain + [entry];
    forall i | 0 <= i < |chain|
      ensures chain[i].batch.prev == LastPosition(chain[..i])
    {
      if i < |log.chain| {
        assert chain[..i] == log.chain[..i];
      } else {
        assert chain[..i] == log.chain;
      }
    }
  }

  lemma SettledIsGood(log: Log, landed: bool)
    requires Good(log)
    ensures Good(Settled(log, landed)) && Settled(log, landed).pending.None?
  {
    if log.pending.Some? && landed {
      ExtendedIsGood(log, log.pending.value);
    }
  }

  lemma AppendFromKeepsGood(m: Log, head: nat, entry: Entry, reply: AppendReply, log': Log)
    requires Good(m) && m.pending.None? && AppendFrom(m, head, entry, reply, log')
    ensures Good(log')
  {
    if Extends(m.chain, entry) {
      ExtendedIsGood(m, entry);
    }
  }

  /** Every call keeps the chain whole, whatever the network answered. */
  lemma CallKeepsGood(log: Log, call: Call, log': Log)
    requires Good(log) && CallStep(log, call, log')
    ensures Good(log')
  {
    SettledIsGood(log, true);
    SettledIsGood(log, false);
    if call.AppendCall? {
      if landed: bool :| AppendFrom(Settled(log, landed), call.head, call.entry, call.reply, log') {
        AppendFromKeepsGood(Settled(log, landed), call.head, call.entry, call.reply, log');
      }
    }
  }

  /** **One gap-free chain in every run**, with no batch identity twice. */
  lemma {:induction false} RunKeepsGood(logs: seq<Log>, calls: seq<Call>, k: nat)
    requires IsRun(logs, calls) && Good(logs[0]) && k < |logs|
    ensures Good(logs[k])
  {
    if k > 0 {
      RunKeepsGood(logs, calls, k - 1);
      CallKeepsGood(logs[k - 1], calls[k - 1], logs[k]);
    }
  }

  lemma {:induction false} LastPositionGrows(chain: seq<Entry>, i: nat, j: nat)
    requires GapFree(chain) && i <= j <= |chain|
    ensures LastPosition(chain[..i]) + (j - i) <= LastPosition(chain[..j])
    decreases j - i
  {
    if i < j {
      LastPositionGrows(chain, i, j - 1);
      assert chain[..j][|chain[..j]| - 1] == chain[j - 1];
    }
  }

  /** What gap-free means: every position up to the head is in exactly one batch. */
  lemma {:induction false} EveryPositionIsInOneBatch(chain: seq<Entry>, p: nat)
    requires GapFree(chain) && 0 < p <= LastPosition(chain)
    ensures exists i :: 0 <= i < |chain| && chain[i].batch.First() <= p <= chain[i].batch.Last()
    ensures forall i, j :: 0 <= i < j < |chain| ==>
      !(chain[i].batch.First() <= p <= chain[i].batch.Last() && chain[j].batch.First() <= p <= chain[j].batch.Last())
  {
    SomeBatchHas(chain, |chain|, p);
    forall i, j | 0 <= i < j < |chain|
      ensures chain[i].batch.Last() < chain[j].batch.First()
    {
      LastPositionGrows(chain, i + 1, j);
      assert chain[..i + 1][|chain[..i + 1]| - 1] == chain[i];
    }
  }

  lemma {:induction false} SomeBatchHas(chain: seq<Entry>, n: nat, p: nat)
    requires GapFree(chain) && n <= |chain| && 0 < p <= LastPosition(chain[..n])
    ensures exists i :: 0 <= i < |chain| && chain[i].batch.First() <= p <= chain[i].batch.Last()
  {
    assert chain[..n][|chain[..n]| - 1] == chain[n - 1];
    if p < chain[n - 1].batch.First() {
      SomeBatchHas(chain, n - 1, p);
    }
  }

  /** The batches of a stretch of the chain. */
  function Batches(entries: seq<Entry>): (r: seq<Batch>)
    ensures |r| == |entries|
    ensures forall i :: 0 <= i < |r| ==> r[i] == entries[i].batch
    decreases |entries|
  {
    if entries == [] then [] else Batches(entries[..|entries| - 1]) + [entries[|entries| - 1].batch]
  }

  lemma TailTakesTheLast(chain: seq<Entry>, position: nat, k: nat, n: nat)
    requires k < n <= |chain| && position < chain[n - 1].batch.Last()
    requires Tail(chain[..n - 1], position) == Batches(chain[k..n - 1])
    ensures Tail(chain[..n], position) == Batches(chain[k..n])
  {
    assert chain[..n][..n - 1] == chain[..n - 1];
    assert chain[k..n][..n - k - 1] == chain[k..n - 1];
  }

  /** The tail after a batch boundary is the rest of the chain. */
  lemma {:induction false} TailAfterBoundary(chain: seq<Entry>, k: nat, n: nat)
    requires GapFree(chain) && k <= n <= |chain|
    ensures Tail(chain[..n], LastPosition(chain[..k])) == Batches(chain[k..n])
    decreases n
  {
    hide GapFree, Tail, Batches;
    var position := LastPosition(chain[..k]);
    if k == n {
      NothingAfterTheEnd(chain, n, position);
    } else {
      TailAfterBoundary(chain, k, n - 1);
      LastPositionGrows(chain, k, n);
      assert chain[..n][n - 1] == chain[n - 1];
      TailTakesTheLast(chain, position, k, n);
    }
  }

  lemma TailOfWhole(chain: seq<Entry>, k: nat, position: nat)
    requires GapFree(chain) && k <= |chain| && position == LastPosition(chain[..k])
    ensures Tail(chain, position) == Batches(chain[k..])
  {
    hide GapFree, Tail, Batches, LastPosition;
    TailAfterBoundary(chain, k, |chain|);
    assert chain[..|chain|] == chain;
  }

  lemma {:induction false} NothingAfterTheEnd(chain: seq<Entry>, n: nat, position: nat)
    requires GapFree(chain) && n <= |chain| && LastPosition(chain[..n]) <= position
    ensures Tail(chain[..n], position) == []
  {
    if n > 0 {
      assert chain[..n][..n - 1] == chain[..n - 1];
      assert chain[..n][n - 1] == chain[n - 1];
      LastPositionGrows(chain, n - 1, n);
      NothingAfterTheEnd(chain, n - 1, position);
    }
  }

  lemma SettledGrowth(log: Log, landed: bool)
    ensures log.chain <= Settled(log, landed).chain
    ensures Settled(log, landed).rows == ExecChain(log.rows, Settled(log, landed).chain[|log.chain|..])
    ensures Settled(log, landed).pending.None?
    ensures log.pending.None? ==> Settled(log, landed) == log
  {
    var grown := Settled(log, landed).chain[|log.chain|..];
    if log.pending.Some? && landed {
      assert grown == [log.pending.value];
      ExecChainOne(log.rows, log.pending.value);
    } else {
      assert grown == [];
    }
  }

  lemma AppendFromGrowth(m: Log, head: nat, entry: Entry, reply: AppendReply, log': Log)
    requires m.pending.None? && AppendFrom(m, head, entry, reply, log')
    ensures log'.chain == m.chain || log'.chain == m.chain + [entry]
    ensures log'.rows == ExecChain(m.rows, log'.chain[|m.chain|..])
    ensures log'.pending.None? || (reply == Ok(Append.Indeterminate) && log'.pending == Some(entry))
  {
    if log'.chain == m.chain {
      assert log'.chain[|m.chain|..] == [];
    } else {
      assert log'.chain[|m.chain|..] == [entry];
      ExecChainOne(m.rows, entry);
    }
  }

  /** A call grows the chain by the pending batch, by its own batch, or not at all. */
  lemma CallGrowth(log: Log, call: Call, log': Log)
    requires CallStep(log, call, log')
    ensures log.chain <= log'.chain
    ensures log'.rows == ExecChain(log.rows, log'.chain[|log.chain|..])
    ensures call.ready ==>
      log'.pending.None? || (call.AppendCall? && call.reply == Ok(Append.Indeterminate) && log'.pending == Some(call.entry))
    ensures log.pending.None? && !call.AppendCall? ==> log' == log
    ensures log.pending.None? && call.AppendCall? ==>
      && (log'.chain == log.chain || log'.chain == log.chain + [call.entry])
      && (log'.pending.None? || log'.pending == Some(call.entry))
  {
    SettledGrowth(log, true);
    SettledGrowth(log, false);
    assert log.chain[|log.chain|..] == [];
    if call.AppendCall? {
      if landed: bool :| AppendFrom(Settled(log, landed), call.head, call.entry, call.reply, log') {
        var m := Settled(log, landed);
        AppendFromGrowth(m, call.head, call.entry, call.reply, log');
        GrowthComposes(log, m, log');
      }
    }
  }

  lemma GrowthComposes(log: Log, m: Log, log': Log)
    requires log.chain <= m.chain <= log'.chain
    requires m.rows == ExecChain(log.rows, m.chain[|log.chain|..])
    requires log'.rows == ExecChain(m.rows, log'.chain[|m.chain|..])
    ensures log'.rows == ExecChain(log.rows, log'.chain[|log.chain|..])
  {
    ExecChainConcat(log.rows, m.chain[|log.chain|..], log'.chain[|m.chain|..]);
    assert log'.chain[|log.chain|..] == m.chain[|log.chain|..] + log'.chain[|m.chain|..];
  }

  lemma ExecChainOne(rows: set<Pair>, entry: Entry)
    ensures ExecChain(rows, [entry]) == ExecAll(rows, entry.beside)
  {
    assert [entry][..0] == [];
    assert ExecChain(rows, []) == rows;
  }

  lemma {:induction false} ExecChainConcat(rows: set<Pair>, a: seq<Entry>, b: seq<Entry>)
    ensures ExecChain(rows, a + b) == ExecChain(ExecChain(rows, a), b)
    decreases |b|
  {
    if b == [] {
      assert a + b == a;
    } else {
      assert (a + b)[..|a + b| - 1] == a + b[..|b| - 1];
      ExecChainConcat(rows, a, b[..|b| - 1]);
    }
  }

  /** **Companions take effect exactly when their batch does**, over every run. */
  lemma {:induction false} RowsFollowTheChain(logs: seq<Log>, calls: seq<Call>, k: nat)
    requires IsRun(logs, calls) && k < |logs|
    ensures logs[0].chain <= logs[k].chain
    ensures logs[k].rows == ExecChain(logs[0].rows, logs[k].chain[|logs[0].chain|..])
  {
    if k == 0 {
      assert logs[0].chain[|logs[0].chain|..] == [];
    } else {
      RowsFollowTheChain(logs, calls, k - 1);
      CallGrowth(logs[k - 1], calls[k - 1], logs[k]);
      GrowthComposes(logs[0], logs[k - 1], logs[k]);
    }
  }

  /** Every entry a call adds, or leaves pending, was pending before or is its own. */
  lemma CallAdds(log: Log, call: Call, log': Log)
    requires CallStep(log, call, log')
    ensures forall i :: |log.chain| <= i < |log'.chain| ==>
      (log.pending.Some? && log'.chain[i] == log.pending.value) || (call.AppendCall? && log'.chain[i] == call.entry)
    ensures log'.pending.Some? ==>
      log'.pending == log.pending || (call.AppendCall? && log'.pending.value == call.entry)
  {
    hide ExecChain, ExecAll, Stored, Holds;
    if call.AppendCall? {
      if landed: bool :| AppendFrom(Settled(log, landed), call.head, call.entry, call.reply, log') {
        AppendFromGrowth(Settled(log, landed), call.head, call.entry, call.reply, log');
      }
    }
  }

  /** No call from `from` on carries this batch. */
  ghost predicate NotAppendedFrom(calls: seq<Call>, from: nat, id: BatchId) {
    forall i :: from <= i < |calls| && calls[i].AppendCall? ==> calls[i].entry.batch.id != id
  }

  /**
   **No late commit.** Once a call has passed the fence, even one whose own reply
   was then lost, whether any other batch is in the log is fixed for ever, unless
   a later call appends that batch again.
   */
  lemma {:induction false} NoLateCommit(logs: seq<Log>, calls: seq<Call>, fence: nat, k: nat, id: BatchId)
    requires IsRun(logs, calls) && fence < k < |logs|
    requires Passed(calls[fence], id) && NotAppendedFrom(calls, fence + 1, id)
    ensures Stored(logs[k].chain, id) <==> Stored(logs[fence + 1].chain, id)
    ensures logs[k].pending.Some? ==> logs[k].pending.value.batch.id != id
  {
    if k == fence + 1 {
      CallGrowth(logs[fence], calls[fence], logs[k]);
    } else {
      NoLateCommit(logs, calls, fence, k - 1, id);
      OthersKeepPresence(logs[k - 1], calls[k - 1], logs[k], id);
    }
  }

  lemma OthersKeepPresence(log: Log, call: Call, log': Log, id: BatchId)
    requires CallStep(log, call, log')
    requires call.AppendCall? ==> call.entry.batch.id != id
    requires log.pending.Some? ==> log.pending.value.batch.id != id
    ensures Stored(log'.chain, id) <==> Stored(log.chain, id)
    ensures log'.pending.Some? ==> log'.pending.value.batch.id != id
  {
    CallGrowth(log, call, log');
    CallAdds(log, call, log');
    hide CallStep, ExecChain;
    assert forall i :: |log.chain| <= i < |log'.chain| ==> log'.chain[i].batch.id != id;
    if Stored(log.chain, id) {
      var i :| 0 <= i < |log.chain| && log.chain[i].batch.id == id;
      assert log'.chain[i].batch.id == id;
    }
  }

  /**
   Appending a stored batch again, on a settled log, writes nothing: the only
   definite answers are its own range and a store error, and it stays one row.
   */
  lemma AppendingAgain(log: Log, entry: Entry, ready: bool, reply: AppendReply, log': Log)
    requires Good(log) && log.pending.None? && Holds(log.chain, entry.batch)
    requires AppendStep(log, entry.batch.prev, entry, ready, reply, log')
    ensures log' == log
    ensures reply in {Ok(Committed(RangeOf(entry.batch))), Ok(Append.Indeterminate), Err(LogError.Store)}
    ensures forall i, j :: 0 <= i < j < |log'.chain| ==>
      log'.chain[i].batch != entry.batch || log'.chain[j].batch != entry.batch
  {
    assert Stored(log.chain, entry.batch.id);
  }

  /** An error, or a refusal, leaves no transaction that could still commit. */
  lemma DefiniteAnswersSettle(log: Log, head: nat, entry: Entry, ready: bool, reply: AppendReply, log': Log)
    requires AppendStep(log, head, entry, ready, reply, log') && reply != Ok(Append.Indeterminate)
    ensures log'.pending.None?
    ensures !reply.Ok? || reply.value.DefinitelyNotCommitted? ==>
      log' == Settled(log, true) || log' == Settled(log, false)
  {
  }
}
