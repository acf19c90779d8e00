/**
 The database server and the connections to it. The server runs on its own:
 it may doom a connection, resolve a transaction whose COMMIT it was sent, and
 release what a dead connection held. Every reply may be lost.
 */
module Server {
  import opened Wrappers
  import opened TeachingEvents
  import opened EventLog

  /** A connection's transaction. `Sent` and `SentSnapshot` may land without a reply. */
  datatype Tx =
    | Idle
    | Open(batch: Option<Batch>, ran: seq<Statement>)
    | Sent(entry: Entry)
    | SentSnapshot(position: nat)

  datatype Conn = Conn(tx: Tx, doomed: bool)

  /** A row of `event_log`. Only a batch row has a first position. */
  datatype Row =
    | BatchRow(first: nat, last: nat, entry: Entry)
    | SnapshotRow(last: nat)

  datatype Db = Db(
    table: seq<Row>,
    rows: set<Pair>,
    lock: Option<nat>,
    conns: map<nat, Conn>,
    next: nat)

  // The queries.

  function Chain(table: seq<Row>): seq<Entry>
    decreases |table|
  {
    if table == [] then []
    else
      var row := table[|table| - 1];
      Chain(table[..|table| - 1]) + (if row.BatchRow? then [row.entry] else [])
  }

  /** The batch stored in the slot of this identity, if there is one. */
  function Lookup(table: seq<Row>, id: BatchId): Option<Batch>
    decreases |table|
  {
    if table == [] then None
    else
      var row := table[|table| - 1];
      if row.BatchRow? && row.entry.batch.id == id then Some(row.entry.batch)
      else Lookup(table[..|table| - 1], id)
  }

  /** The greatest last position of any batch row; a snapshot row does not count. */
  function MaxLast(table: seq<Row>): Option<nat>
    decreases |table|
  {
    if table == [] then None
    else
      var row := table[|table| - 1];
      var rest := MaxLast(table[..|table| - 1]);
      if row.SnapshotRow? then rest
      else if rest.Some? && rest.value > row.last then rest
      else Some(row.last)
  }

  /** The batch rows that end past a position, in the order they stand. */
  function TailRows(table: seq<Row>, position: nat): (r: seq<Row>)
    ensures forall i :: 0 <= i < |r| ==> r[i].BatchRow? && r[i] in table
    decreases |table|
  {
    if table == [] then []
    else
      var row := table[|table| - 1];
      TailRows(table[..|table| - 1], position) + (if row.BatchRow? && row.last > position then [row] else [])
  }

  function WithoutSnapshot(table: seq<Row>): (r: seq<Row>)
    ensures forall row :: row in r <==> row in table && row.BatchRow?
    decreases |table|
  {
    if table == [] then []
    else
      var row := table[|table| - 1];
      WithoutSnapshot(table[..|table| - 1]) + (if row.BatchRow? then [row] else [])
  }

  function Committed(d: Db, entry: Entry): Db {
    d.(table := d.table + [BatchRow(entry.batch.First(), entry.batch.Last(), entry)],
       rows := ExecAll(d.rows, entry.beside))
  }

  // What the server does on its own.

  datatype Move = Doom(conn: nat) | Resolve(conn: nat, commit: bool) | Release(conn: nat)

  function SetConn(d: Db, c: nat, conn: Conn): Db {
    d.(conns := d.conns[c := conn])
  }

  function After(d: Db, move: Move): Db {
    if move.conn !in d.conns then d
    else
      var c, conn := move.conn, d.conns[move.conn];
      match move
      case Doom(_) => SetConn(d, c, conn.(doomed := true))
      case Resolve(_, commit) => (
        match conn.tx
        case Idle => d
        case Open(_, _) => if conn.doomed then SetConn(d, c, conn.(tx := Idle)) else d
        case Sent(entry) =>
          var resolved := SetConn(d, c, conn.(tx := Idle));
          if commit then Committed(resolved, entry) else resolved
        case SentSnapshot(position) =>
          var resolved := SetConn(d, c, conn.(tx := Idle));
          if commit then resolved.(table := WithoutSnapshot(d.table) + [SnapshotRow(position)]) else resolved
      )
      case Release(_) =>
        if conn.doomed && conn.tx.Idle? then
          d.(conns := d.conns - {c}, lock := if d.lock == Some(c) then None else d.lock)
        else d
  }

  function Play(d: Db, moves: seq<Move>): Db
    decreases |moves|
  {
    if moves == [] then d else Play(After(d, moves[0]), moves[1..])
  }

  // What holds of every reachable server.

  ghost predicate RangesMatch(table: seq<Row>) {
    forall i :: 0 <= i < |table| && table[i].BatchRow? ==>
      table[i].first == table[i].entry.batch.First() && table[i].last == table[i].entry.batch.Last()
  }

  /** A transaction is open only on the lock's owner, and it extends the chain. */
  ghost predicate TxFits(d: Db, c: nat)
    requires c in d.conns
  {
    match d.conns[c].tx
    case Idle => true
    case Open(batch, ran) =>
      d.lock == Some(c) && (batch.Some? ==> Extends(Chain(d.table), Entry(batch.value, ran)))
    case Sent(entry) => d.lock == Some(c) && Extends(Chain(d.table), entry)
    case SentSnapshot(_) => d.lock == Some(c)
  }

  ghost predicate Sound(d: Db) {
    && RangesMatch(d.table)
    && GapFree(Chain(d.table))
    && DistinctIds(Chain(d.table))
    && (d.lock.Some? ==> d.lock.value in d.conns)
    && (forall c :: c in d.conns ==> c < d.next)
    && (forall c :: c in d.conns ==> TxFits(d, c))
  }

  function PendingOf(d: Db): Option<Entry> {
    if d.lock.Some? && d.lock.value in d.conns && d.conns[d.lock.value].tx.Sent?
    then Some(d.conns[d.lock.value].tx.entry)
    else None
  }

  /** The log that this server holds. */
  function LogOf(d: Db): Log { Log(Chain(d.table), PendingOf(d), d.rows) }

  predicate Live(d: Db, c: nat) { c in d.conns && !d.conns[c].doomed }

  /** No transaction can land any more. */
  ghost predicate Resting(d: Db) {
    forall c :: c in d.conns ==> !d.conns[c].tx.Sent? && !d.conns[c].tx.SentSnapshot?
  }

  /** Nothing can land, and `c`, while it lives, owns the lock and is at `tx`. */
  ghost predicate Steady(d: Db, c: nat, tx: Tx) {
    && Resting(d)
    && (Live(d, c) ==> d.lock == Some(c) && d.conns[c].tx == tx)
  }

  lemma ChainPush(table: seq<Row>, row: Row)
    ensures Chain(table + [row]) == Chain(table) + (if row.BatchRow? then [row.entry] else [])
  {
    assert (table + [row])[..|table|] == table;
  }

  lemma {:induction false} SnapshotLeavesTheChain(table: seq<Row>)
    ensures Chain(WithoutSnapshot(table)) == Chain(table)
    decreases |table|
  {
    if table != [] {
      var rest, row := table[..|table| - 1], table[|table| - 1];
      SnapshotLeavesTheChain(rest);
      if row.BatchRow? {
        ChainPush(WithoutSnapshot(rest), row);
      } else {
        assert WithoutSnapshot(table) == WithoutSnapshot(rest);
      }
    }
  }

  /** **Storing a snapshot never disturbs the chain.** */
  lemma ReplacedSnapshotLeavesTheChain(table: seq<Row>, position: nat)
    ensures Chain(WithoutSnapshot(table) + [SnapshotRow(position)]) == Chain(table)
    ensures RangesMatch(table) ==> RangesMatch(WithoutSnapshot(table) + [SnapshotRow(position)])
  {
    SnapshotLeavesTheChain(table);
    ChainPush(WithoutSnapshot(table), SnapshotRow(position));
    if RangesMatch(table) {
      var replaced := WithoutSnapshot(table) + [SnapshotRow(position)];
      forall i | 0 <= i < |replaced| && replaced[i].BatchRow?
        ensures replaced[i].first == replaced[i].entry.batch.First()
        ensures replaced[i].last == replaced[i].entry.batch.Last()
      {
        assert replaced[i] in WithoutSnapshot(table);
      }
    }
  }

  lemma {:induction false} LookupIsStored(table: seq<Row>, id: BatchId)
    ensures Lookup(table, id).Some? <==> Stored(Chain(table), id)
    ensures Lookup(table, id).Some? ==> Holds(Chain(table), Lookup(table, id).value) && Lookup(table, id).value.id == id
    decreases |table|
  {
    if table != [] {
      var rest, row := table[..|table| - 1], table[|table| - 1];
      LookupIsStored(rest, id);
      var chain := Chain(table);
      if row.BatchRow? {
        assert chain[|chain| - 1] == row.entry;
        assert forall i :: 0 <= i < |chain| - 1 ==> chain[i] == Chain(rest)[i];
        assert Stored(Chain(rest), id) ==> Stored(chain, id);
        if Holds(Chain(rest), Lookup(table, id).GetOr(row.entry.batch)) {
          assert Holds(chain, Lookup(table, id).GetOr(row.entry.batch));
        }
      } else {
        assert chain == Chain(rest);
      }
    }
  }

  /** A stored batch is found whole: identities are distinct. */
  lemma LookupFindsTheBatch(table: seq<Row>, batch: Batch)
    requires DistinctIds(Chain(table)) && Holds(Chain(table), batch)
    ensures Lookup(table, batch.id) == Some(batch)
  {
    var chain := Chain(table);
    var i :| 0 <= i < |chain| && chain[i].batch == batch;
    assert chain[i].batch.id == batch.id;
    LookupIsStored(table, batch.id);
    var found := Lookup(table, batch.id).value;
    var j :| 0 <= j < |chain| && chain[j].batch == found;
    assert i == j;
  }

  /** The newest position, read past the snapshot row, is the chain's end. */
  lemma {:induction false} MaxLastIsTheEnd(table: seq<Row>)
    requires RangesMatch(table) && GapFree(Chain(table))
    ensures MaxLast(table) == if Chain(table) == [] then None else Some(LastPosition(Chain(table)))
    decreases |table|
  {
    if table != [] {
      var rest, row := table[..|table| - 1], table[|table| - 1];
      var chain := Chain(table);
      assert Chain(rest) == chain[..|Chain(rest)|];
      PrefixIsGapFree(chain, |Chain(rest)|);
      MaxLastIsTheEnd(rest);
      if row.BatchRow? && Chain(rest) != [] {
        LastPositionGrows(chain, |chain| - 1, |chain|);
        assert chain[..|chain|] == chain && chain[..|chain| - 1] == Chain(rest);
      }
    }
  }

  lemma PrefixIsGapFree(chain: seq<Entry>, n: nat)
    requires GapFree(chain) && n <= |chain|
    ensures GapFree(chain[..n])
  {
    forall i | 0 <= i < n
      ensures chain[..n][i].batch.prev == LastPosition(chain[..n][..i])
    {
      assert chain[..n][..i] == chain[..i];
    }
  }

  /** The rows a tail read selects are the chain's tail. */
  lemma {:induction false} TailRowsAreTheTail(table: seq<Row>, position: nat)
    requires RangesMatch(table)
    ensures |TailRows(table, position)| == |Tail(Chain(table), position)|
    ensures forall i :: 0 <= i < |TailRows(table, position)| ==>
      TailRows(table, position)[i].entry.batch == Tail(Chain(table), position)[i]
    decreases |table|
  {
    if table != [] {
      var rest, row := table[..|table| - 1], table[|table| - 1];
      TailRowsAreTheTail(rest, position);
      if row.BatchRow? {
        var chain := Chain(table);
        assert chain[..|chain| - 1] == Chain(rest);
      } else {
        assert Chain(table) == Chain(rest);
        assert TailRows(table, position) == TailRows(rest, position);
      }
    }
  }

  // The server's own moves.

  lemma CommittedIsExtended(d: Db, entry: Entry)
    requires RangesMatch(d.table)
    ensures RangesMatch(Committed(d, entry).table)
    ensures Chain(Committed(d, entry).table) == Chain(d.table) + [entry]
  {
    ChainPush(d.table, BatchRow(entry.batch.First(), entry.batch.Last(), entry));
  }

  lemma LandingKeepsSound(d: Db, c: nat, commit: bool)
    requires Sound(d) && c in d.conns && d.conns[c].tx.Sent?
    ensures Sound(After(d, Resolve(c, commit)))
    ensures LogOf(After(d, Resolve(c, commit))) == Settled(LogOf(d), commit)
  {
    hide GapFree, DistinctIds, RangesMatch, Chain, ExecAll;
    var d' := After(d, Resolve(c, commit));
    assert TxFits(d, c);
    var entry := d.conns[c].tx.entry;
    CommittedIsExtended(d, entry);
    ExtendedIsGood(LogOf(d), entry);
    forall k | k in d'.conns
      ensures TxFits(d', k)
    {
      assert TxFits(d, k);
    }
  }

  lemma SnapshotKeepsSound(d: Db, c: nat, commit: bool)
    requires Sound(d) && c in d.conns && d.conns[c].tx.SentSnapshot?
    ensures Sound(After(d, Resolve(c, commit)))
    ensures LogOf(After(d, Resolve(c, commit))) == Settled(LogOf(d), commit)
  {
    hide GapFree, DistinctIds, RangesMatch, Chain, ExecAll;
    var d' := After(d, Resolve(c, commit));
    assert TxFits(d, c);
    ReplacedSnapshotLeavesTheChain(d.table, d.conns[c].tx.position);
    forall k | k in d'.conns
      ensures TxFits(d', k)
    {
      assert TxFits(d, k);
    }
  }

  lemma ResolveKeepsSound(d: Db, c: nat, commit: bool)
    requires Sound(d) && c in d.conns && (d.conns[c].tx.Sent? || d.conns[c].tx.SentSnapshot?)
    ensures Sound(After(d, Resolve(c, commit)))
    ensures LogOf(After(d, Resolve(c, commit))) == Settled(LogOf(d), commit)
  {
    hide Sound, LogOf, After;
    if d.conns[c].tx.Sent? {
      LandingKeepsSound(d, c, commit);
    } else {
      SnapshotKeepsSound(d, c, commit);
    }
  }

  lemma OtherMovesKeepSound(d: Db, move: Move)
    requires Sound(d)
    requires move.conn in d.conns && move.Resolve? ==> !d.conns[move.conn].tx.Sent? && !d.conns[move.conn].tx.SentSnapshot?
    ensures Sound(After(d, move))
    ensures LogOf(After(d, move)) == LogOf(d)
  {
    var d' := After(d, move);
    assert d'.table == d.table && d'.rows == d.rows;
    if move.conn in d.conns {
      assert TxFits(d, move.conn);
      forall k | k in d'.conns
        ensures k in d.conns && TxFits(d', k)
      {
        assert TxFits(d, k);
      }
    }
  }

  /** **Whatever the server does on its own, the log only drifts.** */
  lemma {:induction false} PlayDrifts(d: Db, moves: seq<Move>)
    requires Sound(d)
    ensures Sound(Play(d, moves)) && Drifts(LogOf(d), LogOf(Play(d, moves)))
    ensures d.next == Play(d, moves).next
    decreases |moves|
  {
    if moves != [] {
      var move := moves[0];
      if move.Resolve? && move.conn in d.conns
         && (d.conns[move.conn].tx.Sent? || d.conns[move.conn].tx.SentSnapshot?) {
        ResolveKeepsSound(d, move.conn, move.commit);
      } else {
        OtherMovesKeepSound(d, move);
      }
      PlayDrifts(After(d, move), moves[1..]);
    }
  }

  /** With nothing in flight the server's own moves change no row. */
  lemma {:induction false} SteadyStays(d: Db, moves: seq<Move>, c: nat, tx: Tx)
    requires Sound(d) && Steady(d, c, tx)
    ensures Steady(Play(d, moves), c, tx)
    ensures Play(d, moves).table == d.table && Play(d, moves).rows == d.rows
    ensures Live(Play(d, moves), c) ==> Live(d, c)
    decreases |moves|
  {
    if moves != [] {
      OtherMovesKeepSound(d, moves[0]);
      SteadyStays(After(d, moves[0]), moves[1..], c, tx);
    }
  }

  lemma SoundRanges(d: Db)
    requires Sound(d)
    ensures RangesMatch(d.table)
  {
  }

  lemma RestingHasNoPending(d: Db)
    requires Resting(d)
    ensures LogOf(d).pending.None?
  {
  }
}
