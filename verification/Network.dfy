/**
 The server reached over connections that can die at any time. Before each
 request the server runs on its own for a while; a request may not arrive, and
 the reply to one that did may be lost.
 */
module Network {
  import opened Wrappers
  import opened TeachingEvents
  import opened EventLog
  import opened Reconcile
  import opened Server

  /** What a caller learns from `KILL CONNECTION`. */
  datatype Killed = Killed | Gone | KillUnknown

  /** What a caller learns from a statement inside a transaction. */
  datatype Executed = Done | Refused | Unanswered

  /** No insert among these meets a row that is already there. */
  ghost predicate NoClash(rows: set<Pair>, statements: seq<Statement>) {
    forall i :: 0 <= i < |statements| && statements[i].InsertRow? ==>
      statements[i].pair !in ExecAll(rows, statements[..i])
  }

  /** A connection of an earlier day that runs nothing more: gone, or doomed to go. */
  predicate Dead(d: Db, c: nat) {
    c < d.next && (c in d.conns ==> d.conns[c].doomed)
  }

  lemma {:induction false} TheDeadStayDead(d: Db, moves: seq<Move>, c: nat)
    requires Dead(d, c)
    ensures Dead(Play(d, moves), c)
    decreases |moves|
  {
    if moves != [] {
      TheDeadStayDead(After(d, moves[0]), moves[1..], c);
    }
  }

  class Remote {
    var db: Db
    /** How many inserts the server refused because the row was there. */
    ghost var clashes: nat
    /** How many requests got no answer, or were refused. */
    ghost var faults: nat

    constructor (db: Db)
      requires Sound(db)
      ensures this.db == db
    {
      this.db := db;
      clashes, faults := 0, 0;
    }

    /** Time passes, and the server makes moves of its own. */
    method Drift()
      requires Sound(db)
      modifies `db
      ensures Sound(db) && Drifts(old(LogOf(db)), LogOf(db)) && db.next == old(db.next)
      ensures forall c, tx {:trigger Steady(db, c, tx)} {:trigger Steady(old(db), c, tx)} :: old(Steady(db, c, tx)) ==>
        Steady(db, c, tx) && LogOf(db) == old(LogOf(db)) && db.table == old(db.table)
        && (Live(db, c) ==> old(Live(db, c)))
      ensures forall c :: old(Dead(db, c)) ==> Dead(db, c)
    {
      var moves: seq<Move> := *;
      PlayDrifts(db, moves);
      forall c, tx | Steady(db, c, tx)
        ensures Steady(Play(db, moves), c, tx) && LogOf(Play(db, moves)) == LogOf(db)
        ensures Play(db, moves).table == db.table
        ensures Live(Play(db, moves), c) ==> Live(db, c)
      {
        SteadyStays(db, moves, c, tx);
        RestingHasNoPending(db);
        RestingHasNoPending(Play(db, moves));
      }
      forall c | Dead(db, c)
        ensures Dead(Play(db, moves), c)
      {
        TheDeadStayDead(db, moves, c);
      }
      db := Play(db, moves);
    }

    /** Open a connection. One that opened after its caller gave up stays behind. */
    method Connect() returns (c: Option<nat>)
      requires Sound(db)
      modifies `db, `faults
      ensures db.next >= old(db.next) && faults >= old(faults)
      ensures Sound(db) && Drifts(old(LogOf(db)), LogOf(db))
      ensures c.Some? ==> c.value < db.next && (c.value in db.conns ==> db.conns[c.value].tx.Idle?)
      ensures c.None? ==> faults > old(faults)
      ensures forall d :: old(Dead(db, d)) ==> Dead(db, d)
    {
      Drift();
      if * {
        faults := faults + 1;
        return None;
      }
      var made := db.next;
      var before := db;
      db := before.(conns := before.conns[made := Conn(Idle, false)], next := made + 1);
      assert made !in before.conns;
      forall k | k in db.conns
        ensures k < db.next && TxFits(db, k)
      {
        if k != made {
          assert TxFits(before, k);
        }
      }
      if * {
        faults := faults + 1;
        return None;
      }
      c := Some(made);
    }

    /** Ask for the writer's lock, which is granted only when nobody owned it. */
    method GetLock(c: nat) returns (granted: bool)
      requires Sound(db)
      modifies `db, `faults
      ensures db.next >= old(db.next) && faults >= old(faults)
      ensures Sound(db) && Drifts(old(LogOf(db)), LogOf(db))
      ensures granted ==> Steady(db, c, Idle)
      ensures !granted ==> faults > old(faults)
      ensures forall d :: old(Dead(db, d)) ==> Dead(db, d)
    {
      Drift();
      if !Live(db, c) || db.lock.Some? {
        faults := faults + 1;
        return false;
      }
      assert forall k :: k in db.conns ==> TxFits(db, k) && db.conns[k].tx.Idle?;
      db := db.(lock := Some(c));
      assert forall k :: k in db.conns ==> TxFits(db, k);
      if * {
        faults := faults + 1;
        return false;
      }
      granted := true;
    }

    /** The server's own number of this connection. */
    method ConnectionId(c: nat) returns (id: Option<nat>)
      requires Sound(db)
      modifies `db, `faults
      ensures db.next >= old(db.next) && faults >= old(faults)
      ensures Sound(db) && Drifts(old(LogOf(db)), LogOf(db))
      ensures old(Steady(db, c, Idle)) ==> Steady(db, c, Idle) && LogOf(db) == old(LogOf(db))
      ensures id.Some? ==> id.value == c
      ensures id.None? ==> faults > old(faults)
      ensures forall d :: old(Dead(db, d)) ==> Dead(db, d)
    {
      Drift();
      if !Live(db, c) {
        faults := faults + 1;
        return None;
      }
      if * {
        faults := faults + 1;
        return None;
      }
      id := Some(c);
    }

    /** Ask the server to kill another connection. Its reply says nothing about the transaction. */
    method Kill(target: nat) returns (k: Killed)
      requires Sound(db)
      modifies `db, `faults
      ensures db.next >= old(db.next) && faults >= old(faults)
      ensures Sound(db) && Drifts(old(LogOf(db)), LogOf(db))
      ensures !k.KillUnknown? && target < old(db.next) ==> Dead(db, target)
      ensures k.KillUnknown? ==> faults > old(faults)
      ensures forall d :: old(Dead(db, d)) ==> Dead(db, d)
    {
      Drift();
      if target !in db.conns {
        return Gone;
      }
      if * {
        faults := faults + 1;
        return KillUnknown;
      }
      OtherMovesKeepSound(db, Doom(target));
      db := After(db, Doom(target));
      if * {
        faults := faults + 1;
        return KillUnknown;
      }
      k := Killed.Killed;
    }

    method SelectSlot(c: nat, id: BatchId) returns (r: Option<Option<Batch>>)
      requires Sound(db) && Steady(db, c, Idle)
      modifies `db, `faults
      ensures db.next >= old(db.next) && faults >= old(faults)
      ensures Sound(db) && Steady(db, c, Idle) && LogOf(db) == old(LogOf(db))
      ensures r.Some? ==> r.value == Lookup(db.table, id)
      ensures r.None? ==> faults > old(faults)
    {
      Drift();
      if !Live(db, c) {
        faults := faults + 1;
        return None;
      }
      if * {
        faults := faults + 1;
        return None;
      }
      r := Some(Lookup(db.table, id));
    }

    method SelectMaxLast(c: nat) returns (r: Option<Option<nat>>)
      requires Sound(db) && Steady(db, c, Idle)
      modifies `db, `faults
      ensures db.next >= old(db.next) && faults >= old(faults)
      ensures Sound(db) && Steady(db, c, Idle) && LogOf(db) == old(LogOf(db))
      ensures r.Some? ==> r.value == MaxLast(db.table)
      ensures r.None? ==> faults > old(faults)
    {
      Drift();
      if !Live(db, c) {
        faults := faults + 1;
        return None;
      }
      if * {
        faults := faults + 1;
        return None;
      }
      r := Some(MaxLast(db.table));
    }

    /** Begin a transaction and insert the batch's own row. */
    method BeginWith(c: nat, batch: Batch) returns (ok: bool)
      requires Sound(db) && Steady(db, c, Idle) && Extends(Chain(db.table), Entry(batch, []))
      modifies `db, `faults
      ensures db.next >= old(db.next) && faults >= old(faults)
      ensures Sound(db) && LogOf(db) == old(LogOf(db))
      ensures if ok then Steady(db, c, Open(Some(batch), [])) else Resting(db)
      ensures !ok ==> faults > old(faults)
    {
      Drift();
      RestingHasNoPending(db);
      if !Live(db, c) {
        faults := faults + 1;
        return false;
      }
      if * {
        faults := faults + 1;
        return false;
      }
      var staged: bool := *;
      var tx := Open(if staged then Some(batch) else None, []);
      SetOpen(db, c, tx);
      db := SetConn(db, c, Conn(tx, false));
      if * {
        faults := faults + 1;
        return false;
      }
      ok := staged;
      faults := faults + if ok then 0 else 1;
    }

    /** One companion statement inside the open transaction. */
    method Execute(c: nat, statement: Statement, ghost batch: Batch, ghost ran: seq<Statement>) returns (r: Executed)
      requires Sound(db) && Steady(db, c, Open(Some(batch), ran))
      requires Extends(Chain(db.table), Entry(batch, []))
      modifies `db, `clashes, `faults
      ensures db.next >= old(db.next) && faults >= old(faults)
      ensures Sound(db) && LogOf(db) == old(LogOf(db)) && Resting(db)
      ensures r == Done ==> Steady(db, c, Open(Some(batch), ran + [statement]))
      ensures r == Refused ==> Steady(db, c, Open(Some(batch), ran))
      ensures NoClash(old(db.rows), ran + [statement]) ==> clashes == old(clashes)
      ensures r != Done ==> faults > old(faults)
    {
      Drift();
      RestingHasNoPending(db);
      if !Live(db, c) {
        faults := faults + 1;
        return Unanswered;
      }
      if * {
        faults := faults + 1;
        return Unanswered;
      }
      var done := db.conns[c].tx.ran;
      if statement.InsertRow? && statement.pair in ExecAll(db.rows, done) {
        assert (ran + [statement])[|ran|] == statement && (ran + [statement])[..|ran|] == ran;
        clashes := clashes + 1;
        faults := faults + 1;
        return Refused;
      }
      if * {
        faults := faults + 1;
        return Refused;
      }
      var tx := Open(db.conns[c].tx.batch, done + [statement]);
      SetOpen(db, c, tx);
      db := SetConn(db, c, Conn(tx, false));
      if * {
        faults := faults + 1;
        return Unanswered;
      }
      r := Done;
    }

    method Rollback(c: nat, ghost tx: Tx) returns (ok: bool)
      requires Sound(db) && Steady(db, c, tx)
      modifies `db, `faults
      ensures db.next >= old(db.next) && faults >= old(faults)
      ensures Sound(db) && LogOf(db) == old(LogOf(db))
      ensures if ok then Steady(db, c, Idle) else Resting(db)
      ensures !ok ==> faults > old(faults)
    {
      Drift();
      RestingHasNoPending(db);
      if !Live(db, c) {
        faults := faults + 1;
        return false;
      }
      if * {
        faults := faults + 1;
        return false;
      }
      SetOpen(db, c, Idle);
      db := SetConn(db, c, Conn(Idle, false));
      if * {
        faults := faults + 1;
        return false;
      }
      ok := true;
    }

    /** Commit. Without a reply the batch has landed, will land, or never will. */
    method Commit(c: nat, ghost batch: Batch, ghost ran: seq<Statement>) returns (ok: bool)
      requires Sound(db) && Steady(db, c, Open(Some(batch), ran))
      requires Extends(Chain(db.table), Entry(batch, ran))
      modifies `db, `faults
      ensures db.next >= old(db.next) && faults >= old(faults)
      ensures Sound(db)
      ensures
        var was := old(LogOf(db));
        || LogOf(db) == was
        || LogOf(db) == Extended(was, Entry(batch, ran))
        || LogOf(db) == was.(pending := Some(Entry(batch, ran)))
      ensures ok ==> Steady(db, c, Idle) && LogOf(db) == Extended(old(LogOf(db)), Entry(batch, ran))
      ensures !ok ==> faults > old(faults)
    {
      Drift();
      RestingHasNoPending(db);
      if !Live(db, c) {
        faults := faults + 1;
        return false;
      }
      if * {
        faults := faults + 1;
        return false;
      }
      var entry := Entry(db.conns[c].tx.batch.value, db.conns[c].tx.ran);
      ghost var before := db;
      db := SetConn(db, c, Conn(Sent(entry), false));
      SendKeeps(before, c, Sent(entry));
      Drift();
      if c !in db.conns || !db.conns[c].tx.Sent? {
        faults := faults + 1;
        return false;
      }
      if * {
        faults := faults + 1;
        return false;
      }
      ghost var sent := db;
      assert TxFits(db, c);
      ResolveKeepsSound(db, c, true);
      db := After(db, Resolve(c, true));
      LandingLeavesNothing(sent, c);
      ok := true;
    }

    /** Put a snapshot row in the place of the last one; this commits by itself. */
    method ReplaceSnapshot(c: nat, position: nat) returns (ok: bool)
      requires Sound(db) && Steady(db, c, Idle)
      modifies `db, `faults
      ensures db.next >= old(db.next) && faults >= old(faults)
      ensures Sound(db) && LogOf(db) == old(LogOf(db))
      ensures ok ==> Steady(db, c, Idle)
      ensures !ok ==> faults > old(faults)
    {
      Drift();
      RestingHasNoPending(db);
      if !Live(db, c) {
        faults := faults + 1;
        return false;
      }
      if * {
        faults := faults + 1;
        return false;
      }
      ghost var before := db;
      db := SetConn(db, c, Conn(SentSnapshot(position), false));
      SendKeeps(before, c, SentSnapshot(position));
      Drift();
      if c !in db.conns || !db.conns[c].tx.SentSnapshot? {
        faults := faults + 1;
        return false;
      }
      if * {
        faults := faults + 1;
        return false;
      }
      ghost var sent := db;
      assert TxFits(db, c);
      ResolveKeepsSound(db, c, true);
      db := After(db, Resolve(c, true));
      LandingLeavesNothing(sent, c);
      ok := true;
    }

    /** The tail select, over a connection of its own. */
    method SelectTail(position: nat, bound: nat) returns (r: Option<seq<Row>>)
      requires Sound(db)
      modifies `db, `faults
      ensures db.next >= old(db.next) && faults >= old(faults)
      ensures Sound(db) && Drifts(old(LogOf(db)), LogOf(db))
      ensures forall c :: old(Steady(db, c, Idle)) ==> Steady(db, c, Idle) && LogOf(db) == old(LogOf(db))
      ensures r.Some? ==> r.value == Take(TailRows(db.table, position), bound)
      ensures r.None? ==> faults > old(faults)
    {
      Drift();
      if * {
        faults := faults + 1;
        return None;
      }
      r := Some(Take(TailRows(db.table, position), bound));
    }

    /** The teaching rows, each pair once: the table's key is the pair. */
    method SelectMarks() returns (r: Option<seq<Mark>>)
      requires Sound(db)
      modifies `db, `faults
      ensures db.next >= old(db.next) && faults >= old(faults)
      ensures Sound(db) && Drifts(old(LogOf(db)), LogOf(db))
      ensures forall c :: old(Steady(db, c, Idle)) ==> Steady(db, c, Idle) && LogOf(db) == old(LogOf(db))
      ensures r.Some? ==> PairsOf(r.value) == db.rows && DistinctMarks(r.value)
      ensures r.None? ==> faults > old(faults)
    {
      Drift();
      if * {
        faults := faults + 1;
        return None;
      }
      var marks: seq<Mark> := [];
      var todo := db.rows;
      while todo != {}
        invariant todo <= db.rows
        invariant PairsOf(marks) == db.rows - todo
        invariant DistinctMarks(marks)
      {
        var pair :| pair in todo;
        var at: int := *;
        assert PairsOf(marks + [Mark(pair, at)]) == PairsOf(marks) + {pair};
        assert forall i :: 0 <= i < |marks| ==> marks[i] in marks && marks[i].pair in PairsOf(marks);
        marks := marks + [Mark(pair, at)];
        todo := todo - {pair};
      }
      r := Some(marks);
    }
  }

  /** Opening, growing or dropping the owner's transaction moves no row. */
  lemma SetOpen(d: Db, c: nat, tx: Tx)
    requires Sound(d) && Resting(d) && Live(d, c) && d.lock == Some(c)
    requires tx.Idle? || (tx.Open? && (tx.batch.Some? ==> Extends(Chain(d.table), Entry(tx.batch.value, tx.ran))))
    ensures
      var d' := SetConn(d, c, Conn(tx, false));
      Sound(d') && Steady(d', c, tx) && LogOf(d') == LogOf(d)
  {
    var d' := SetConn(d, c, Conn(tx, false));
    forall k | k in d'.conns
      ensures TxFits(d', k)
    {
      assert k != c ==> TxFits(d, k);
    }
  }

  lemma SendKeeps(d: Db, c: nat, tx: Tx)
    requires Sound(d) && Resting(d) && Live(d, c) && d.lock == Some(c)
    requires (tx.Sent? && Extends(Chain(d.table), tx.entry)) || tx.SentSnapshot?
    ensures
      var d' := SetConn(d, c, Conn(tx, false));
      Sound(d') && LogOf(d') == LogOf(d).(pending := if tx.Sent? then Some(tx.entry) else None)
  {
    var d' := SetConn(d, c, Conn(tx, false));
    forall k | k in d'.conns
      ensures TxFits(d', k)
    {
      assert k != c ==> TxFits(d, k);
    }
  }

  lemma LandingLeavesNothing(d: Db, c: nat)
    requires Sound(d) && c in d.conns && d.lock == Some(c)
    requires d.conns[c].tx.Sent? || d.conns[c].tx.SentSnapshot?
    ensures Steady(After(d, Resolve(c, true)), c, Idle)
  {
    forall k | k in d.conns && k != c
      ensures d.conns[k].tx.Idle?
    {
      assert TxFits(d, k);
    }
  }
}
