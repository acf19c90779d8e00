/**
 The fenced log client. One session holds the named lock; a session that is not
 certain of its last statement must win the lock back before it reads or writes.
 */
module DoltLog {
  import opened Wrappers
  import opened TeachingEvents
  import opened EventLog
  import opened Server
  import opened Network
  import opened Reconcile

  class DoltLog {
    const server: Remote
    var connection: nat
    var id: nat
    var uncertain: bool

    /** A certain session has nothing in flight, and owns the lock while it lives. */
    ghost predicate Valid()
      reads this, server
    {
      && Sound(server.db)
      && connection == id && connection < server.db.next
      && (!uncertain ==> Steady(server.db, connection, Idle))
    }

    ghost function Log(): EventLog.Log
      reads server
    {
      LogOf(server.db)
    }

    constructor (server: Remote, connection: nat, id: nat)
      requires Sound(server.db) && connection == id && connection < server.db.next && Steady(server.db, connection, Idle)
      ensures Valid() && this.server == server && !uncertain
    {
      this.server := server;
      this.connection := connection;
      this.id := id;
      uncertain := false;
    }

    /** Open the log: nothing of an earlier process can land after this succeeds. */
    static method Open(server: Remote) returns (log: Result<DoltLog, LogError>)
      requires Sound(server.db)
      modifies server`db, server`faults
      ensures Sound(server.db) && FenceStep(old(LogOf(server.db)), log.Ok?, LogOf(server.db))
      ensures log.Ok? ==> fresh(log.value) && log.value.Valid() && log.value.server == server && !log.value.uncertain
      ensures if log.Ok? then LogOf(server.db).pending.None? else !log.error.Conflict?
      ensures server.db.next >= old(server.db.next) && server.faults >= old(server.faults)
      ensures log.Err? ==> server.faults > old(server.faults)
    {
      var taken := Take(server);
      if taken.Err? {
        return Err(taken.error);
      }
      RestingHasNoPending(server.db);
      var session := new DoltLog(server, taken.value.0, taken.value.1);
      log := Ok(session);
    }

    static method Take(server: Remote) returns (taken: Result<(nat, nat), LogError>)
      requires Sound(server.db)
      modifies server`db, server`faults
      ensures Sound(server.db) && FenceStep(old(LogOf(server.db)), taken.Ok?, LogOf(server.db))
      ensures taken.Ok? ==> taken.value.0 == taken.value.1 && Steady(server.db, taken.value.0, Idle)
      ensures taken != Err(LogError.Conflict)
      ensures server.db.next >= old(server.db.next) && server.faults >= old(server.faults)
      ensures taken.Err? ==> server.faults > old(server.faults)
      ensures forall c :: old(Dead(server.db, c)) ==> Dead(server.db, c)
      ensures taken.Ok? ==> taken.value.0 < server.db.next
    {
      var connection := server.Connect();
      if connection.None? {
        return Err(LogError.Indeterminate);
      }
      var held := server.GetLock(connection.value);
      if !held {
        return Err(LogError.Indeterminate);
      }
      RestingHasNoPending(server.db);
      var id := server.ConnectionId(connection.value);
      if id.None? {
        return Err(LogError.Store);
      }
      taken := Ok((connection.value, id.value));
    }

    method Fence(kill: bool) returns (r: Result<(), LogError>)
      requires Valid() && uncertain
      modifies this, server`db, server`faults
      ensures Valid() && FenceStep(old(Log()), r.Ok?, Log())
      ensures r.Ok? ==> !uncertain && Log().pending.None?
      ensures r.Err? ==> uncertain && !r.error.Conflict?
      ensures server.db.next >= old(server.db.next) && server.faults >= old(server.faults)
      ensures r.Err? ==> server.faults > old(server.faults)
      ensures r.Ok? && kill ==> Dead(server.db, old(id))
    {
      if kill {
        var control := server.Connect();
        if control.None? {
          return Err(LogError.Indeterminate);
        }
        var killed := server.Kill(id);
        if killed == KillUnknown {
          return Err(LogError.Indeterminate);
        }
      }
      var taken := Take(server);
      if taken.Err? {
        return Err(LogError.Indeterminate);
      }
      connection := taken.value.0;
      id := taken.value.1;
      uncertain := false;
      RestingHasNoPending(server.db);
      r := Ok(());
    }

    /** Past `Ready`, no transaction of the old session can still commit. */
    method Ready() returns (r: Result<(), LogError>)
      requires Valid()
      modifies this, server`db, server`faults
      ensures Valid() && FenceStep(old(Log()), r.Ok?, Log())
      ensures r.Ok? ==> !uncertain && Log().pending.None?
      ensures r.Err? ==> old(uncertain) && uncertain && !r.error.Conflict?
      ensures !old(uncertain) ==> r.Ok? && Log() == old(Log())
      ensures server.db.next >= old(server.db.next) && server.faults >= old(server.faults)
      ensures r.Err? ==> server.faults > old(server.faults)
      ensures r.Ok? && old(uncertain) ==> Dead(server.db, old(id))
    {
      if uncertain {
        var fenced := Fence(true);
        if fenced.Err? {
          return fenced;
        }
      } else {
        RestingHasNoPending(server.db);
      }
      r := Ok(());
    }

    /** Append one batch and its companions as one transaction. */
    method AppendOwned(head: nat, batch: Batch, companions: seq<Statement>) returns (reply: AppendReply, ghost ready: bool)
      requires Valid()
      modifies this, server
      ensures Valid() && AppendStep(old(Log()), head, Entry(batch, companions), ready, reply, Log())
      ensures reply.Ok? && !reply.value.Indeterminate? ==> !uncertain
      ensures ready && head != batch.prev ==> reply == Err(LogError.Conflict) && !uncertain
      ensures (forall landed :: NoClash(Settled(old(Log()), landed).rows, companions)) ==>
        server.clashes == old(server.clashes)
      ensures server.db.next >= old(server.db.next) && server.faults >= old(server.faults)
      ensures (reply.Ok? && reply.value.Committed?) || reply == Err(LogError.Conflict) || server.faults > old(server.faults)
      ensures reply.Err? ==> (uncertain <==> reply.error.Store?)
      ensures reply == Ok(Append.Indeterminate) ==> uncertain
    {
      ghost var start := Log();
      var passed := Ready();
      ready := passed.Ok?;
      if passed.Err? {
        return Ok(Append.Indeterminate), ready;
      }
      ghost var settled := Log();
      ghost var landed := settled == Settled(start, true);
      assert settled == Settled(start, landed);
      var refused := Admit(head, batch, companions);
      if refused.Some? {
        return refused.value, ready;
      }
      reply := WriteBatch(head, batch, companions);
    }

    /** The admission reads: refuse, answer a batch stored before, or admit. */
    method Admit(head: nat, batch: Batch, ghost companions: seq<Statement>) returns (refused: Option<AppendReply>)
      requires Valid() && !uncertain
      modifies this, server`db, server`faults
      ensures Valid() && Log() == old(Log()) && old(Log()).pending.None?
      ensures refused.Some? ==> AppendFrom(old(Log()), head, Entry(batch, companions), refused.value, Log())
      ensures refused.Some? && refused.value.Ok? ==> !uncertain && refused.value.value.Committed?
      ensures head != batch.prev ==> refused == Some(Err(LogError.Conflict)) && !uncertain
      ensures refused.None? ==>
        uncertain && Steady(server.db, connection, Idle)
        && head == batch.prev && Extends(Log().chain, Entry(batch, companions))
      ensures server.db.next >= old(server.db.next) && server.faults >= old(server.faults)
      ensures refused == Some(Err(LogError.Store)) ==> uncertain && server.faults > old(server.faults)
      ensures refused == Some(Err(LogError.Conflict)) ==> !uncertain
    {
      RestingHasNoPending(server.db);
      if head != batch.prev {
        return Some(Err(LogError.Conflict));
      }
      // From here on a missing reply says nothing of the connection: only an answer makes it certain.
      uncertain := true;
      var stored := server.SelectSlot(connection, batch.id);
      if stored.None? {
        return Some(Err(LogError.Store));
      }
      LookupIsStored(server.db.table, batch.id);
      if stored.value.Some? {
        uncertain := false;
        if stored.value.value == batch {
          return Some(Ok(EventLog.Committed(RangeOf(batch))));
        }
        if Holds(Log().chain, batch) {
          LookupFindsTheBatch(server.db.table, batch);
        }
        return Some(Err(LogError.Conflict));
      }
      var last := server.SelectMaxLast(connection);
      if last.None? {
        return Some(Err(LogError.Store));
      }
      MaxLastIsTheEnd(server.db.table);
      if head != last.value.GetOr(0) {
        uncertain := false;
        return Some(Err(LogError.Conflict));
      }
      refused := None;
    }

    /** The transaction: the batch, its companions, and the commit. */
    method WriteBatch(head: nat, batch: Batch, companions: seq<Statement>) returns (reply: AppendReply)
      requires Valid() && uncertain && Steady(server.db, connection, Idle)
      requires head == batch.prev && Extends(Log().chain, Entry(batch, companions))
      modifies this, server
      ensures Valid() && old(Log()).pending.None?
      ensures AppendFrom(old(Log()), head, Entry(batch, companions), reply, Log())
      ensures reply.Ok? && !reply.value.Indeterminate? ==> !uncertain
      ensures NoClash(old(Log()).rows, companions) ==> server.clashes == old(server.clashes)
      ensures server.db.next >= old(server.db.next) && server.faults >= old(server.faults)
      ensures (reply.Ok? && reply.value.Committed?) || server.faults > old(server.faults)
      ensures reply.Ok? && (reply.value.Indeterminate? ==> uncertain)
    {
      hide Sound, RangesMatch, TxFits, Resting, NoClash, ExecAll, Chain;
      RestingHasNoPending(server.db);
      // Every early return below leaves the session uncertain, so the next call has to fence it.
      var begun := server.BeginWith(connection, batch);
      if !begun {
        return Ok(Append.Indeterminate);
      }
      for i := 0 to |companions|
        invariant Valid() && uncertain && Log() == old(Log())
        invariant server.db.next >= old(server.db.next) && server.faults >= old(server.faults)
        invariant Steady(server.db, connection, Server.Open(Some(batch), companions[..i]))
        invariant NoClash(old(Log()).rows, companions) ==> server.clashes == old(server.clashes)
      {
        assert companions[..i] + [companions[i]] == companions[..i + 1];
        PrefixDoesNotClash(server.db.rows, companions, i + 1);
        var executed := server.Execute(connection, companions[i], batch, companions[..i]);
        if executed == Unanswered {
          return Ok(Append.Indeterminate);
        }
        if executed == Refused {
          // A refused statement left the transaction open and unsent: rolling it back settles the log.
          var rolledBack := server.Rollback(connection, Server.Open(Some(batch), companions[..i]));
          if rolledBack {
            uncertain := false;
            return Ok(DefinitelyNotCommitted);
          }
          return Ok(Append.Indeterminate);
        }
      }
      assert companions[..|companions|] == companions;
      var acknowledged := server.Commit(connection, batch, companions);
      if !acknowledged {
        return Ok(Append.Indeterminate);
      }
      uncertain := false;
      reply := Ok(EventLog.Committed(RangeOf(batch)));
    }

    method ReadFrom(position: nat, bound: nat) returns (reply: ReadReply, ghost ready: bool)
      requires Valid()
      modifies this, server`db, server`faults
      ensures Valid() && ReadStep(old(Log()), position, bound, ready, reply, Log())
      ensures if reply.Ok? then !uncertain && Log().pending.None? else !reply.error.Conflict?
      ensures !old(uncertain) ==> !uncertain && Log() == old(Log())
      ensures server.db.next >= old(server.db.next) && server.faults >= old(server.faults)
      ensures reply.Err? ==> server.faults > old(server.faults)
    {
      hide Sound, RangesMatch, TailRows, Tail, Resting;
      var passed := Ready();
      ready := passed.Ok?;
      if passed.Err? {
        return Err(passed.error), ready;
      }
      RestingHasNoPending(server.db);
      var reader := server.SelectTail(position, bound);
      if reader.None? {
        return Err(LogError.Store), ready;
      }
      SoundRanges(server.db);
      TailRowsAreTheTail(server.db.table, position);
      var rows := reader.value;
      var batches: seq<Batch> := [];
      for k := 0 to |rows|
        invariant |batches| == k
        invariant forall i :: 0 <= i < k ==> rows[i].BatchRow? && batches[i] == rows[i].entry.batch
      {
        assert rows[k] in server.db.table;
        var batch := rows[k].entry.batch;
        if batch.First() != rows[k].first || batch.Last() != rows[k].last {
          return Err(LogError.Store), ready;
        }
        batches := batches + [batch];
      }
      assert batches == EventLog.Take(Tail(Log().chain, position), bound);
      RestingHasNoPending(server.db);
      reply := Ok(batches);
    }

    /** The teaching rows as a boot reads them, over a connection of the pool. */
    method SelectMarks() returns (marks: Result<seq<Mark>, LogError>)
      requires Valid() && !uncertain
      modifies server`db, server`faults
      ensures Valid() && Log() == old(Log()) && Log().pending.None?
      ensures marks.Ok? ==> PairsOf(marks.value) == Log().rows && DistinctMarks(marks.value)
      ensures server.db.next >= old(server.db.next) && server.faults >= old(server.faults)
      ensures marks.Err? ==> server.faults > old(server.faults)
    {
      RestingHasNoPending(server.db);
      var selected := server.SelectMarks();
      marks := if selected.Some? then Ok(selected.value) else Err(LogError.Store);
    }

    method StoreSnapshot(position: nat) returns (r: Result<(), LogError>, ghost ready: bool)
      requires Valid()
      modifies this, server`db, server`faults
      ensures Valid() && FenceStep(old(Log()), ready, Log())
      ensures r.Ok? ==> ready && !uncertain
      ensures server.db.next >= old(server.db.next) && server.faults >= old(server.faults)
      ensures r.Err? ==> server.faults > old(server.faults)
    {
      var passed := Ready();
      ready := passed.Ok?;
      if passed.Err? {
        return passed, ready;
      }
      uncertain := true;
      var stored := server.ReplaceSnapshot(connection, position);
      if !stored {
        return Err(LogError.Indeterminate), ready;
      }
      uncertain := false;
      r := Ok(());
    }
  }

  lemma PrefixDoesNotClash(rows: set<Pair>, statements: seq<Statement>, n: nat)
    requires n <= |statements|
    ensures NoClash(rows, statements) ==> NoClash(rows, statements[..n])
  {
    assert forall i :: 0 <= i < n ==> statements[..n][..i] == statements[..i];
  }
}
