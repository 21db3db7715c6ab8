/** The startup recovery: what it repairs, and that a crash in the middle of it does no harm. */
module Recovery {
  import opened Database
  import opened Interleaving
  import opened Exclusion

  lemma ThreeSteps(db: Db)
    ensures RecoverySteps(db, 1) == FailRunning(db)
    ensures RecoverySteps(db, 2) == DropOrphanLocks(FailRunning(db))
    ensures RecoverBarriers(db) == ExpireStaleEntries(DropOrphanLocks(FailRunning(db)))
  {
    assert RecoverySteps(db, 0) == db;
  }

  lemma FailRunningTwice(db: Db)
    requires forall id :: id in db.executions ==> db.executions[id].status != Running
    ensures FailRunning(db) == db
  {
  }

  lemma DropTwice(db: Db)
    requires forall hook :: hook in db.locks ==>
               !(db.locks[hook] in db.executions && db.executions[db.locks[hook]].status.IsTerminal())
    ensures DropOrphanLocks(db) == db
  {
  }

  lemma ExpireTwice(db: Db)
    ensures ExpireStaleEntries(ExpireStaleEntries(db)) == ExpireStaleEntries(db)
  {
    var once := ExpireStaleEntries(db);
    forall hook | hook in db.queue ensures ExpireStaleRows(db.executions, once.queue[hook]) == once.queue[hook] {
    }
  }

  /** Idempotence on the stored data, also after a recovery that was itself cut short after `n` statements. */
  lemma RecoveryIdempotent(db: Db, n: nat)
    requires n <= 3
    ensures RecoverBarriers(RecoverySteps(db, n)) == RecoverBarriers(db)
  {
    ThreeSteps(db);
    var partial := RecoverySteps(db, n);
    ThreeSteps(partial);
    if n >= 1 {
      FailRunningTwice(partial);
    }
    if n >= 2 {
      DropTwice(partial);
    }
    if n == 3 {
      ExpireTwice(RecoverySteps(db, 2));
    }
  }

  /**
   Afterwards nothing is running, since what ran has failed, and no lock names a terminal execution; no
   execution and no other lock is lost, and nothing else about an execution changes.
   */
  lemma RecoveryRepairs(db: Db)
    ensures var t := RecoverBarriers(db);
      && (forall id :: !HasStatus(t, id, Running))
      && (forall hook :: hook in t.locks ==> !Terminal(t, t.locks[hook]))
      && (forall hook :: hook in db.locks && !Terminal(t, db.locks[hook]) ==> HoldsLock(t, hook, db.locks[hook]))
      && (forall id :: id in db.executions && db.executions[id].status != Running ==>
            id in t.executions && t.executions[id] == db.executions[id])
      && (forall id :: id in db.executions && db.executions[id].status == Running ==>
            id in t.executions && t.executions[id] == db.executions[id].(status := Failed))
      && t.executions.Keys == db.executions.Keys
      && (forall hook :: hook in t.locks ==> hook in db.locks && t.locks[hook] == db.locks[hook])
      && t.queue.Keys == db.queue.Keys
      && (forall hook :: hook in db.queue ==> |t.queue[hook]| == |db.queue[hook]|)
      && (forall hook, i :: hook in db.queue && 0 <= i < |db.queue[hook]| ==>
            t.queue[hook][i] == if Outlived(t, db.queue[hook][i]) then db.queue[hook][i].(status := Stale) else db.queue[hook][i])
  {
    ThreeSteps(db);
  }

  predicate Terminal(db: Db, id: Id) {
    id in db.executions && db.executions[id].status in {Success, Failed, TimedOut, Rejected, Expired}
  }

  /** A row that waits for an execution that was refused or has failed. */
  predicate Outlived(db: Db, row: QueueEntry) {
    && row.status == Waiting && row.execution in db.executions
    && db.executions[row.execution].status in {Rejected, Expired, Failed}
  }

  /** In a reachable world no waiting entry is stale: the third statement finds nothing. */
  lemma RecoveryKeepsQueue(config: Config, w: World)
    requires TablesOk(config, w)
    ensures RecoverBarriers(w.db).queue == w.db.queue
  {
    ThreeSteps(w.db);
    var db := DropOrphanLocks(FailRunning(w.db));
    forall hook | hook in w.db.queue ensures ExpireStaleRows(db.executions, w.db.queue[hook]) == w.db.queue[hook] {
      assert QueueOk(config, w, hook);
      var rows := Rows(w.db, hook);
      forall i | 0 <= i < |rows| ensures ExpireStaleRow(db.executions, rows[i]) == rows[i] {
        assert RowOk(w, hook, rows[i]);
      }
    }
  }

  lemma CrashKeepsExecution(config: Config, w: World, id: Id)
    requires id in w.db.executions && ExecutionOk(config, w, id)
    ensures id in Crash(w).db.executions && ExecutionOk(config, Crash(w), id)
  {
    ThreeSteps(w.db);
  }

  lemma CrashPreserves(config: Config, w: World)
    requires Inv(config, w)
    ensures Inv(config, Crash(w))
  {
    var t := Crash(w);
    ThreeSteps(w.db);
    RecoveryKeepsQueue(config, w);
    assert t.db.executions.Keys == w.db.executions.Keys;
    forall id | id in t.db.executions ensures ExecutionOk(config, t, id) {
      assert ExecutionOk(config, w, id);
      CrashKeepsExecution(config, w, id);
    }
    forall hook | hook in t.db.locks ensures LockOk(config, t, hook) {
      assert LockOk(config, w, hook);
    }
    forall hook ensures QueueOk(config, t, hook) {
      assert QueueOk(config, w, hook) && Rows(t.db, hook) == Rows(w.db, hook);
      forall i | 0 <= i < |Rows(t.db, hook)| ensures RowOk(t, hook, Rows(t.db, hook)[i]) {
        assert RowOk(w, hook, Rows(w.db, hook)[i]);
      }
    }
  }
}
