/**
 The three tables behind the execution barriers, one function per SQL statement, and the class
 whose methods run those statements.

 A statement that updates rows is a function from one database value to the next, guarded by its
 WHERE clause.  Rows of the queue table are grouped by their hook, and a row's primary key is its
 place in the group; positions are the column of that name, not the place.
 */
module Database {
  import opened Options

  type Slug = string
  type Id = string

  datatype Status =
    | Pending | PendingApproval | Approved | Rejected | Expired
    | Running | Success | Failed | TimedOut
  {
    predicate IsTerminal() {
      this in {Success, Failed, TimedOut, Rejected, Expired}
    }
  }

  datatype Execution = Execution(hook: Slug, status: Status, exitCode: Option<int>, retryCount: nat)

  /** Stale is the table's 'expired'. */
  datatype EntryStatus = Waiting | Ready | Stale

  datatype QueueEntry = QueueEntry(execution: Id, position: int, status: EntryStatus)

  datatype Db = Db(executions: map<Id, Execution>, locks: map<Slug, Id>, queue: map<Slug, seq<QueueEntry>>)

  // ----- Hook configuration -----

  datatype ConcurrencyMode = Mutex | Queue

  datatype ConcurrencyConfig = ConcurrencyConfig(mode: ConcurrencyMode, queueDepth: nat)

  datatype ApprovalConfig = ApprovalConfig(required: bool, timeout: Option<nat>)

  datatype HookConfig = HookConfig(concurrency: Option<ConcurrencyConfig>, approval: Option<ApprovalConfig>, retries: nat)
  {
    predicate RequiresApproval() {
      approval.Some? && approval.value.required
    }

    predicate Exclusive() {
      concurrency.Some?
    }

    predicate Queues() {
      concurrency.Some? && concurrency.value.mode == Queue
    }
  }

  type Config = map<Slug, HookConfig>

  // ----- Reading the tables -----

  function Rows(db: Db, hook: Slug): seq<QueueEntry> {
    if hook in db.queue then db.queue[hook] else []
  }

  function MaxPosition(rows: seq<QueueEntry>): (max: int)
    ensures forall i :: 0 <= i < |rows| ==> rows[i].position <= max
    ensures rows == [] ==> max == 0
    ensures rows != [] ==> exists i :: 0 <= i < |rows| && rows[i].position == max
  {
    if rows == [] then 0
    else if |rows| == 1 then assert rows[0].position == rows[|rows| - 1].position; rows[0].position
    else
      var init := rows[..|rows| - 1];
      var rest := MaxPosition(init);
      var last := rows[|rows| - 1].position;
      assert forall i :: 0 <= i < |init| ==> rows[i] == init[i];
      if last > rest then last
      else
        assert exists i :: 0 <= i < |init| && init[i].position == rest;
        rest
  }

  /** The waiting row with the least position, if any row is waiting. */
  function PeekNext(rows: seq<QueueEntry>): (next: Option<nat>)
    ensures next.None? <==> forall i :: 0 <= i < |rows| ==> rows[i].status != Waiting
    ensures next.Some? ==>
      && next.value < |rows| && rows[next.value].status == Waiting
      && forall i :: 0 <= i < |rows| && rows[i].status == Waiting ==> rows[next.value].position <= rows[i].position
  {
    if rows == [] then None
    else
      var init := rows[..|rows| - 1];
      var last := rows[|rows| - 1];
      var rest := PeekNext(init);
      assert forall i :: 0 <= i < |init| ==> rows[i] == init[i];
      if last.status != Waiting then rest
      else if rest.Some? && init[rest.value].position <= last.position then rest
      else Some(|rows| - 1)
  }

  function CountWaiting(rows: seq<QueueEntry>): (count: nat)
    ensures count <= |rows|
  {
    if rows == [] then 0
    else CountWaiting(rows[..|rows| - 1]) + if rows[|rows| - 1].status == Waiting then 1 else 0
  }

  predicate HasStatus(db: Db, id: Id, status: Status) {
    id in db.executions && db.executions[id].status == status
  }

  predicate HoldsLock(db: Db, hook: Slug, id: Id) {
    hook in db.locks && db.locks[hook] == id
  }

  // ----- Lock statements -----

  /** INSERT OR IGNORE; the flag says whether a row was inserted. */
  function TryAcquire(db: Db, hook: Slug, id: Id): (Db, bool) {
    if hook in db.locks then (db, false) else (db.(locks := db.locks[hook := id]), true)
  }

  function Release(db: Db, hook: Slug): Db {
    db.(locks := db.locks - {hook})
  }

  function HandOff(db: Db, hook: Slug, next: Id): Db {
    if hook in db.locks then db.(locks := db.locks[hook := next]) else db
  }

  // ----- Queue statements -----

  function Enqueue(db: Db, hook: Slug, id: Id): Db {
    var rows := Rows(db, hook);
    db.(queue := db.queue[hook := rows + [QueueEntry(id, MaxPosition(rows) + 1, Waiting)]])
  }

  function MarkReady(db: Db, hook: Slug, row: nat): Db {
    var rows := Rows(db, hook);
    if row < |rows| && rows[row].status == Waiting
    then db.(queue := db.queue[hook := rows[row := rows[row].(status := Ready)]])
    else db
  }

  function ExpireRow(row: QueueEntry, id: Id): QueueEntry {
    if row.execution == id && row.status == Waiting then row.(status := Stale) else row
  }

  function ExpireRows(rows: seq<QueueEntry>, id: Id): seq<QueueEntry> {
    seq(|rows|, i requires 0 <= i < |rows| => ExpireRow(rows[i], id))
  }

  function ExpireForExecution(db: Db, id: Id): Db {
    db.(queue := map hook | hook in db.queue :: ExpireRows(db.queue[hook], id))
  }

  // ----- Execution statements -----

  /** INSERT; a second row with the same primary key is refused. */
  function Create(db: Db, id: Id, hook: Slug, status: Status): Db {
    if id in db.executions then db
    else db.(executions := db.executions[id := Execution(hook, status, None, 0)])
  }

  /** UPDATE executions SET status = after WHERE id = ? AND status = before. */
  function Transition(db: Db, id: Id, before: Status, after: Status): Db {
    if HasStatus(db, id, before)
    then db.(executions := db.executions[id := db.executions[id].(status := after)])
    else db
  }

  function MarkCompleted(db: Db, id: Id, status: Status, exitCode: Option<int>): Db {
    if HasStatus(db, id, Running)
    then db.(executions := db.executions[id := db.executions[id].(status := status, exitCode := exitCode)])
    else db
  }

  function IncrementRetryCount(db: Db, id: Id): Db {
    if id in db.executions
    then db.(executions := db.executions[id := db.executions[id].(retryCount := db.executions[id].retryCount + 1)])
    else db
  }

  /** The retry loop's reset, which has no status guard. */
  function ResetToPending(db: Db, id: Id): Db {
    if id in db.executions
    then db.(executions := db.executions[id := db.executions[id].(status := Pending, exitCode := None)])
    else db
  }

  // ----- Recovery statements -----

  /** Executions stuck in running become failed. */
  function FailRunning(db: Db): Db {
    db.(executions := map id | id in db.executions ::
                        if db.executions[id].status == Running then db.executions[id].(status := Failed)
                        else db.executions[id])
  }

  /** Lock rows that name a terminal execution are deleted. */
  function DropOrphanLocks(db: Db): Db {
    db.(locks := map hook | hook in db.locks
                   && !(db.locks[hook] in db.executions && db.executions[db.locks[hook]].status.IsTerminal())
                 :: db.locks[hook])
  }

  function ExpireStaleRow(executions: map<Id, Execution>, row: QueueEntry): QueueEntry {
    if row.status == Waiting && row.execution in executions
       && executions[row.execution].status in {Rejected, Expired, Failed}
    then row.(status := Stale) else row
  }

  function ExpireStaleRows(executions: map<Id, Execution>, rows: seq<QueueEntry>): seq<QueueEntry> {
    seq(|rows|, i requires 0 <= i < |rows| => ExpireStaleRow(executions, rows[i]))
  }

  function ExpireStaleEntries(db: Db): Db {
    db.(queue := map hook | hook in db.queue :: ExpireStaleRows(db.executions, db.queue[hook]))
  }

  /** The first `n` of the three recovery statements, in order. */
  function RecoverySteps(db: Db, n: nat): Db
    requires n <= 3
  {
    if n == 0 then db
    else
      var before := RecoverySteps(db, n - 1);
      if n == 1 then FailRunning(before)
      else if n == 2 then DropOrphanLocks(before)
      else ExpireStaleEntries(before)
  }

  function RecoverBarriers(db: Db): Db {
    RecoverySteps(db, 3)
  }

  const EMPTY_DB := Db(map[], map[], map[])

  // ----- The store -----

  /** The connection pool: three tables that each method updates with one statement. */
  class Store {
    var executions: map<Id, Execution>
    var locks: map<Slug, Id>
    var queue: map<Slug, seq<QueueEntry>>

    function Snapshot(): Db
      reads this
    {
      Db(executions, locks, queue)
    }

    constructor ()
      ensures Snapshot() == EMPTY_DB
    {
      executions, locks, queue := map[], map[], map[];
    }

    method TryAcquireLock(hook: Slug, id: Id) returns (acquired: bool)
      modifies this`locks
      ensures (Snapshot(), acquired) == TryAcquire(old(Snapshot()), hook, id)
      ensures acquired <==> hook !in old(locks)
      ensures locks == if acquired then old(locks)[hook := id] else old(locks)
    {
      acquired := hook !in locks;
      if acquired {
        locks := locks[hook := id];
      }
    }

    method ReleaseLock(hook: Slug)
      modifies this`locks
      ensures Snapshot() == Release(old(Snapshot()), hook)
      ensures hook !in locks && forall other :: other != hook ==>
                (other in locks <==> other in old(locks)) && (other in locks ==> locks[other] == old(locks)[other])
    {
      locks := locks - {hook};
    }

    method HandOffLock(hook: Slug, next: Id)
      modifies this`locks
      ensures Snapshot() == HandOff(old(Snapshot()), hook, next)
      ensures locks == if hook in old(locks) then old(locks)[hook := next] else old(locks)
    {
      if hook in locks {
        locks := locks[hook := next];
      }
    }

    method GetHolder(hook: Slug) returns (holder: Option<Id>)
      ensures holder.Some? <==> hook in locks
      ensures holder.Some? ==> HoldsLock(Snapshot(), hook, holder.value)
    {
      holder := if hook in locks then Some(locks[hook]) else None;
    }

    method EnqueueExecution(hook: Slug, id: Id) returns (position: int)
      modifies this`queue
      ensures Snapshot() == Enqueue(old(Snapshot()), hook, id)
      ensures position == MaxPosition(old(Rows(Snapshot(), hook))) + 1
      ensures hook in queue && queue == old(queue)[hook := queue[hook]]
      ensures queue[hook] == old(if hook in queue then queue[hook] else []) + [QueueEntry(id, position, Waiting)]
      ensures forall i :: 0 <= i < |queue[hook]| - 1 ==> queue[hook][i].position < position
    {
      var rows := if hook in queue then queue[hook] else [];
      position := MaxPosition(rows) + 1;
      queue := queue[hook := rows + [QueueEntry(id, position, Waiting)]];
    }

    method MarkEntryReady(hook: Slug, row: nat)
      modifies this`queue
      ensures Snapshot() == MarkReady(old(Snapshot()), hook, row)
      ensures hook in old(queue) && row < |old(queue)[hook]| && old(queue)[hook][row].status == Waiting ==>
                var was := old(queue)[hook];
                queue == old(queue)[hook := was[row := QueueEntry(was[row].execution, was[row].position, Ready)]]
    {
      var rows := if hook in queue then queue[hook] else [];
      if row < |rows| && rows[row].status == Waiting {
        queue := queue[hook := rows[row := rows[row].(status := Ready)]];
      }
    }

    method ExpireEntryFor(id: Id)
      modifies this`queue
      ensures Snapshot() == ExpireForExecution(old(Snapshot()), id)
      ensures queue.Keys == old(queue).Keys && forall hook :: hook in queue ==> |queue[hook]| == |old(queue)[hook]|
      ensures forall hook, i :: hook in queue && 0 <= i < |queue[hook]| ==>
                var was := old(queue)[hook][i];
                queue[hook][i] == if was.execution == id && was.status == Waiting
                                  then QueueEntry(id, was.position, Stale) else was
    {
      queue := map hook | hook in queue :: ExpireRows(queue[hook], id);
    }

    method CreateExecution(id: Id, hook: Slug, status: Status) returns (created: bool)
      modifies this`executions
      ensures Snapshot() == Create(old(Snapshot()), id, hook, status)
      ensures created <==> id !in old(executions)
      ensures executions == if created then old(executions)[id := Execution(hook, status, None, 0)] else old(executions)
    {
      created := id !in executions;
      if created {
        executions := executions[id := Execution(hook, status, None, 0)];
      }
    }

    /** `changed` is the statement's rows_affected() == 1. */
    method TransitionExecution(id: Id, before: Status, after: Status) returns (changed: bool)
      modifies this`executions
      ensures Snapshot() == Transition(old(Snapshot()), id, before, after)
      ensures changed <==> id in old(executions) && old(executions)[id].status == before
      ensures executions == if changed then old(executions[id := executions[id].(status := after)]) else old(executions)
    {
      changed := id in executions && executions[id].status == before;
      if changed {
        executions := executions[id := executions[id].(status := after)];
      }
    }

    method CompleteExecution(id: Id, status: Status, exitCode: Option<int>) returns (changed: bool)
      modifies this`executions
      ensures Snapshot() == MarkCompleted(old(Snapshot()), id, status, exitCode)
      ensures changed <==> id in old(executions) && old(executions)[id].status == Running
      ensures executions ==
        if changed then old(executions[id := executions[id].(status := status, exitCode := exitCode)]) else old(executions)
    {
      changed := id in executions && executions[id].status == Running;
      if changed {
        executions := executions[id := executions[id].(status := status, exitCode := exitCode)];
      }
    }

    method IncrementRetries(id: Id)
      modifies this`executions
      ensures Snapshot() == IncrementRetryCount(old(Snapshot()), id)
      ensures id in old(executions) ==>
                executions == old(executions[id := executions[id].(retryCount := executions[id].retryCount + 1)])
    {
      if id in executions {
        executions := executions[id := executions[id].(retryCount := executions[id].retryCount + 1)];
      }
    }

    method ResetExecution(id: Id) returns (changed: bool)
      modifies this`executions
      ensures Snapshot() == ResetToPending(old(Snapshot()), id)
      ensures changed <==> id in old(executions)
      ensures executions ==
        if changed then old(executions[id := executions[id].(status := Pending, exitCode := None)]) else old(executions)
    {
      changed := id in executions;
      if changed {
        executions := executions[id := executions[id].(status := Pending, exitCode := None)];
      }
    }

    /** The startup recovery: three statements in a row. */
    method Recover()
      modifies this
      ensures Snapshot() == RecoverBarriers(old(Snapshot()))
    {
      ghost var was := Snapshot();
      executions := map id | id in executions ::
        if executions[id].status == Running then executions[id].(status := Failed) else executions[id];
      assert Snapshot() == FailRunning(was);
      ghost var failed := Snapshot();
      locks := map hook | hook in locks
        && !(locks[hook] in executions && executions[locks[hook]].status.IsTerminal()) :: locks[hook];
      assert Snapshot() == DropOrphanLocks(failed);
      ghost var dropped := Snapshot();
      queue := map hook | hook in queue :: ExpireStaleRows(executions, queue[hook]);
      assert Snapshot() == ExpireStaleEntries(dropped);
      assert RecoverySteps(was, 0) == was && RecoverySteps(was, 1) == failed && RecoverySteps(was, 2) == dropped;
    }
  }
}
