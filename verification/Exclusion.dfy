/** The invariant of the statement-level barrier, and that every statement and every crash keeps it. */
module Exclusion {
  import opened Options
  import opened Database
  import opened QueueShape
  import opened Interleaving

  // ----- What each actor may rely on -----

  /** The execution an actor acts for, and nobody else does; an approval decision has none until its first statement. */
  function Ident(a: Actor): Option<Id> {
    if a.ApproveRow? || a.RejectRow? || a.ExpirePendingRow? then None else Some(a.id)
  }

  predicate BeforeInsert(a: Actor) {
    a.TryLock? || a.CountQueue? || a.InsertQueued? || a.InsertAdmitted?
  }

  predicate Runs(a: Actor) {
    a.StartCommand? || a.FinishCommand? || a.CountRetry? || a.ResetRow?
  }

  predicate Completes(a: Actor) {
    a.PeekQueue? || a.DropLock? || a.PassLock? || a.ReadyRow? || a.AskApproval?
  }

  /** Actors between taking their hook's lock and giving it up. */
  predicate Owns(a: Actor) {
    a.InsertAdmitted? || Runs(a) || Completes(a) || a.ResetApproved? || a.ExpireEntry? || a.ReadHolder?
  }

  predicate Live(status: Status) {
    status in {Running, Approved, PendingApproval}
  }

  predicate StatusOk(a: Actor, status: Status)
    requires Ident(a).Some? && !BeforeInsert(a)
  {
    match a
    case FinishCommand(_, _, _) => status == Running
    case CountRetry(_, _, _) => status == Failed
    case ResetRow(_, _, _) => status == Failed
    case PeekQueue(_, _) => !Live(status)
    case DropLock(_, _) => !Live(status)
    case PassLock(_, _, _, _) => !Live(status)
    case ResetApproved(_, _) => status == Approved
    case ExpireEntry(_, _) => status in {Rejected, Expired}
    case ReadHolder(_, _) => status in {Rejected, Expired}
    case _ => status == Pending
  }

  predicate BelongsTo(db: Db, hook: Slug, id: Id) {
    id in db.executions && db.executions[id].hook == hook
  }

  predicate NotWaiting(rows: seq<QueueEntry>, id: Id) {
    forall i :: 0 <= i < |rows| && rows[i].execution == id ==> rows[i].status != Waiting
  }

  predicate NotQueued(rows: seq<QueueEntry>, id: Id) {
    forall i :: 0 <= i < |rows| ==> rows[i].execution != id
  }

  /** Row `row` is the first that waits, and it is the entry of `id`. */
  predicate FirstWaits(rows: seq<QueueEntry>, row: nat, id: Id) {
    row < |rows| && row == Split(rows) && rows[row].execution == id
  }

  /** The part of an actor's assumptions that speaks of the lock row. */
  predicate LockSide(config: Config, db: Db, a: Actor)
    requires Ident(a).Some? && a.hook in config
  {
    Owns(a) && config[a.hook].Exclusive() ==> HoldsLock(db, a.hook, a.id)
  }

  /** The part that speaks of its execution's row and history. */
  predicate ExecutionSide(config: Config, w: World, a: Actor)
    requires Ident(a).Some? && a.hook in config
  {
    && a.id in w.used
    && (if BeforeInsert(a) then a.id !in w.db.executions
        else BelongsTo(w.db, a.hook, a.id) && StatusOk(a, w.db.executions[a.id].status))
    && (Runs(a) && config[a.hook].RequiresApproval() ==> a.id in w.approved)
    && (a.ResetApproved? ==> a.id in w.approved)
    && (a.EnqueueRow? || a.AskApproval? ==> a.id !in w.ran)
    && (a.AskApproval? ==> config[a.hook].RequiresApproval())
  }

  /** The part that speaks of its hook's queue rows. */
  predicate QueueSide(rows: seq<QueueEntry>, a: Actor)
    requires Ident(a).Some?
  {
    && (if a.ReadyRow? then FirstWaits(rows, a.row, a.id) else NotWaiting(rows, a.id))
    && (a.EnqueueRow? ==> NotQueued(rows, a.id))
    && (a.PassLock? ==> FirstWaits(rows, a.row, a.next))
  }

  /** The part that speaks of its hook's configuration. */
  predicate ConfigSide(config: Config, a: Actor)
    requires Ident(a).Some?
  {
    && a.hook in config
    && (a.TryLock? || Completes(a) ==> config[a.hook].Exclusive())
    && (a.CountQueue? || a.InsertQueued? || a.EnqueueRow? || a.DropLock? || a.PassLock? || a.ReadyRow? ==> config[a.hook].Queues())
  }

  predicate ActorOk(config: Config, w: World, a: Actor) {
    Ident(a).Some? ==>
      ConfigSide(config, a) && LockSide(config, w.db, a) && ExecutionSide(config, w, a) && QueueSide(Rows(w.db, a.hook), a)
  }

  // ----- What holds of each table -----

  predicate ExecutionOk(config: Config, w: World, id: Id)
    requires id in w.db.executions
  {
    var hook := w.db.executions[id].hook;
    var status := w.db.executions[id].status;
    && hook in config && id in w.used
    && (config[hook].Exclusive() && Live(status) ==> HoldsLock(w.db, hook, id))
    && (config[hook].RequiresApproval() && (status in {Approved, Running} || id in w.ran) ==> id in w.approved)
    && (status == Running ==> id in w.ran)
    && (status in {PendingApproval, Approved, Rejected, Expired} ==> id !in w.ran)
  }

  predicate LockOk(config: Config, w: World, hook: Slug)
    requires hook in w.db.locks
  {
    hook in config && config[hook].Exclusive() && w.db.locks[hook] in w.used
  }

  predicate RowOk(w: World, hook: Slug, row: QueueEntry) {
    && BelongsTo(w.db, hook, row.execution)
    && (row.status == Waiting ==> HasStatus(w.db, row.execution, Pending) && row.execution !in w.ran)
  }

  predicate DistinctRows(rows: seq<QueueEntry>) {
    forall i, j :: 0 <= i < j < |rows| ==> rows[i].execution != rows[j].execution
  }

  predicate QueueOk(config: Config, w: World, hook: Slug) {
    var rows := Rows(w.db, hook);
    && Shaped(rows) && DistinctRows(rows)
    && (hook in w.db.queue ==> hook in config && config[hook].Queues())
    && forall i :: 0 <= i < |rows| ==> RowOk(w, hook, rows[i])
  }

  ghost predicate ActorsOk(config: Config, w: World) {
    forall p :: p in w.actors ==> ActorOk(config, w, w.actors[p])
  }

  predicate IdentsUnique(w: World) {
    forall p, q :: p in w.actors && q in w.actors && p != q && Ident(w.actors[p]).Some? ==> Ident(w.actors[p]) != Ident(w.actors[q])
  }

  ghost predicate TablesOk(config: Config, w: World) {
    && (forall id :: id in w.db.executions ==> ExecutionOk(config, w, id))
    && (forall hook :: hook in w.db.locks ==> LockOk(config, w, hook))
    && (forall hook :: QueueOk(config, w, hook))
    && w.ran <= w.db.executions.Keys && w.db.executions.Keys <= w.used
  }

  ghost predicate Inv(config: Config, w: World) {
    ActorsOk(config, w) && IdentsUnique(w) && TablesOk(config, w)
  }

  // ----- Consequences -----

  /** An actor acts on an execution that does not await approval. */
  lemma NoActorOnPendingApproval(config: Config, w: World, p: nat, id: Id)
    requires ActorsOk(config, w) && p in w.actors && HasStatus(w.db, id, PendingApproval)
    ensures Ident(w.actors[p]) != Some(id)
  {
    assert ActorOk(config, w, w.actors[p]);
  }

  /** A hook with a lock has at most one owner. */
  lemma OneOwner(config: Config, w: World, p: nat, q: nat)
    requires ActorsOk(config, w) && IdentsUnique(w) && p in w.actors && q in w.actors
    requires Owns(w.actors[p]) && Owns(w.actors[q]) && w.actors[p].hook == w.actors[q].hook
    requires w.actors[p].hook in config && config[w.actors[p].hook].Exclusive()
    ensures p == q
  {
    assert ActorOk(config, w, w.actors[p]) && ActorOk(config, w, w.actors[q]);
  }

  // ----- Frames: one statement changes one table -----

  /** Only execution `id` may differ, with its history. */
  ghost predicate ExecutionChange(w: World, t: World, id: Id) {
    && t.db.locks == w.db.locks && t.db.queue == w.db.queue
    && (forall other :: other != id ==> (other in t.db.executions <==> other in w.db.executions))
    && (forall other :: other != id && other in w.db.executions ==> t.db.executions[other] == w.db.executions[other])
    && (id in w.db.executions ==> BelongsTo(t.db, w.db.executions[id].hook, id))
    && t.used == w.used && w.approved <= t.approved && w.ran <= t.ran
    && (forall other :: other != id ==> (other in t.ran <==> other in w.ran))
  }

  ghost predicate LockChange(w: World, t: World, hook: Slug) {
    && t.db.executions == w.db.executions && t.db.queue == w.db.queue
    && (forall other :: other != hook ==> (other in t.db.locks <==> other in w.db.locks))
    && (forall other :: other != hook && other in w.db.locks ==> t.db.locks[other] == w.db.locks[other])
    && t.used == w.used && t.approved == w.approved && t.ran == w.ran
  }

  ghost predicate QueueChange(w: World, t: World, hook: Slug) {
    && t.db.executions == w.db.executions && t.db.locks == w.db.locks
    && (forall other :: other != hook ==> Rows(t.db, other) == Rows(w.db, other))
    && (forall other :: other in t.db.queue ==> other == hook || other in w.db.queue)
    && t.used == w.used && t.approved == w.approved && t.ran == w.ran
  }

  lemma ExecutionChangeActor(config: Config, w: World, t: World, id: Id, a: Actor)
    requires ExecutionChange(w, t, id) && ActorOk(config, w, a) && Ident(a) != Some(id)
    ensures ActorOk(config, t, a)
  {
    if Ident(a).Some? {
      assert a.id in t.db.executions <==> a.id in w.db.executions;
    }
  }

  lemma ExecutionChangeExecution(config: Config, w: World, t: World, id: Id, other: Id)
    requires ExecutionChange(w, t, id) && other != id && other in w.db.executions && ExecutionOk(config, w, other)
    ensures other in t.db.executions && ExecutionOk(config, t, other)
  {
  }

  lemma ExecutionChangeQueue(config: Config, w: World, t: World, id: Id, hook: Slug)
    requires ExecutionChange(w, t, id) && QueueOk(config, w, hook) && NotWaiting(Rows(w.db, hook), id)
    ensures QueueOk(config, t, hook)
  {
    var rows := Rows(t.db, hook);
    forall i | 0 <= i < |rows| ensures RowOk(t, hook, rows[i]) {
      assert RowOk(w, hook, rows[i]);
    }
  }

  /** A statement on execution `id`, which does not wait, and whose new row is in order. */
  lemma ExecutionChangeTables(config: Config, w: World, t: World, id: Id)
    requires TablesOk(config, w) && ExecutionChange(w, t, id)
    requires id in t.db.executions && ExecutionOk(config, t, id) && id in w.used
    requires id in w.db.executions ==> NotWaiting(Rows(w.db, w.db.executions[id].hook), id)
    ensures TablesOk(config, t)
  {
    forall other | other in t.db.executions ensures ExecutionOk(config, t, other) {
      if other != id {
        ExecutionChangeExecution(config, w, t, id, other);
      }
    }
    forall hook | hook in t.db.locks ensures LockOk(config, t, hook) {
      assert LockOk(config, w, hook);
    }
    forall hook ensures QueueOk(config, t, hook) {
      assert QueueOk(config, w, hook);
      forall i | 0 <= i < |Rows(w.db, hook)| && Rows(w.db, hook)[i].execution == id
        ensures Rows(w.db, hook)[i].status != Waiting
      {
        assert RowOk(w, hook, Rows(w.db, hook)[i]);
      }
      ExecutionChangeQueue(config, w, t, id, hook);
    }
  }

  lemma LockChangeActor(config: Config, w: World, t: World, hook: Slug, a: Actor)
    requires LockChange(w, t, hook) && ActorOk(config, w, a)
    requires Ident(a).Some? && a.hook == hook ==> !Owns(a)
    ensures ActorOk(config, t, a)
  {
  }

  lemma LockChangeTables(config: Config, w: World, t: World, hook: Slug)
    requires TablesOk(config, w) && LockChange(w, t, hook)
    requires hook in t.db.locks ==> LockOk(config, t, hook)
    requires forall id :: id in w.db.executions && w.db.executions[id].hook == hook ==> !Live(w.db.executions[id].status)
    ensures TablesOk(config, t)
  {
    forall id | id in t.db.executions ensures ExecutionOk(config, t, id) {
      assert ExecutionOk(config, w, id);
    }
    forall other | other in t.db.locks ensures LockOk(config, t, other) {
      assert other != hook ==> LockOk(config, w, other);
    }
    forall other ensures QueueOk(config, t, other) {
      assert QueueOk(config, w, other);
      var rows := Rows(t.db, other);
      forall i | 0 <= i < |rows| ensures RowOk(t, other, rows[i]) {
        assert RowOk(w, other, rows[i]);
      }
    }
  }

  lemma QueueChangeActor(config: Config, w: World, t: World, hook: Slug, a: Actor)
    requires QueueChange(w, t, hook) && ActorOk(config, w, a)
    requires Ident(a).Some? && a.hook == hook ==> QueueSide(Rows(t.db, hook), a)
    ensures ActorOk(config, t, a)
  {
  }

  lemma QueueChangeTables(config: Config, w: World, t: World, hook: Slug)
    requires TablesOk(config, w) && QueueChange(w, t, hook) && QueueOk(config, t, hook)
    ensures TablesOk(config, t)
  {
    forall id | id in t.db.executions ensures ExecutionOk(config, t, id) {
      assert ExecutionOk(config, w, id);
    }
    forall other | other in t.db.locks ensures LockOk(config, t, other) {
      assert LockOk(config, w, other);
    }
    forall other ensures QueueOk(config, t, other) {
      assert QueueOk(config, w, other);
      var rows := Rows(t.db, other);
      forall i | 0 <= i < |rows| ensures RowOk(t, other, rows[i]) {
        if other != hook {
          assert RowOk(w, other, rows[i]);
        }
      }
    }
  }
}
