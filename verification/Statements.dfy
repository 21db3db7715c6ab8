/** Every statement of every actor, every arrival and every crash keeps the invariant. */
module Statements {
  import opened Options
  import opened Database
  import opened QueueShape
  import opened Interleaving
  import opened Exclusion

  // ----- One actor moves -----

  /** Only `actor` may differ; what it became is in order, and no other actor has its execution. */
  ghost predicate OnlyMoves(config: Config, w: World, t: World, actor: nat) {
    && actor in w.actors
    && (forall p :: p in t.actors && p != actor ==> p in w.actors && t.actors[p] == w.actors[p])
    && (actor in t.actors ==> ActorOk(config, t, t.actors[actor]))
    && (actor in t.actors && Ident(t.actors[actor]) != Ident(w.actors[actor]) ==>
          forall p :: p in w.actors && p != actor ==> Ident(w.actors[p]) != Ident(t.actors[actor]))
  }

  lemma BecomeMoves(config: Config, w: World, t: World, actor: nat, next: Actor)
    requires actor in w.actors && t.actors == w.actors[actor := next] && ActorOk(config, t, next)
    requires forall p :: p in w.actors && p != actor && Ident(next) != Ident(w.actors[actor]) ==> Ident(w.actors[p]) != Ident(next)
    ensures OnlyMoves(config, w, t, actor)
  {
  }

  lemma Assemble(config: Config, w: World, t: World, actor: nat)
    requires Inv(config, w) && OnlyMoves(config, w, t, actor) && TablesOk(config, t)
    requires forall p :: p in w.actors && p != actor ==> ActorOk(config, t, w.actors[p])
    ensures Inv(config, t)
  {
    forall p | p in t.actors ensures ActorOk(config, t, t.actors[p]) {
      assert p != actor ==> ActorOk(config, t, w.actors[p]);
    }
  }

  /** A statement on the row of the actor's own execution, or of one that awaits approval. */
  lemma MoveExecution(config: Config, w: World, t: World, actor: nat, id: Id)
    requires Inv(config, w) && OnlyMoves(config, w, t, actor) && ExecutionChange(w, t, id)
    requires Ident(w.actors[actor]) == Some(id) || HasStatus(w.db, id, PendingApproval)
    requires id in t.db.executions && ExecutionOk(config, t, id) && t.ran <= t.db.executions.Keys
    requires id in w.db.executions ==> NotWaiting(Rows(w.db, w.db.executions[id].hook), id)
    ensures Inv(config, t)
  {
    ExecutionChangeTables(config, w, t, id);
    forall p | p in w.actors && p != actor ensures ActorOk(config, t, w.actors[p]) {
      assert ActorOk(config, w, w.actors[p]);
      if HasStatus(w.db, id, PendingApproval) {
        NoActorOnPendingApproval(config, w, p, id);
      }
      ExecutionChangeActor(config, w, t, id, w.actors[p]);
    }
    Assemble(config, w, t, actor);
  }

  /** A statement on the lock row, when nobody but the actor owns it and no execution of the hook is live. */
  lemma MoveLock(config: Config, w: World, t: World, actor: nat, hook: Slug)
    requires Inv(config, w) && OnlyMoves(config, w, t, actor) && LockChange(w, t, hook)
    requires hook in t.db.locks ==> LockOk(config, t, hook)
    requires hook in config && config[hook].Exclusive()
    requires hook !in w.db.locks || (Owns(w.actors[actor]) && w.actors[actor].hook == hook)
    requires hook in w.db.locks ==> w.db.locks[hook] in w.db.executions && !Live(w.db.executions[w.db.locks[hook]].status)
    ensures Inv(config, t)
  {
    forall id | id in w.db.executions && w.db.executions[id].hook == hook ensures !Live(w.db.executions[id].status) {
      assert ExecutionOk(config, w, id);
    }
    LockChangeTables(config, w, t, hook);
    forall p | p in w.actors && p != actor ensures ActorOk(config, t, w.actors[p]) {
      var a := w.actors[p];
      assert ActorOk(config, w, a);
      if Ident(a).Some? && a.hook == hook && Owns(a) && hook in w.db.locks {
        OneOwner(config, w, p, actor);
      }
      LockChangeActor(config, w, t, hook, a);
    }
    Assemble(config, w, t, actor);
  }

  /** A statement on the hook's queue rows that leaves the other actors' assumptions alone. */
  lemma MoveQueue(config: Config, w: World, t: World, actor: nat, hook: Slug)
    requires Inv(config, w) && OnlyMoves(config, w, t, actor) && QueueChange(w, t, hook) && QueueOk(config, t, hook)
    requires forall p :: p in w.actors && p != actor && Ident(w.actors[p]).Some? && w.actors[p].hook == hook ==>
               QueueSide(Rows(t.db, hook), w.actors[p])
    ensures Inv(config, t)
  {
    QueueChangeTables(config, w, t, hook);
    forall p | p in w.actors && p != actor ensures ActorOk(config, t, w.actors[p]) {
      assert ActorOk(config, w, w.actors[p]);
      QueueChangeActor(config, w, t, hook, w.actors[p]);
    }
    Assemble(config, w, t, actor);
  }

  /** The actor moves on without a change to the tables. */
  lemma MoveOnly(config: Config, w: World, t: World, actor: nat)
    requires Inv(config, w) && OnlyMoves(config, w, t, actor) && t.db == w.db
    requires t.used == w.used && t.approved == w.approved && t.ran == w.ran
    ensures Inv(config, t)
  {
    forall id | id in t.db.executions ensures ExecutionOk(config, t, id) {
      assert ExecutionOk(config, w, id);
    }
    forall hook | hook in t.db.locks ensures LockOk(config, t, hook) {
      assert LockOk(config, w, hook);
    }
    forall hook ensures QueueOk(config, t, hook) {
      assert QueueOk(config, w, hook);
      forall i | 0 <= i < |Rows(t.db, hook)| ensures RowOk(t, hook, Rows(t.db, hook)[i]) {
        assert RowOk(w, hook, Rows(w.db, hook)[i]);
      }
    }
    forall p | p in w.actors && p != actor ensures ActorOk(config, t, w.actors[p]) {
      assert ActorOk(config, w, w.actors[p]);
    }
    Assemble(config, w, t, actor);
  }

  // ----- Trigger -----

  /** No queue row names an execution that has no record yet. */
  lemma FreshNotQueued(config: Config, w: World, hook: Slug, id: Id)
    requires TablesOk(config, w) && id !in w.db.executions
    ensures NotQueued(Rows(w.db, hook), id)
  {
    assert QueueOk(config, w, hook);
    var rows := Rows(w.db, hook);
    forall i | 0 <= i < |rows| ensures rows[i].execution != id {
      assert RowOk(w, hook, rows[i]);
    }
  }

  /** The actor at `p` is `a`, it is in order, and its hook is configured. */
  predicate At(config: Config, w: World, p: nat, a: Actor) {
    p in w.actors && w.actors[p] == a && ActorOk(config, w, a)
  }

  lemma TryLockEffect(config: Config, w: World, actor: nat, a: Actor)
    requires At(config, w, actor, a) && a.TryLock? && a.hook !in w.db.locks
    ensures var t := AdvanceTrigger(config[a.hook], w, actor, a);
      OnlyMoves(config, w, t, actor) && LockChange(w, t, a.hook) && LockOk(config, t, a.hook)
  {
    var t := AdvanceTrigger(config[a.hook], w, actor, a);
    assert Rows(t.db, a.hook) == Rows(w.db, a.hook);
  }

  lemma TryLockBusy(config: Config, w: World, actor: nat, a: Actor)
    requires At(config, w, actor, a) && ((a.TryLock? && a.hook in w.db.locks) || a.CountQueue?)
    ensures var t := AdvanceTrigger(config[a.hook], w, actor, a);
      OnlyMoves(config, w, t, actor) && t == w.(actors := t.actors)
  {
  }

  lemma InsertExecution(config: Config, w: World, actor: nat, a: Actor)
    requires At(config, w, actor, a) && (a.InsertQueued? || a.InsertAdmitted?) && a.id !in w.ran
    ensures var t := AdvanceTrigger(config[a.hook], w, actor, a);
      ExecutionChange(w, t, a.id) && a.id in t.db.executions && ExecutionOk(config, t, a.id) && t.ran == w.ran
  {
  }

  lemma InsertMoves(config: Config, w: World, actor: nat, a: Actor)
    requires At(config, w, actor, a) && (a.InsertQueued? || a.InsertAdmitted?)
    requires NotQueued(Rows(w.db, a.hook), a.id) && a.id !in w.ran
    ensures OnlyMoves(config, w, AdvanceTrigger(config[a.hook], w, actor, a), actor)
  {
    var t := AdvanceTrigger(config[a.hook], w, actor, a);
    assert Rows(t.db, a.hook) == Rows(w.db, a.hook) && t.db.locks == w.db.locks;
    if actor in t.actors {
      BecomeMoves(config, w, t, actor, t.actors[actor]);
    }
  }

  lemma EnqueueKeepsQueue(config: Config, w: World, t: World, hook: Slug, id: Id)
    requires QueueOk(config, w, hook) && hook in config && config[hook].Queues()
    requires t.db == Enqueue(w.db, hook, id) && t.ran == w.ran
    requires NotQueued(Rows(w.db, hook), id) && BelongsTo(w.db, hook, id) && HasStatus(w.db, id, Pending) && id !in w.ran
    ensures QueueOk(config, t, hook)
  {
    EnqueueKeepsShape(Rows(w.db, hook), id);
    var rows := Rows(t.db, hook);
    forall i | 0 <= i < |rows| ensures RowOk(t, hook, rows[i]) {
      assert i < |rows| - 1 ==> RowOk(w, hook, Rows(w.db, hook)[i]);
    }
  }

  lemma EnqueueKeepsSide(rows: seq<QueueEntry>, id: Id, a: Actor)
    requires Shaped(rows) && Ident(a).Some? && QueueSide(rows, a) && a.id != id
    ensures QueueSide(rows + [QueueEntry(id, MaxPosition(rows) + 1, Waiting)], a)
  {
    EnqueueKeepsShape(rows, id);
  }

  lemma TriggerPreserves(config: Config, w: World, actor: nat, a: Actor)
    requires Inv(config, w) && At(config, w, actor, a)
    requires a.TryLock? || a.CountQueue? || a.InsertQueued? || a.EnqueueRow? || a.InsertAdmitted?
    ensures Inv(config, AdvanceTrigger(config[a.hook], w, actor, a))
  {
    var t := AdvanceTrigger(config[a.hook], w, actor, a);
    if a.CountQueue? || (a.TryLock? && a.hook in w.db.locks) {
      TryLockBusy(config, w, actor, a);
      MoveOnly(config, w, t, actor);
    } else if a.TryLock? {
      TryLockEffect(config, w, actor, a);
      MoveLock(config, w, t, actor, a.hook);
    } else if a.EnqueueRow? {
      EnqueuePreserves(config, w, actor, a);
    } else {
      FreshNotQueued(config, w, a.hook, a.id);
      InsertExecution(config, w, actor, a);
      InsertMoves(config, w, actor, a);
      MoveExecution(config, w, t, actor, a.id);
    }
  }

  lemma EnqueuePreserves(config: Config, w: World, actor: nat, a: Actor)
    requires Inv(config, w) && At(config, w, actor, a) && a.EnqueueRow?
    ensures Inv(config, AdvanceTrigger(config[a.hook], w, actor, a))
  {
    var t := AdvanceTrigger(config[a.hook], w, actor, a);
    assert ExecutionOk(config, w, a.id) && QueueOk(config, w, a.hook);
    EnqueueKeepsQueue(config, w, t, a.hook, a.id);
    forall p | p in w.actors && p != actor && Ident(w.actors[p]).Some? && w.actors[p].hook == a.hook
      ensures QueueSide(Rows(t.db, a.hook), w.actors[p])
    {
      assert ActorOk(config, w, w.actors[p]);
      EnqueueKeepsSide(Rows(w.db, a.hook), a.id, w.actors[p]);
    }
    MoveQueue(config, w, t, actor, a.hook);
  }

  // ----- Run -----

  /** What the frame lemma for execution rows asks of a statement. */
  ghost predicate Changes(config: Config, w: World, t: World, actor: nat, id: Id) {
    && OnlyMoves(config, w, t, actor) && ExecutionChange(w, t, id)
    && id in t.db.executions && ExecutionOk(config, t, id) && t.ran <= w.ran + {id}
  }

  lemma StartExecution(config: Config, w: World, actor: nat, a: Actor, choice: Choice)
    requires At(config, w, actor, a) && a.StartCommand? && ExecutionOk(config, w, a.id)
    ensures var t := AdvanceRun(config, w, actor, a, choice);
      ExecutionChange(w, t, a.id) && a.id in t.db.executions && ExecutionOk(config, t, a.id) && t.ran <= w.ran + {a.id}
  {
  }

  lemma StartMoves(config: Config, w: World, actor: nat, a: Actor, choice: Choice)
    requires At(config, w, actor, a) && a.StartCommand?
    ensures OnlyMoves(config, w, AdvanceRun(config, w, actor, a, choice), actor)
  {
    var t := AdvanceRun(config, w, actor, a, choice);
    assert Rows(t.db, a.hook) == Rows(w.db, a.hook) && t.db.locks == w.db.locks;
    if actor in t.actors {
      BecomeMoves(config, w, t, actor, t.actors[actor]);
    }
  }

  lemma StartEffect(config: Config, w: World, actor: nat, a: Actor, choice: Choice)
    requires At(config, w, actor, a) && a.StartCommand? && ExecutionOk(config, w, a.id)
    ensures Changes(config, w, AdvanceRun(config, w, actor, a, choice), actor, a.id)
  {
    StartExecution(config, w, actor, a, choice);
    StartMoves(config, w, actor, a, choice);
  }

  lemma FinishExecution(config: Config, w: World, actor: nat, a: Actor, choice: Choice)
    requires At(config, w, actor, a) && a.FinishCommand? && ExecutionOk(config, w, a.id)
    ensures var t := AdvanceRun(config, w, actor, a, choice);
      && ExecutionChange(w, t, a.id) && a.id in t.db.executions && ExecutionOk(config, t, a.id) && t.ran == w.ran
  {
  }

  lemma FinishMoves(config: Config, w: World, actor: nat, a: Actor, choice: Choice)
    requires At(config, w, actor, a) && a.FinishCommand?
    ensures OnlyMoves(config, w, AdvanceRun(config, w, actor, a, choice), actor)
  {
    var t := AdvanceRun(config, w, actor, a, choice);
    assert Rows(t.db, a.hook) == Rows(w.db, a.hook);
    if actor in t.actors {
      var b := t.actors[actor];
      assert ConfigSide(config, b) && QueueSide(Rows(t.db, b.hook), b) && LockSide(config, t.db, b);
    }
  }

  lemma FinishEffect(config: Config, w: World, actor: nat, a: Actor, choice: Choice)
    requires At(config, w, actor, a) && a.FinishCommand? && ExecutionOk(config, w, a.id)
    ensures Changes(config, w, AdvanceRun(config, w, actor, a, choice), actor, a.id)
  {
    FinishExecution(config, w, actor, a, choice);
    FinishMoves(config, w, actor, a, choice);
  }

  lemma RetryExecution(config: Config, w: World, actor: nat, a: Actor, choice: Choice)
    requires At(config, w, actor, a) && (a.CountRetry? || a.ResetRow?) && ExecutionOk(config, w, a.id)
    ensures var t := AdvanceRun(config, w, actor, a, choice);
      ExecutionChange(w, t, a.id) && a.id in t.db.executions && ExecutionOk(config, t, a.id) && t.ran == w.ran
  {
  }

  lemma RetryMoves(config: Config, w: World, actor: nat, a: Actor, choice: Choice)
    requires At(config, w, actor, a) && (a.CountRetry? || a.ResetRow?)
    ensures OnlyMoves(config, w, AdvanceRun(config, w, actor, a, choice), actor)
  {
    var t := AdvanceRun(config, w, actor, a, choice);
    assert Rows(t.db, a.hook) == Rows(w.db, a.hook) && t.db.locks == w.db.locks;
    BecomeMoves(config, w, t, actor, t.actors[actor]);
  }

  lemma RetryEffect(config: Config, w: World, actor: nat, a: Actor, choice: Choice)
    requires At(config, w, actor, a) && (a.CountRetry? || a.ResetRow?) && ExecutionOk(config, w, a.id)
    ensures Changes(config, w, AdvanceRun(config, w, actor, a, choice), actor, a.id)
  {
    RetryExecution(config, w, actor, a, choice);
    RetryMoves(config, w, actor, a, choice);
  }

  lemma RunPreserves(config: Config, w: World, actor: nat, a: Actor, choice: Choice)
    requires Inv(config, w) && At(config, w, actor, a) && Runs(a)
    ensures Inv(config, AdvanceRun(config, w, actor, a, choice))
  {
    assert ExecutionOk(config, w, a.id);
    if a.StartCommand? {
      StartEffect(config, w, actor, a, choice);
    } else if a.FinishCommand? {
      FinishEffect(config, w, actor, a, choice);
    } else {
      RetryEffect(config, w, actor, a, choice);
    }
    MoveExecution(config, w, AdvanceRun(config, w, actor, a, choice), actor, a.id);
  }

  // ----- Completion -----

  lemma PeekEffect(config: Config, w: World, actor: nat, a: Actor)
    requires At(config, w, actor, a) && a.PeekQueue? && config[a.hook].Queues() && QueueOk(config, w, a.hook)
    ensures var t := AdvanceCompletion(config[a.hook], w, actor, a);
      OnlyMoves(config, w, t, actor) && t == w.(actors := t.actors)
  {
    var rows := Rows(w.db, a.hook);
    PeekIsSplit(rows);
    var t, next := AdvanceCompletion(config[a.hook], w, actor, a), PeekNext(rows);
    BecomeMoves(config, w, t, actor,
                if next.None? then DropLock(a.hook, a.id) else PassLock(a.hook, a.id, next.value, rows[next.value].execution));
  }

  lemma ReleaseEffect(config: Config, w: World, actor: nat, a: Actor)
    requires At(config, w, actor, a) && (a.DropLock? || (a.PeekQueue? && !config[a.hook].Queues()))
    ensures var t := AdvanceCompletion(config[a.hook], w, actor, a);
      OnlyMoves(config, w, t, actor) && LockChange(w, t, a.hook) && a.hook !in t.db.locks
  {
  }

  /** Nobody but the owner of the lock acts for the execution that the lock passes to. */
  lemma NextIsFree(config: Config, w: World, actor: nat, a: Actor, p: nat)
    requires Inv(config, w) && At(config, w, actor, a) && a.PassLock? && p in w.actors && p != actor
    ensures Ident(w.actors[p]) != Some(a.next)
  {
    var b := w.actors[p];
    assert ActorOk(config, w, b) && QueueOk(config, w, a.hook);
    assert RowOk(w, a.hook, Rows(w.db, a.hook)[a.row]);
    if Ident(b) == Some(a.next) {
      assert b.hook == a.hook;
      if b.ReadyRow? {
        OneOwner(config, w, p, actor);
      }
    }
  }

  lemma PassEffect(config: Config, w: World, actor: nat, a: Actor)
    requires At(config, w, actor, a) && a.PassLock? && a.next in w.used
    requires HasStatus(w.db, a.next, Pending) && BelongsTo(w.db, a.hook, a.next)
    requires forall p :: p in w.actors && p != actor ==> Ident(w.actors[p]) != Some(a.next)
    ensures var t := AdvanceCompletion(config[a.hook], w, actor, a);
      OnlyMoves(config, w, t, actor) && LockChange(w, t, a.hook) && LockOk(config, t, a.hook)
  {
    var t := AdvanceCompletion(config[a.hook], w, actor, a);
    assert Rows(t.db, a.hook) == Rows(w.db, a.hook);
    BecomeMoves(config, w, t, actor, ReadyRow(a.hook, a.next, a.row));
  }

  lemma AskEffect(config: Config, w: World, actor: nat, a: Actor)
    requires At(config, w, actor, a) && a.AskApproval? && ExecutionOk(config, w, a.id)
    ensures var t := AdvanceCompletion(config[a.hook], w, actor, a);
      && OnlyMoves(config, w, t, actor) && ExecutionChange(w, t, a.id)
      && a.id in t.db.executions && ExecutionOk(config, t, a.id) && t.ran == w.ran
  {
  }

  lemma ReadyKeepsQueue(config: Config, w: World, t: World, hook: Slug, row: nat, id: Id)
    requires QueueOk(config, w, hook) && FirstWaits(Rows(w.db, hook), row, id)
    requires t.db == MarkReady(w.db, hook, row) && t.ran == w.ran
    ensures QueueOk(config, t, hook) && QueueChange(w, t.(actors := w.actors, used := w.used, approved := w.approved), hook)
    ensures Rows(t.db, hook) == Rows(w.db, hook)[row := Rows(w.db, hook)[row].(status := Ready)]
    ensures NotWaiting(Rows(t.db, hook), id)
  {
    var rows := Rows(w.db, hook);
    assert CountWaiting(rows) > 0;
    ReadyKeepsShape(rows);
    forall i | 0 <= i < |rows| ensures RowOk(t, hook, Rows(t.db, hook)[i]) {
      assert RowOk(w, hook, rows[i]);
    }
  }

  lemma ReadyKeepsSide(rows: seq<QueueEntry>, row: nat, a: Actor)
    requires row < |rows| && Ident(a).Some? && QueueSide(rows, a) && !a.ReadyRow? && !a.PassLock?
    ensures QueueSide(rows[row := rows[row].(status := Ready)], a)
  {
  }

  lemma ReadyEffect(config: Config, w: World, actor: nat, a: Actor)
    requires At(config, w, actor, a) && a.ReadyRow? && a.id !in w.ran
    requires var t := AdvanceCompletion(config[a.hook], w, actor, a); NotWaiting(Rows(t.db, a.hook), a.id)
    ensures OnlyMoves(config, w, AdvanceCompletion(config[a.hook], w, actor, a), actor)
  {
  }

  lemma ReadyKeepsOther(config: Config, w: World, actor: nat, a: Actor, p: nat)
    requires Inv(config, w) && At(config, w, actor, a) && a.ReadyRow?
    requires p in w.actors && p != actor && Ident(w.actors[p]).Some? && w.actors[p].hook == a.hook
    requires a.row < |Rows(w.db, a.hook)|
    ensures QueueSide(Rows(w.db, a.hook)[a.row := Rows(w.db, a.hook)[a.row].(status := Ready)], w.actors[p])
  {
    var b := w.actors[p];
    assert ActorOk(config, w, b);
    if b.ReadyRow? || b.PassLock? {
      OneOwner(config, w, p, actor);
    }
    ReadyKeepsSide(Rows(w.db, a.hook), a.row, b);
  }

  lemma ReadyPreserves(config: Config, w: World, actor: nat, a: Actor)
    requires Inv(config, w) && At(config, w, actor, a) && a.ReadyRow?
    ensures Inv(config, AdvanceCompletion(config[a.hook], w, actor, a))
  {
    var t := AdvanceCompletion(config[a.hook], w, actor, a);
    assert QueueOk(config, w, a.hook) && RowOk(w, a.hook, Rows(w.db, a.hook)[a.row]);
    ReadyKeepsQueue(config, w, t, a.hook, a.row, a.id);
    ReadyEffect(config, w, actor, a);
    forall p | p in w.actors && p != actor && Ident(w.actors[p]).Some? && w.actors[p].hook == a.hook
      ensures QueueSide(Rows(t.db, a.hook), w.actors[p])
    {
      ReadyKeepsOther(config, w, actor, a, p);
    }
    MoveQueue(config, w, t, actor, a.hook);
  }

  lemma PassPreserves(config: Config, w: World, actor: nat, a: Actor)
    requires Inv(config, w) && At(config, w, actor, a) && a.PassLock?
    ensures Inv(config, AdvanceCompletion(config[a.hook], w, actor, a))
  {
    assert ExecutionOk(config, w, a.id) && QueueOk(config, w, a.hook);
    assert RowOk(w, a.hook, Rows(w.db, a.hook)[a.row]);
    forall p | p in w.actors && p != actor ensures Ident(w.actors[p]) != Some(a.next) {
      NextIsFree(config, w, actor, a, p);
    }
    PassEffect(config, w, actor, a);
    MoveLock(config, w, AdvanceCompletion(config[a.hook], w, actor, a), actor, a.hook);
  }

  lemma CompletionPreserves(config: Config, w: World, actor: nat, a: Actor)
    requires Inv(config, w) && At(config, w, actor, a) && Completes(a)
    ensures Inv(config, AdvanceCompletion(config[a.hook], w, actor, a))
  {
    var t := AdvanceCompletion(config[a.hook], w, actor, a);
    assert ExecutionOk(config, w, a.id) && QueueOk(config, w, a.hook);
    if a.PeekQueue? && config[a.hook].Queues() {
      PeekEffect(config, w, actor, a);
      MoveOnly(config, w, t, actor);
    } else if a.PeekQueue? || a.DropLock? {
      ReleaseEffect(config, w, actor, a);
      MoveLock(config, w, t, actor, a.hook);
    } else if a.PassLock? {
      PassPreserves(config, w, actor, a);
    } else if a.ReadyRow? {
      ReadyPreserves(config, w, actor, a);
    } else {
      AskEffect(config, w, actor, a);
      MoveExecution(config, w, t, actor, a.id);
    }
  }

  // ----- Approval decisions -----

  /** A decision claims an execution that awaits approval. */
  predicate Claims(config: Config, w: World, actor: nat, a: Actor) {
    && At(config, w, actor, a) && (a.ApproveRow? || a.RejectRow? || a.ExpirePendingRow?)
    && HasStatus(w.db, a.id, PendingApproval) && ExecutionOk(config, w, a.id)
  }

  lemma ClaimChanges(config: Config, w: World, actor: nat, a: Actor)
    requires Claims(config, w, actor, a)
    ensures var t := AdvanceDecision(config, w, actor, a);
      ExecutionChange(w, t, a.id) && a.id in t.db.executions && ExecutionOk(config, t, a.id) && t.ran == w.ran
  {
  }

  lemma ClaimMoves(config: Config, w: World, actor: nat, a: Actor)
    requires Claims(config, w, actor, a)
    requires NotWaiting(Rows(w.db, w.db.executions[a.id].hook), a.id)
    requires forall p :: p in w.actors && p != actor ==> Ident(w.actors[p]) != Some(a.id)
    ensures OnlyMoves(config, w, AdvanceDecision(config, w, actor, a), actor)
  {
    var t, hook := AdvanceDecision(config, w, actor, a), w.db.executions[a.id].hook;
    assert Rows(t.db, hook) == Rows(w.db, hook);
    BecomeMoves(config, w, t, actor, if a.ApproveRow? then ResetApproved(hook, a.id) else ExpireEntry(hook, a.id));
  }

  lemma MissEffect(config: Config, w: World, actor: nat, a: Actor)
    requires At(config, w, actor, a)
    requires a.ReadHolder? || ((a.ApproveRow? || a.RejectRow? || a.ExpirePendingRow?) && !HasStatus(w.db, a.id, PendingApproval))
    requires a.ReadHolder? && HoldsLock(w.db, a.hook, a.id) ==> config[a.hook].Exclusive()
    ensures var t := AdvanceDecision(config, w, actor, a);
      OnlyMoves(config, w, t, actor) && t == w.(actors := t.actors)
  {
  }

  lemma ResetApprovedEffect(config: Config, w: World, actor: nat, a: Actor)
    requires At(config, w, actor, a) && a.ResetApproved? && ExecutionOk(config, w, a.id)
    ensures Changes(config, w, AdvanceDecision(config, w, actor, a), actor, a.id)
  {
    var t := AdvanceDecision(config, w, actor, a);
    assert Rows(t.db, a.hook) == Rows(w.db, a.hook);
  }

  /** No row of any hook waits for an execution that is not pending. */
  lemma OnlyPendingWaits(config: Config, w: World, id: Id, hook: Slug)
    requires TablesOk(config, w) && id in w.db.executions && w.db.executions[id].status != Pending
    ensures NotWaiting(Rows(w.db, hook), id)
  {
    assert QueueOk(config, w, hook);
    var rows := Rows(w.db, hook);
    forall i | 0 <= i < |rows| && rows[i].execution == id ensures rows[i].status != Waiting {
      assert RowOk(w, hook, rows[i]);
    }
  }

  /** expire_for_execution, run for an execution that is no longer pending, changes no row. */
  lemma ExpireChangesNothing(config: Config, w: World, id: Id)
    requires TablesOk(config, w) && id in w.db.executions && w.db.executions[id].status != Pending
    ensures ExpireForExecution(w.db, id) == w.db
  {
    forall hook | hook in w.db.queue ensures ExpireRows(w.db.queue[hook], id) == w.db.queue[hook] {
      OnlyPendingWaits(config, w, id, hook);
      var rows := Rows(w.db, hook);
      assert forall i :: 0 <= i < |rows| ==> ExpireRow(rows[i], id) == rows[i];
    }
  }

  lemma ExpireEntryEffect(config: Config, w: World, actor: nat, a: Actor)
    requires At(config, w, actor, a) && a.ExpireEntry? && ExpireForExecution(w.db, a.id) == w.db
    ensures var t := AdvanceDecision(config, w, actor, a);
      OnlyMoves(config, w, t, actor) && t == w.(actors := t.actors)
  {
  }

  lemma ClaimPreserves(config: Config, w: World, actor: nat, a: Actor)
    requires Inv(config, w) && At(config, w, actor, a) && (a.ApproveRow? || a.RejectRow? || a.ExpirePendingRow?)
    requires HasStatus(w.db, a.id, PendingApproval)
    ensures Inv(config, AdvanceDecision(config, w, actor, a))
  {
    assert ExecutionOk(config, w, a.id);
    OnlyPendingWaits(config, w, a.id, w.db.executions[a.id].hook);
    forall p | p in w.actors && p != actor ensures Ident(w.actors[p]) != Some(a.id) {
      NoActorOnPendingApproval(config, w, p, a.id);
    }
    ClaimChanges(config, w, actor, a);
    ClaimMoves(config, w, actor, a);
    MoveExecution(config, w, AdvanceDecision(config, w, actor, a), actor, a.id);
  }

  lemma DecisionPreserves(config: Config, w: World, actor: nat, a: Actor)
    requires Inv(config, w) && At(config, w, actor, a)
    requires a.ApproveRow? || a.ResetApproved? || a.RejectRow? || a.ExpirePendingRow? || a.ExpireEntry? || a.ReadHolder?
    ensures Inv(config, AdvanceDecision(config, w, actor, a))
  {
    var t := AdvanceDecision(config, w, actor, a);
    if a.ResetApproved? {
      assert ExecutionOk(config, w, a.id);
      ResetApprovedEffect(config, w, actor, a);
      MoveExecution(config, w, t, actor, a.id);
    } else if a.ExpireEntry? {
      ExpireChangesNothing(config, w, a.id);
      ExpireEntryEffect(config, w, actor, a);
      MoveOnly(config, w, t, actor);
    } else if a.ReadHolder? {
      assert a.hook in w.db.locks ==> LockOk(config, w, a.hook);
      MissEffect(config, w, actor, a);
      MoveOnly(config, w, t, actor);
    } else if HasStatus(w.db, a.id, PendingApproval) {
      ClaimPreserves(config, w, actor, a);
    } else {
      MissEffect(config, w, actor, a);
      MoveOnly(config, w, t, actor);
    }
  }

  // ----- Arrival -----

  /** What an arrival changes: the new actor, in its first state, and the id it may have drawn. */
  ghost predicate Arrives(config: Config, w: World, t: World, actor: nat, b: Actor) {
    && actor !in w.actors && t.actors == w.actors[actor := b]
    && t.db == w.db && w.used <= t.used && t.approved == w.approved && t.ran == w.ran
    && (Ident(b).Some? ==>
          BeforeInsert(b) && !b.InsertQueued? && b.hook in config && b.id !in w.used && b.id in t.used
          && (b.TryLock? <==> config[b.hook].Exclusive()) && !b.CountQueue?)
  }

  lemma ArrivalCases(config: Config, w: World, actor: nat, a: Actor)
    ensures var t := Arrive(config, w, actor, a);
      t == w || (actor in t.actors && Arrives(config, w, t, actor, t.actors[actor]))
  {
  }

  lemma ArrivalOk(config: Config, w: World, t: World, actor: nat, b: Actor)
    requires Inv(config, w) && Arrives(config, w, t, actor, b)
    ensures ActorOk(config, t, b)
    ensures forall p :: p in w.actors && Ident(b).Some? ==> Ident(w.actors[p]) != Ident(b)
  {
    if Ident(b).Some? {
      FreshNotQueued(config, w, b.hook, b.id);
    }
    forall p | p in w.actors && Ident(b).Some? ensures Ident(w.actors[p]) != Ident(b) {
      assert ActorOk(config, w, w.actors[p]);
    }
  }

  lemma ArrivePreserves(config: Config, w: World, actor: nat, a: Actor)
    requires Inv(config, w)
    ensures Inv(config, Arrive(config, w, actor, a))
  {
    var t := Arrive(config, w, actor, a);
    ArrivalCases(config, w, actor, a);
    if t != w {
      var b := t.actors[actor];
      ArriveKeepsTables(config, w, t);
      ArrivalOk(config, w, t, actor, b);
      forall p | p in t.actors ensures ActorOk(config, t, t.actors[p]) {
        assert p != actor ==> ActorOk(config, w, w.actors[p]);
      }
    }
  }

  lemma ArriveKeepsTables(config: Config, w: World, t: World)
    requires TablesOk(config, w) && t.db == w.db && w.used <= t.used && t.approved == w.approved && t.ran == w.ran
    ensures TablesOk(config, t)
  {
    forall id | id in t.db.executions ensures ExecutionOk(config, t, id) {
      assert ExecutionOk(config, w, id);
    }
    forall hook | hook in t.db.locks ensures LockOk(config, t, hook) {
      assert LockOk(config, w, hook);
    }
    forall hook ensures QueueOk(config, t, hook) {
      assert QueueOk(config, w, hook);
      forall i | 0 <= i < |Rows(t.db, hook)| ensures RowOk(t, hook, Rows(t.db, hook)[i]) {
        assert RowOk(w, hook, Rows(w.db, hook)[i]);
      }
    }
  }
}
