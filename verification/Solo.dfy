/**
 The two models of the barrier agree.  A handler whose statements are not interrupted does to the database, and to
 its own task, what the one step of the handler-level model does.
 */
module Solo {
  import opened Options
  import opened Database
  import Server
  import opened Interleaving

  /** `n` statements of one actor in a row. */
  function Drive(config: Config, w: World, p: nat, choice: Choice, n: nat): World {
    if n == 0 then w else Advance(config, Drive(config, w, p, choice, n - 1), p, choice)
  }

  lemma {:induction false} DriveOn(config: Config, w: World, p: nat, choice: Choice, n: nat, m: nat)
    ensures Drive(config, w, p, choice, n + m) == Drive(config, Drive(config, w, p, choice, n), p, choice, m)
  {
    if m > 0 {
      DriveOn(config, w, p, choice, n, m - 1);
    }
  }

  lemma DriveOne(config: Config, w: World, p: nat, choice: Choice)
    ensures Drive(config, w, p, choice, 1) == Advance(config, w, p, choice)
  {
    assert Drive(config, w, p, choice, 0) == w;
  }

  lemma DriveTwo(config: Config, w: World, p: nat, choice: Choice)
    ensures Drive(config, w, p, choice, 2) == Advance(config, Advance(config, w, p, choice), p, choice)
  {
    DriveOne(config, w, p, choice);
  }

  lemma DriveThree(config: Config, w: World, p: nat, choice: Choice)
    ensures Drive(config, w, p, choice, 3)
            == Advance(config, Advance(config, Advance(config, w, p, choice), p, choice), p, choice)
  {
    DriveTwo(config, w, p, choice);
  }

  /** The actors after `p` has become the task that starts an execution, or has ended. */
  function Spawn(w: World, p: nat, hook: Slug, id: Option<Id>): map<nat, Actor> {
    if id.Some? then w.actors[p := StartCommand(hook, id.value, 0)] else w.actors - {p}
  }

  // ----- The trigger -----

  /** A trigger that need not wait: it takes the lock, if there is one, and creates its execution. */
  lemma AdmitSolo(config: Config, w: World, p: nat, hook: Slug, id: Id, choice: Choice)
    requires hook in config && p in w.actors && w.actors[p] == InsertAdmitted(hook, id)
    ensures var v := Advance(config, w, p, choice);
      && v.db == Create(w.db, id, hook, if config[hook].RequiresApproval() then PendingApproval else Pending)
      && v.actors == Spawn(w, p, hook, if config[hook].RequiresApproval() then None else Some(id))
  {
  }

  lemma LockSolo(config: Config, w: World, p: nat, hook: Slug, id: Id, choice: Choice)
    requires hook in config && config[hook].Exclusive() && p in w.actors && w.actors[p] == TryLock(hook, id)
    ensures Advance(config, w, p, choice)
            == if hook !in w.db.locks
               then w.(db := w.db.(locks := w.db.locks[hook := id]), actors := w.actors[p := InsertAdmitted(hook, id)])
               else if config[hook].Queues() then w.(actors := w.actors[p := CountQueue(hook, id)])
               else w.(actors := w.actors - {p})
  {
  }

  lemma CountSolo(config: Config, w: World, p: nat, hook: Slug, id: Id, choice: Choice)
    requires hook in config && config[hook].Queues() && p in w.actors && w.actors[p] == CountQueue(hook, id)
    ensures Advance(config, w, p, choice)
            == if CountWaiting(Rows(w.db, hook)) < config[hook].concurrency.value.queueDepth
               then w.(actors := w.actors[p := InsertQueued(hook, id)])
               else w.(actors := w.actors - {p})
  {
  }

  lemma JoinSolo(config: Config, w: World, p: nat, hook: Slug, id: Id, choice: Choice)
    requires hook in config && p in w.actors && w.actors[p] == InsertQueued(hook, id)
    ensures Drive(config, w, p, choice, 2)
            == w.(db := Enqueue(Create(w.db, id, hook, Pending), hook, id), actors := w.actors - {p})
  {
    DriveTwo(config, w, p, choice);
    var created := w.(db := Create(w.db, id, hook, Pending), actors := w.actors[p := EnqueueRow(hook, id)]);
    assert Advance(config, w, p, choice) == created;
    assert w.actors[p := EnqueueRow(hook, id)] - {p} == w.actors - {p};
  }

  /** The trigger before its first statement. */
  function Begun(config: Config, w: World, p: nat, hook: Slug, id: Id): World
    requires hook in config
  {
    w.(used := w.used + {id},
       actors := w.actors[p := if config[hook].Exclusive() then TryLock(hook, id) else InsertAdmitted(hook, id)])
  }

  /** Where an uninterrupted trigger ends. */
  lemma TriggerEnds(config: Config, w: World, p: nat, hook: Slug, id: Id, choice: Choice) returns (n: nat)
    requires hook in config && p !in w.actors && id !in w.db.executions
    ensures n <= 4
    ensures var v := Drive(config, Begun(config, w, p, hook, id), p, choice, n);
      var status := if config[hook].RequiresApproval() then PendingApproval else Pending;
      var locked := config[hook].Exclusive() && hook in w.db.locks;
      && v.actors == Spawn(w, p, hook, if locked || config[hook].RequiresApproval() then None else Some(id))
      && v.db ==
         if !config[hook].Exclusive() then Create(w.db, id, hook, status)
         else if !locked then Create(w.db.(locks := w.db.locks[hook := id]), id, hook, status)
         else if config[hook].Queues() && CountWaiting(Rows(w.db, hook)) < config[hook].concurrency.value.queueDepth
         then Enqueue(Create(w.db, id, hook, Pending), hook, id)
         else w.db
  {
    var begun := Begun(config, w, p, hook, id);
    DriveOne(config, begun, p, choice);
    var one := Advance(config, begun, p, choice);
    if !config[hook].Exclusive() {
      AdmitSolo(config, begun, p, hook, id, choice);
      n := 1;
    } else if hook !in w.db.locks {
      LockSolo(config, begun, p, hook, id, choice);
      AdmitSolo(config, one, p, hook, id, choice);
      n := 2;
    } else {
      n := LockedEnds(config, w, p, hook, id, choice);
    }
  }

  lemma LockedEnds(config: Config, w: World, p: nat, hook: Slug, id: Id, choice: Choice) returns (n: nat)
    requires hook in config && p !in w.actors && config[hook].Exclusive() && hook in w.db.locks
    ensures n <= 4
    ensures var v := Drive(config, Begun(config, w, p, hook, id), p, choice, n);
      && v.actors == w.actors - {p}
      && v.db ==
         if config[hook].Queues() && CountWaiting(Rows(w.db, hook)) < config[hook].concurrency.value.queueDepth
         then Enqueue(Create(w.db, id, hook, Pending), hook, id)
         else w.db
  {
    var begun := Begun(config, w, p, hook, id);
    var one := Advance(config, begun, p, choice);
    DriveOne(config, begun, p, choice);
    LockSolo(config, begun, p, hook, id, choice);
    n := 1;
    if config[hook].Queues() {
      var m := CountEnds(config, one, p, hook, id, choice);
      DriveOn(config, begun, p, choice, 1, m);
      n := 1 + m;
    }
  }

  lemma CountEnds(config: Config, w: World, p: nat, hook: Slug, id: Id, choice: Choice) returns (n: nat)
    requires hook in config && config[hook].Queues() && p in w.actors && w.actors[p] == CountQueue(hook, id)
    ensures n <= 3
    ensures Drive(config, w, p, choice, n)
            == if CountWaiting(Rows(w.db, hook)) < config[hook].concurrency.value.queueDepth
               then w.(db := Enqueue(Create(w.db, id, hook, Pending), hook, id), actors := w.actors - {p})
               else w.(actors := w.actors - {p})
  {
    CountSolo(config, w, p, hook, id, choice);
    DriveOne(config, w, p, choice);
    var one := Advance(config, w, p, choice);
    if CountWaiting(Rows(w.db, hook)) < config[hook].concurrency.value.queueDepth {
      JoinSolo(config, one, p, hook, id, choice);
      DriveOn(config, w, p, choice, 1, 2);
      assert w.actors[p := InsertQueued(hook, id)] - {p} == w.actors - {p};
      n := 3;
    } else {
      n := 1;
    }
  }

  /** Uninterrupted, a trigger does what the trigger handler does. */
  lemma TriggerSolo(config: Config, w: World, s: Server.State, p: nat, hook: Slug, id: Id, choice: Choice) returns (n: nat)
    requires hook in config && p !in w.actors && id !in w.used && id !in w.db.executions && s.db == w.db
    ensures n <= 4
    ensures var (t, outcome) := Server.Trigger(config, s, hook, id);
      var v := Drive(config, Arrive(config, w, p, TryLock(hook, id)), p, choice, n);
      && v.db == t.db && v.actors == Spawn(w, p, hook, if outcome.Spawned? then Some(id) else None)
      && t.tasks == (if outcome.Spawned? then s.tasks[id := Server.Task(Server.Starting, 0)] else s.tasks)
  {
    assert Arrive(config, w, p, TryLock(hook, id)) == Begun(config, w, p, hook, id);
    n := TriggerEnds(config, w, p, hook, id, choice);
  }

  // ----- The completion handler -----

  /** The execution that a hand-over starts, if it starts one. */
  function Started(config: HookConfig, db: Db, hook: Slug): Option<Id> {
    if config.RequiresApproval() || !config.Queues() || PeekNext(Rows(db, hook)).None? then None
    else Some(Rows(db, hook)[PeekNext(Rows(db, hook)).value].execution)
  }

  /** Uninterrupted, the statements of a completion do what the completion handler does. */
  lemma CompletionSolo(config: Config, w: World, s: Server.State, p: nat, hook: Slug, id: Id, choice: Choice) returns (n: nat)
    requires hook in config && p in w.actors && w.actors[p] == PeekQueue(hook, id) && s.db == w.db
    ensures n <= 4
    ensures var t := Server.OnExecutionComplete(config[hook], s, hook);
      var v := Drive(config, w, p, choice, n);
      var next := Started(config[hook], w.db, hook);
      && v.db == t.db && v.actors == Spawn(w, p, hook, next)
      && t.tasks == (if next.Some? then s.tasks[next.value := Server.Task(Server.Starting, 0)] else s.tasks)
  {
    if !config[hook].Queues() {
      n := 1;
      DriveOne(config, w, p, choice);
    } else if PeekNext(Rows(w.db, hook)).None? {
      n := 2;
      DriveTwo(config, w, p, choice);
    } else {
      n := HandOverSolo(config, w, s, p, hook, id, choice);
    }
  }

  lemma HandOverSolo(config: Config, w: World, s: Server.State, p: nat, hook: Slug, id: Id, choice: Choice) returns (n: nat)
    requires hook in config && p in w.actors && w.actors[p] == PeekQueue(hook, id) && s.db == w.db
    requires config[hook].Queues() && PeekNext(Rows(w.db, hook)).Some?
    ensures n <= 4
    ensures var t := Server.OnExecutionComplete(config[hook], s, hook);
      var v := Drive(config, w, p, choice, n);
      var next := Started(config[hook], w.db, hook);
      && v.db == t.db && v.actors == Spawn(w, p, hook, next)
      && t.tasks == (if next.Some? then s.tasks[next.value := Server.Task(Server.Starting, 0)] else s.tasks)
  {
    var row := PeekNext(Rows(w.db, hook)).value;
    var next := Rows(w.db, hook)[row].execution;
    PassSolo(config, w, p, hook, id, choice);
    var passed := Drive(config, w, p, choice, 2);
    if config[hook].RequiresApproval() {
      n := 4;
      DriveTwo(config, passed, p, choice);
      DriveOn(config, w, p, choice, 2, 2);
      AskSolo(config, passed, p, hook, next, row, choice);
    } else {
      n := 3;
      DriveOne(config, passed, p, choice);
      DriveOn(config, w, p, choice, 2, 1);
    }
    assert w.actors[p := ReadyRow(hook, next, row)] - {p} == w.actors - {p};
    assert w.actors[p := ReadyRow(hook, next, row)][p := StartCommand(hook, next, 0)] == w.actors[p := StartCommand(hook, next, 0)];
  }

  lemma PassSolo(config: Config, w: World, p: nat, hook: Slug, id: Id, choice: Choice)
    requires hook in config && p in w.actors && w.actors[p] == PeekQueue(hook, id)
    requires config[hook].Queues() && PeekNext(Rows(w.db, hook)).Some?
    ensures var row := PeekNext(Rows(w.db, hook)).value;
      var next := Rows(w.db, hook)[row].execution;
      Drive(config, w, p, choice, 2)
      == w.(db := HandOff(w.db, hook, next), actors := w.actors[p := ReadyRow(hook, next, row)])
  {
    var row := PeekNext(Rows(w.db, hook)).value;
    var next := Rows(w.db, hook)[row].execution;
    DriveTwo(config, w, p, choice);
    assert Advance(config, w, p, choice) == w.(actors := w.actors[p := PassLock(hook, id, row, next)]);
  }

  lemma AskSolo(config: Config, w: World, p: nat, hook: Slug, id: Id, row: nat, choice: Choice)
    requires hook in config && p in w.actors && w.actors[p] == ReadyRow(hook, id, row) && config[hook].RequiresApproval()
    ensures Advance(config, Advance(config, w, p, choice), p, choice)
            == w.(db := Transition(MarkReady(w.db, hook, row), id, Pending, PendingApproval), actors := w.actors - {p})
  {
    var asking := w.(db := MarkReady(w.db, hook, row), actors := w.actors[p := AskApproval(hook, id)]);
    assert Advance(config, w, p, choice) == asking;
    assert w.actors[p := AskApproval(hook, id)] - {p} == w.actors - {p};
  }

  // ----- The run of a command -----

  /** The actor is where the task is. */
  predicate Plays(config: Config, w: World, p: nat, hook: Slug, id: Id, task: Server.Task) {
    match task.phase
    case Starting => p in w.actors && w.actors[p] == StartCommand(hook, id, task.attempt)
    case Commanding => p in w.actors && w.actors[p] == FinishCommand(hook, id, task.attempt)
    case Retrying => p in w.actors && w.actors[p] == CountRetry(hook, id, task.attempt + 1)
    case Finishing =>
      if hook in config && config[hook].Exclusive() then p in w.actors && w.actors[p] == PeekQueue(hook, id)
      else p !in w.actors
  }

  /** The actor plays the execution's task on the same database. */
  predicate Matches(config: Config, w: World, s: Server.State, p: nat, hook: Slug, id: Id) {
    && s.db == w.db && hook in config && id in s.tasks && Plays(config, w, p, hook, id, s.tasks[id])
    && id in w.db.executions && w.db.executions[id].hook == hook
  }

  /** Starting, ending and retrying a command take the same course in both models. */
  lemma StartSolo(config: Config, w: World, s: Server.State, p: nat, hook: Slug, id: Id, choice: Choice)
    requires Matches(config, w, s, p, hook, id) && s.tasks[id].phase == Server.Starting
    ensures Matches(config, Drive(config, w, p, choice, 1), Server.StartTask(s, id, choice.logsReady), p, hook, id)
  {
    DriveOne(config, w, p, choice);
  }

  lemma ExitSolo(config: Config, w: World, s: Server.State, p: nat, hook: Slug, id: Id, choice: Choice)
    requires Matches(config, w, s, p, hook, id) && s.tasks[id].phase == Server.Commanding
    ensures Matches(config, Drive(config, w, p, choice, 1),
                    Server.ExitTask(config, s, id, choice.status, choice.exitCode), p, hook, id)
  {
    DriveOne(config, w, p, choice);
  }

  lemma RetrySolo(config: Config, w: World, s: Server.State, p: nat, hook: Slug, id: Id, choice: Choice)
    requires Matches(config, w, s, p, hook, id) && s.tasks[id].phase == Server.Retrying
    ensures Matches(config, Drive(config, w, p, choice, 2), Server.RetryTask(s, id), p, hook, id)
  {
    DriveTwo(config, w, p, choice);
    var attempt := s.tasks[id].attempt + 1;
    var counted := w.(db := IncrementRetryCount(w.db, id), actors := w.actors[p := ResetRow(hook, id, attempt)]);
    assert Advance(config, w, p, choice) == counted;
  }

  // ----- Decisions -----

  /** Uninterrupted, an approval makes the execution pending and its actor the task that starts it. */
  lemma ApproveSolo(config: Config, w: World, s: Server.State, p: nat, id: Id, choice: Choice)
    requires p !in w.actors && s.db == w.db && HasStatus(w.db, id, PendingApproval) && w.db.executions[id].hook in config
    ensures var v := Drive(config, Arrive(config, w, p, ApproveRow(id)), p, choice, 2);
      Matches(config, v, Server.Approve(config, s, id), p, w.db.executions[id].hook, id) && v.approved == w.approved + {id}
  {
    DriveTwo(config, Arrive(config, w, p, ApproveRow(id)), p, choice);
  }

  /** The first statement of a rejection or an expiry, and the status it gives. */
  function Refuse(id: Id, status: Status): Actor {
    if status == Rejected then RejectRow(id) else ExpirePendingRow(id)
  }

  /**
   Uninterrupted, a rejection or an expiry of an execution that awaits approval does what the handler does, the
   hand-over of a held lock included.
   */
  lemma RefuseSolo(config: Config, w: World, s: Server.State, p: nat, id: Id, status: Status, choice: Choice) returns (n: nat)
    requires p !in w.actors && s.db == w.db && HasStatus(w.db, id, PendingApproval) && w.db.executions[id].hook in config
    requires status in {Rejected, Expired}
    ensures n <= 7
    ensures var t := if status == Rejected then Server.Reject(config, s, id) else Server.SweepRow(config, s, id);
      Drive(config, Arrive(config, w, p, Refuse(id, status)), p, choice, n).db == t.db
  {
    n := ClearedSolo(config, w, s, p, id, status, choice);
    WithdrawnDb(config, s, id, status);
  }

  /** The statements of a refusal clear the entry and, if the execution holds the lock, run the completion. */
  lemma ClearedSolo(config: Config, w: World, s: Server.State, p: nat, id: Id, status: Status, choice: Choice) returns (n: nat)
    requires p !in w.actors && HasStatus(w.db, id, PendingApproval) && w.db.executions[id].hook in config
    requires status in {Rejected, Expired}
    ensures n <= 7
    ensures var hook := w.db.executions[id].hook;
      var cleared := ExpireForExecution(Transition(w.db, id, PendingApproval, status), id);
      Drive(config, Arrive(config, w, p, Refuse(id, status)), p, choice, n).db
      == if HoldsLock(cleared, hook, id) then Server.OnExecutionComplete(config[hook], s.(db := cleared), hook).db else cleared
  {
    var hook := w.db.executions[id].hook;
    var arrived := Arrive(config, w, p, Refuse(id, status));
    var cleared := ExpireForExecution(Transition(w.db, id, PendingApproval, status), id);
    ClearSolo(config, w, p, id, status, choice);
    n := 3;
    if HoldsLock(cleared, hook, id) {
      var three := w.(db := cleared, actors := w.actors[p := PeekQueue(hook, id)]);
      assert Drive(config, arrived, p, choice, 3) == three;
      var m := CompletionSolo(config, three, s.(db := cleared), p, hook, id, choice);
      DriveOn(config, arrived, p, choice, 3, m);
      n := 3 + m;
    }
  }

  lemma WithdrawnDb(config: Config, s: Server.State, id: Id, status: Status)
    requires HasStatus(s.db, id, PendingApproval) && s.db.executions[id].hook in config && status in {Rejected, Expired}
    ensures var hook := s.db.executions[id].hook;
      var cleared := ExpireForExecution(Transition(s.db, id, PendingApproval, status), id);
      var t := if status == Rejected then Server.Reject(config, s, id) else Server.SweepRow(config, s, id);
      t.db == if HoldsLock(cleared, hook, id) then Server.OnExecutionComplete(config[hook], s.(db := cleared), hook).db else cleared
  {
  }

  lemma ClearSolo(config: Config, w: World, p: nat, id: Id, status: Status, choice: Choice)
    requires p !in w.actors && HasStatus(w.db, id, PendingApproval) && w.db.executions[id].hook in config
    requires status in {Rejected, Expired}
    ensures var hook := w.db.executions[id].hook;
      var cleared := ExpireForExecution(Transition(w.db, id, PendingApproval, status), id);
      Drive(config, Arrive(config, w, p, Refuse(id, status)), p, choice, 3)
      == w.(db := cleared,
            actors := if HoldsLock(cleared, hook, id) then w.actors[p := PeekQueue(hook, id)] else w.actors)
  {
    var hook := w.db.executions[id].hook;
    var arrived := Arrive(config, w, p, Refuse(id, status));
    var refused := Transition(w.db, id, PendingApproval, status);
    var one := w.(db := refused, actors := w.actors[p := ExpireEntry(hook, id)]);
    var two := w.(db := ExpireForExecution(refused, id), actors := w.actors[p := ReadHolder(hook, id)]);
    DriveThree(config, arrived, p, choice);
    RefuseOnce(config, w, p, id, status, choice);
    assert Advance(config, one, p, choice) == two;
    assert w.actors[p := ReadHolder(hook, id)] - {p} == w.actors;
  }

  lemma RefuseOnce(config: Config, w: World, p: nat, id: Id, status: Status, choice: Choice)
    requires p !in w.actors && HasStatus(w.db, id, PendingApproval) && status in {Rejected, Expired}
    ensures Advance(config, Arrive(config, w, p, Refuse(id, status)), p, choice)
            == w.(db := Transition(w.db, id, PendingApproval, status),
                  actors := w.actors[p := ExpireEntry(w.db.executions[id].hook, id)])
  {
    var arrived := w.(actors := w.actors[p := Refuse(id, status)]);
    assert Arrive(config, w, p, Refuse(id, status)) == arrived;
  }
}
