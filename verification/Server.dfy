/**
 The request handlers, the running tasks and the completion handler, each handler's database section
 one atomic step.  Running a command is not atomic: starting it, its exit, a retry and the final
 hand-over are separate steps.

 `Apply` is total: a step that is not enabled leaves the state alone.  A run is a sequence of steps,
 so a lemma about `Run` speaks of every interleaving of handlers.
 */
module Server {
  import opened Options
  import opened Database

  /** What a live task will do next. */
  datatype Phase = Starting | Commanding | Retrying | Finishing

  datatype Task = Task(phase: Phase, attempt: nat)

  /** What happened so far; no handler reads it. */
  datatype Log = Log(
    admitted: map<Slug, seq<Id>>,  // took the lock directly or joined the queue, in that order
    finished: map<Slug, seq<Id>>,  // gave the lock up, in that order
    started: map<Slug, seq<Id>>,   // first entered running, in that order
    approved: set<Id>)

  datatype State = State(db: Db, tasks: map<Id, Task>, log: Log)

  const INITIAL := State(EMPTY_DB, map[], Log(map[], map[], map[], {}))

  function At(m: map<Slug, seq<Id>>, hook: Slug): seq<Id> {
    if hook in m then m[hook] else []
  }

  function Append(m: map<Slug, seq<Id>>, hook: Slug, id: Id): map<Slug, seq<Id>> {
    m[hook := At(m, hook) + [id]]
  }

  // ----- The completion handler -----

  /** Hand the lock to the next waiting execution, or free it. */
  function OnExecutionComplete(config: HookConfig, s: State, hook: Slug): State {
    var next := if config.Queues() then PeekNext(Rows(s.db, hook)) else None;
    if next.None? then s.(db := Release(s.db, hook))
    else
      var id := Rows(s.db, hook)[next.value].execution;
      var db := MarkReady(HandOff(s.db, hook, id), hook, next.value);
      if config.RequiresApproval()
      then s.(db := Transition(db, id, Pending, PendingApproval))
      else s.(db := db, tasks := s.tasks[id := Task(Starting, 0)])
  }

  /** The completion handler on behalf of `id`, entered in the log. */
  function GiveUpLock(config: HookConfig, s: State, hook: Slug, id: Id): State {
    var after := OnExecutionComplete(config, s, hook);
    after.(log := after.log.(finished := Append(after.log.finished, hook, id)))
  }

  // ----- Handlers -----

  datatype Outcome = Ignored | Refused(waiting: nat) | Queued(position: int) | AwaitingApproval | Spawned

  function Trigger(config: Config, s: State, hook: Slug, id: Id): (State, Outcome) {
    if hook !in config || id in s.db.executions then (s, Ignored)
    else if !config[hook].Exclusive() then Admit(config[hook], s, hook, id)
    else
      var (db, acquired) := TryAcquire(s.db, hook, id);
      if acquired then
        Admit(config[hook], s.(db := db, log := s.log.(admitted := Append(s.log.admitted, hook, id))), hook, id)
      else
        var waiting := CountWaiting(Rows(s.db, hook));
        if config[hook].concurrency.value.mode == Mutex then (s, Refused(0))
        else if waiting >= config[hook].concurrency.value.queueDepth then (s, Refused(waiting))
        else
          (s.(db := Enqueue(Create(s.db, id, hook, Pending), hook, id),
              log := s.log.(admitted := Append(s.log.admitted, hook, id))),
           Queued(MaxPosition(Rows(s.db, hook)) + 1))
  }

  /** Past the concurrency barrier: create the record, then wait for approval or spawn the task. */
  function Admit(config: HookConfig, s: State, hook: Slug, id: Id): (State, Outcome) {
    if config.RequiresApproval() then
      (s.(db := Create(s.db, id, hook, PendingApproval)), AwaitingApproval)
    else
      (s.(db := Create(s.db, id, hook, Pending), tasks := s.tasks[id := Task(Starting, 0)]), Spawned)
  }

  predicate Knows(config: Config, s: State, id: Id) {
    id in s.db.executions && s.db.executions[id].hook in config
  }

  predicate InPhase(s: State, id: Id, phase: Phase) {
    id in s.tasks && s.tasks[id].phase == phase
  }

  /** The executor's first half: open the log files, then mark the row running. */
  function StartTask(s: State, id: Id, logsReady: bool): State {
    if !InPhase(s, id, Starting) then s
    else if !logsReady || !HasStatus(s.db, id, Pending) then
      s.(tasks := s.tasks[id := s.tasks[id].(phase := Finishing)])
    else
      var hook := s.db.executions[id].hook;
      var started := if id in At(s.log.started, hook) then s.log.started else Append(s.log.started, hook, id);
      State(Transition(s.db, id, Pending, Running), s.tasks[id := s.tasks[id].(phase := Commanding)],
            s.log.(started := started))
  }

  /** The executor's second half, and the retry loop's decision. */
  function ExitTask(config: Config, s: State, id: Id, status: Status, exitCode: Option<int>): State {
    if !InPhase(s, id, Commanding) || !Knows(config, s, id) || status !in {Success, Failed, TimedOut} then s
    else
      var again := status == Failed && exitCode.Some? && s.tasks[id].attempt < config[s.db.executions[id].hook].retries;
      s.(db := MarkCompleted(s.db, id, status, exitCode),
         tasks := s.tasks[id := s.tasks[id].(phase := if again then Retrying else Finishing)])
  }

  function RetryTask(s: State, id: Id): State {
    if !InPhase(s, id, Retrying) then s
    else s.(db := ResetToPending(IncrementRetryCount(s.db, id), id),
            tasks := s.tasks[id := Task(Starting, s.tasks[id].attempt + 1)])
  }

  /** The task's last act. */
  function CompleteTask(config: Config, s: State, id: Id): State {
    if !InPhase(s, id, Finishing) || !Knows(config, s, id) then s
    else
      var hook := s.db.executions[id].hook;
      var ended := s.(tasks := s.tasks - {id});
      if config[hook].Exclusive() then GiveUpLock(config[hook], ended, hook, id) else ended
  }

  function Approve(config: Config, s: State, id: Id): State {
    if !HasStatus(s.db, id, PendingApproval) then s
    else
      var approved := s.(db := Transition(s.db, id, PendingApproval, Approved),
                         log := s.log.(approved := s.log.approved + {id}));
      if !Knows(config, s, id) then approved
      else approved.(db := Transition(approved.db, id, Approved, Pending),
                     tasks := s.tasks[id := Task(Starting, 0)])
  }

  /** After a rejection or an expiry: drop the queue entry and pass the lock on, if it was held. */
  function Withdraw(config: Config, s: State, id: Id): State
    requires id in s.db.executions
  {
    var hook := s.db.executions[id].hook;
    var cleared := s.(db := ExpireForExecution(s.db, id));
    if hook in config && HoldsLock(cleared.db, hook, id)
    then GiveUpLock(config[hook], cleared, hook, id)
    else cleared
  }

  function Reject(config: Config, s: State, id: Id): State {
    if !HasStatus(s.db, id, PendingApproval) then s
    else Withdraw(config, s.(db := Transition(s.db, id, PendingApproval, Rejected)), id)
  }

  /**
   The sweep's work on one row of its list, as written: mark_expired does not say whether it changed
   the row, so the rest runs in any case.
   */
  function SweepRow(config: Config, s: State, id: Id): State {
    if id !in s.db.executions then s
    else Withdraw(config, s.(db := Transition(s.db, id, PendingApproval, Expired)), id)
  }

  /** The sweep's work on a row that is still pending approval when its turn comes. */
  function Expire(config: Config, s: State, id: Id): State {
    if HasStatus(s.db, id, PendingApproval) && Knows(config, s, id)
       && config[s.db.executions[id].hook].approval.Some?
       && config[s.db.executions[id].hook].approval.value.timeout.Some?
    then SweepRow(config, s, id)
    else s
  }

  // ----- Runs -----

  datatype Step =
    | TriggerStep(hook: Slug, id: Id)
    | StartStep(id: Id, logsReady: bool)
    | ExitStep(id: Id, status: Status, exitCode: Option<int>)
    | RetryStep(id: Id)
    | CompleteStep(id: Id)
    | ApproveStep(id: Id)
    | RejectStep(id: Id)
    | ExpireStep(id: Id)

  function Apply(config: Config, s: State, step: Step): State {
    match step
    case TriggerStep(hook, id) => Trigger(config, s, hook, id).0
    case StartStep(id, logsReady) => StartTask(s, id, logsReady)
    case ExitStep(id, status, exitCode) => ExitTask(config, s, id, status, exitCode)
    case RetryStep(id) => RetryTask(s, id)
    case CompleteStep(id) => CompleteTask(config, s, id)
    case ApproveStep(id) => Approve(config, s, id)
    case RejectStep(id) => Reject(config, s, id)
    case ExpireStep(id) => Expire(config, s, id)
  }

  function Run(config: Config, s: State, steps: seq<Step>): State {
    if steps == [] then s
    else Apply(config, Run(config, s, steps[..|steps| - 1]), steps[|steps| - 1])
  }

  // ----- The application -----

  /** The application state: the store, the live tasks and, for proofs only, the log. */
  class App {
    const config: Config
    const store: Store
    var tasks: map<Id, Task>
    ghost var log: Log

    ghost function Now(): State
      reads this, store
    {
      State(store.Snapshot(), tasks, log)
    }

    constructor (config: Config)
      ensures this.config == config && Now() == INITIAL && fresh(store)
    {
      this.config := config;
      store := new Store();
      tasks := map[];
      log := INITIAL.log;
    }

    method Complete(hook: Slug, ghost id: Id)
      requires hook in config
      modifies this, store
      ensures Now() == GiveUpLock(config[hook], old(Now()), hook, id)
    {
      ghost var was := Now();
      log := log.(finished := Append(log.finished, hook, id));
      if !config[hook].Queues() {
        store.ReleaseLock(hook);
        return;
      }
      var rows := if hook in store.queue then store.queue[hook] else [];
      var next := PeekNext(rows);
      match next
      case None =>
        store.ReleaseLock(hook);
      case Some(row) =>
        var queued := rows[row].execution;
        store.HandOffLock(hook, queued);
        store.MarkEntryReady(hook, row);
        if config[hook].RequiresApproval() {
          var _ := store.TransitionExecution(queued, Pending, PendingApproval);
          return;
        }
        tasks := tasks[queued := Task(Starting, 0)];
    }

    method TriggerHook(hook: Slug, id: Id) returns (outcome: Outcome)
      modifies this, store
      ensures (Now(), outcome) == Trigger(config, old(Now()), hook, id)
    {
      if hook !in config || id in store.executions {
        return Ignored;
      }
      if config[hook].Exclusive() {
        var acquired := store.TryAcquireLock(hook, id);
        if !acquired {
          if config[hook].concurrency.value.mode == Mutex {
            return Refused(0);
          }
          var waiting := CountWaiting(if hook in store.queue then store.queue[hook] else []);
          if waiting >= config[hook].concurrency.value.queueDepth {
            return Refused(waiting);
          }
          var _ := store.CreateExecution(id, hook, Pending);
          var position := store.EnqueueExecution(hook, id);
          log := log.(admitted := Append(log.admitted, hook, id));
          return Queued(position);
        }
        log := log.(admitted := Append(log.admitted, hook, id));
      }
      if config[hook].RequiresApproval() {
        var _ := store.CreateExecution(id, hook, PendingApproval);
        return AwaitingApproval;
      }
      var _ := store.CreateExecution(id, hook, Pending);
      tasks := tasks[id := Task(Starting, 0)];
      return Spawned;
    }

    method RunStart(id: Id, logsReady: bool)
      modifies this, store
      ensures Now() == StartTask(old(Now()), id, logsReady)
    {
      if !(id in tasks && tasks[id].phase == Starting) {
        return;
      }
      var running := false;
      if logsReady {
        running := store.TransitionExecution(id, Pending, Running);
      }
      if running {
        tasks := tasks[id := tasks[id].(phase := Commanding)];
        ghost var hook := store.executions[id].hook;
        if id !in At(log.started, hook) {
          log := log.(started := Append(log.started, hook, id));
        }
      } else {
        tasks := tasks[id := tasks[id].(phase := Finishing)];
      }
    }

    method RunExit(id: Id, status: Status, exitCode: Option<int>)
      modifies this, store
      ensures Now() == ExitTask(config, old(Now()), id, status, exitCode)
    {
      if !(id in tasks && tasks[id].phase == Commanding)
         || !(id in store.executions && store.executions[id].hook in config)
         || status !in {Success, Failed, TimedOut} {
        return;
      }
      var retries := config[store.executions[id].hook].retries;
      var _ := store.CompleteExecution(id, status, exitCode);
      if status == Failed && exitCode.Some? && tasks[id].attempt < retries {
        tasks := tasks[id := tasks[id].(phase := Retrying)];
      } else {
        tasks := tasks[id := tasks[id].(phase := Finishing)];
      }
    }

    method RunRetry(id: Id)
      modifies this, store
      ensures Now() == RetryTask(old(Now()), id)
    {
      if !(id in tasks && tasks[id].phase == Retrying) {
        return;
      }
      store.IncrementRetries(id);
      var _ := store.ResetExecution(id);
      tasks := tasks[id := Task(Starting, tasks[id].attempt + 1)];
    }

    method RunComplete(id: Id)
      modifies this, store
      ensures Now() == CompleteTask(config, old(Now()), id)
    {
      if !(id in tasks && tasks[id].phase == Finishing)
         || !(id in store.executions && store.executions[id].hook in config) {
        return;
      }
      var hook := store.executions[id].hook;
      tasks := tasks - {id};
      if config[hook].Exclusive() {
        Complete(hook, id);
      }
    }

    method ApproveExecution(id: Id) returns (accepted: bool)
      modifies this, store
      ensures Now() == Approve(config, old(Now()), id)
      ensures accepted <==> old(HasStatus(store.Snapshot(), id, PendingApproval))
    {
      accepted := store.TransitionExecution(id, PendingApproval, Approved);
      if !accepted {
        return;
      }
      log := log.(approved := log.approved + {id});
      if store.executions[id].hook in config {
        var _ := store.TransitionExecution(id, Approved, Pending);
        tasks := tasks[id := Task(Starting, 0)];
      }
    }

    method WithdrawExecution(id: Id)
      requires id in store.executions
      modifies this, store
      ensures Now() == Withdraw(config, old(Now()), id)
    {
      var hook := store.executions[id].hook;
      store.ExpireEntryFor(id);
      if hook in config {
        var holder := store.GetHolder(hook);
        if holder == Some(id) {
          Complete(hook, id);
        }
      }
    }

    method RejectExecution(id: Id) returns (accepted: bool)
      modifies this, store
      ensures Now() == Reject(config, old(Now()), id)
      ensures accepted <==> old(HasStatus(store.Snapshot(), id, PendingApproval))
    {
      accepted := store.TransitionExecution(id, PendingApproval, Rejected);
      if accepted {
        WithdrawExecution(id);
      }
    }

    /** The sweep's work on one row of its list, whatever became of the row since it was listed. */
    method SweepExecution(id: Id)
      modifies this, store
      ensures Now() == SweepRow(config, old(Now()), id)
    {
      if id in store.executions {
        var _ := store.TransitionExecution(id, PendingApproval, Expired);
        WithdrawExecution(id);
      }
    }

    /** The sweep over one execution: listed if it awaits approval on a hook with a timeout, then worked on. */
    method ExpirePending(id: Id)
      modifies this, store
      ensures Now() == Expire(config, old(Now()), id)
    {
      if id in store.executions && store.executions[id].hook in config {
        var hook := config[store.executions[id].hook];
        var listed := hook.approval.Some? && hook.approval.value.timeout.Some?
          && store.executions[id].status == PendingApproval;
        if listed {
          SweepExecution(id);
        }
      }
    }
  }
}
