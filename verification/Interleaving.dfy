/**
 The barrier at the granularity of single SQL statements: trigger, run, completion, approval and
 rejection are actors with a program counter, any actor may take the next statement, and the process
 may crash between any two statements and come back through the recovery.

 One assumption is built in: a row of the approval sweep whose status has moved on is skipped
 (module Sweep says what happens otherwise).
 */
module Interleaving {
  import opened Options
  import opened Database

  /** An actor named by the statement it runs next. */
  datatype Actor =
    // trigger_hook and concurrency::evaluate
    | TryLock(hook: Slug, id: Id)
    | CountQueue(hook: Slug, id: Id)
    | InsertQueued(hook: Slug, id: Id)
    | EnqueueRow(hook: Slug, id: Id)
    | InsertAdmitted(hook: Slug, id: Id)
    // run_with_retries
    | StartCommand(hook: Slug, id: Id, attempt: nat)
    | FinishCommand(hook: Slug, id: Id, attempt: nat)
    | CountRetry(hook: Slug, id: Id, attempt: nat)
    | ResetRow(hook: Slug, id: Id, attempt: nat)
    // on_execution_complete
    | PeekQueue(hook: Slug, id: Id)
    | DropLock(hook: Slug, id: Id)
    | PassLock(hook: Slug, id: Id, row: nat, next: Id)
    | ReadyRow(hook: Slug, id: Id, row: nat)
    | AskApproval(hook: Slug, id: Id)
    // approve_execution, reject_execution, expire_pending_approvals
    | ApproveRow(id: Id)
    | ResetApproved(hook: Slug, id: Id)
    | RejectRow(id: Id)
    | ExpirePendingRow(id: Id)
    | ExpireEntry(hook: Slug, id: Id)
    | ReadHolder(hook: Slug, id: Id)

  datatype World = World(
    db: Db,
    actors: map<nat, Actor>,
    used: set<Id>,      // ids handed out so far
    approved: set<Id>,  // ids that somebody approved
    ran: set<Id>)       // ids that were ever running

  const INITIAL := World(EMPTY_DB, map[], {}, {}, {})

  /** What the outside world contributes to an actor's next statement. */
  datatype Choice = Choice(logsReady: bool, status: Status, exitCode: Option<int>)

  function Become(w: World, actor: nat, db: Db, next: Actor): World {
    w.(db := db, actors := w.actors[actor := next])
  }

  function End(w: World, actor: nat, db: Db): World {
    w.(db := db, actors := w.actors - {actor})
  }

  /** The end of run_with_retries: the completion handler, if the hook has a lock. */
  function EndRun(config: Config, w: World, actor: nat, db: Db, hook: Slug, id: Id): World {
    if hook in config && config[hook].Exclusive() then Become(w, actor, db, PeekQueue(hook, id)) else End(w, actor, db)
  }

  function AdvanceTrigger(config: HookConfig, w: World, actor: nat, a: Actor): World
    requires a.TryLock? || a.CountQueue? || a.InsertQueued? || a.EnqueueRow? || a.InsertAdmitted?
  {
    match a
    case TryLock(hook, id) =>
      var (db, acquired) := TryAcquire(w.db, hook, id);
      if acquired then Become(w, actor, db, InsertAdmitted(hook, id))
      else if config.Queues() then Become(w, actor, db, CountQueue(hook, id))
      else End(w, actor, db)
    case CountQueue(hook, id) =>
      if config.Queues() && CountWaiting(Rows(w.db, hook)) < config.concurrency.value.queueDepth
      then Become(w, actor, w.db, InsertQueued(hook, id))
      else End(w, actor, w.db)
    case InsertQueued(hook, id) => Become(w, actor, Create(w.db, id, hook, Pending), EnqueueRow(hook, id))
    case EnqueueRow(hook, id) => End(w, actor, Enqueue(w.db, hook, id))
    case InsertAdmitted(hook, id) =>
      if config.RequiresApproval() then End(w, actor, Create(w.db, id, hook, PendingApproval))
      else Become(w, actor, Create(w.db, id, hook, Pending), StartCommand(hook, id, 0))
  }

  function AdvanceRun(config: Config, w: World, actor: nat, a: Actor, choice: Choice): World
    requires a.StartCommand? || a.FinishCommand? || a.CountRetry? || a.ResetRow?
    requires a.hook in config
  {
    match a
    case StartCommand(hook, id, attempt) =>
      if choice.logsReady && HasStatus(w.db, id, Pending) then
        Become(w, actor, Transition(w.db, id, Pending, Running), FinishCommand(hook, id, attempt)).(ran := w.ran + {id})
      else EndRun(config, w, actor, w.db, hook, id)
    case FinishCommand(hook, id, attempt) =>
      if choice.status !in {Success, Failed, TimedOut} then w
      else
        var db := MarkCompleted(w.db, id, choice.status, choice.exitCode);
        if choice.status == Failed && choice.exitCode.Some? && attempt < config[hook].retries
        then Become(w, actor, db, CountRetry(hook, id, attempt + 1))
        else EndRun(config, w, actor, db, hook, id)
    case CountRetry(hook, id, attempt) => Become(w, actor, IncrementRetryCount(w.db, id), ResetRow(hook, id, attempt))
    case ResetRow(hook, id, attempt) => Become(w, actor, ResetToPending(w.db, id), StartCommand(hook, id, attempt))
  }

  function AdvanceCompletion(config: HookConfig, w: World, actor: nat, a: Actor): World
    requires a.PeekQueue? || a.DropLock? || a.PassLock? || a.ReadyRow? || a.AskApproval?
  {
    match a
    case PeekQueue(hook, id) =>
      if !config.Queues() then End(w, actor, Release(w.db, hook))
      else (
        match PeekNext(Rows(w.db, hook))
        case None => Become(w, actor, w.db, DropLock(hook, id))
        case Some(row) => Become(w, actor, w.db, PassLock(hook, id, row, Rows(w.db, hook)[row].execution))
      )
    case DropLock(hook, id) => End(w, actor, Release(w.db, hook))
    case PassLock(hook, _, row, next) => Become(w, actor, HandOff(w.db, hook, next), ReadyRow(hook, next, row))
    case ReadyRow(hook, id, row) =>
      Become(w, actor, MarkReady(w.db, hook, row),
             if config.RequiresApproval() then AskApproval(hook, id) else StartCommand(hook, id, 0))
    case AskApproval(_, id) => End(w, actor, Transition(w.db, id, Pending, PendingApproval))
  }

  function AdvanceDecision(config: Config, w: World, actor: nat, a: Actor): World
    requires a.ApproveRow? || a.ResetApproved? || a.RejectRow? || a.ExpirePendingRow? || a.ExpireEntry? || a.ReadHolder?
  {
    match a
    case ApproveRow(id) =>
      if !HasStatus(w.db, id, PendingApproval) then End(w, actor, w.db)
      else
        Become(w, actor, Transition(w.db, id, PendingApproval, Approved), ResetApproved(w.db.executions[id].hook, id))
          .(approved := w.approved + {id})
    case ResetApproved(hook, id) =>
      Become(w, actor, Transition(w.db, id, Approved, Pending), StartCommand(hook, id, 0))
    case RejectRow(id) =>
      if !HasStatus(w.db, id, PendingApproval) then End(w, actor, w.db)
      else Become(w, actor, Transition(w.db, id, PendingApproval, Rejected), ExpireEntry(w.db.executions[id].hook, id))
    case ExpirePendingRow(id) =>
      if !HasStatus(w.db, id, PendingApproval) then End(w, actor, w.db)
      else Become(w, actor, Transition(w.db, id, PendingApproval, Expired), ExpireEntry(w.db.executions[id].hook, id))
    case ExpireEntry(hook, id) => Become(w, actor, ExpireForExecution(w.db, id), ReadHolder(hook, id))
    case ReadHolder(hook, id) =>
      if HoldsLock(w.db, hook, id) then Become(w, actor, w.db, PeekQueue(hook, id)) else End(w, actor, w.db)
  }

  /** One statement of one actor. */
  function Advance(config: Config, w: World, actor: nat, choice: Choice): World {
    if actor !in w.actors then w
    else
      var a := w.actors[actor];
      if a.ApproveRow? || a.ResetApproved? || a.RejectRow? || a.ExpirePendingRow? || a.ExpireEntry? || a.ReadHolder? then
        AdvanceDecision(config, w, actor, a)
      else if a.hook !in config then w
      else if a.StartCommand? || a.FinishCommand? || a.CountRetry? || a.ResetRow? then
        AdvanceRun(config, w, actor, a, choice)
      else if a.PeekQueue? || a.DropLock? || a.PassLock? || a.ReadyRow? || a.AskApproval? then
        AdvanceCompletion(config[a.hook], w, actor, a)
      else AdvanceTrigger(config[a.hook], w, actor, a)
  }

  /** A request arrives: a new actor in its first state. */
  function Arrive(config: Config, w: World, actor: nat, a: Actor): World {
    if actor in w.actors then w
    else if a.ApproveRow? || a.RejectRow? || a.ExpirePendingRow? then w.(actors := w.actors[actor := a])
    else if a.TryLock? && a.hook in config && a.id !in w.used then
      w.(used := w.used + {a.id},
         actors := w.actors[actor := if config[a.hook].Exclusive() then a else InsertAdmitted(a.hook, a.id)])
    else w
  }

  /** All actors vanish; the next process recovers before it accepts requests. */
  function Crash(w: World): World {
    w.(db := RecoverBarriers(w.db), actors := map[])
  }

  datatype Step =
    | ArriveStep(actor: nat, request: Actor)
    | AdvanceStep(actor: nat, choice: Choice)
    | CrashStep

  function Apply(config: Config, w: World, step: Step): World {
    match step
    case ArriveStep(actor, request) => Arrive(config, w, actor, request)
    case AdvanceStep(actor, choice) => Advance(config, w, actor, choice)
    case CrashStep => Crash(w)
  }

  function Run(config: Config, w: World, steps: seq<Step>): World {
    if steps == [] then w
    else Apply(config, Run(config, w, steps[..|steps| - 1]), steps[|steps| - 1])
  }
}
