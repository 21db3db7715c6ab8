/**
 What each handler does to the row of its execution and to its task, column by column, and what that comes to
 over whole runs: the stored result of an execution is that of its last exit, and its retry counter
 counts its retries.
 */
module Lifecycle {
  import opened Options
  import opened Database
  import opened Server
  import opened Fifo

  // ----- One step -----

  /** A task that is ready starts its command; otherwise it ends with its row as it was. */
  lemma StartRuns(config: Config, s: State, id: Id, logsReady: bool)
    requires id in s.tasks && s.tasks[id].phase == Starting && id in s.db.executions
    ensures var row, attempt := s.db.executions[id], s.tasks[id].attempt;
      var t := Apply(config, s, StartStep(id, logsReady));
      if logsReady && row.status == Pending then
        && t.db == s.db.(executions := s.db.executions[id := Execution(row.hook, Running, row.exitCode, row.retryCount)])
        && t.tasks == s.tasks[id := Task(Commanding, attempt)]
        && At(t.log.started, row.hook)
           == At(s.log.started, row.hook) + if id in At(s.log.started, row.hook) then [] else [id]
      else
        t == s.(tasks := s.tasks[id := Task(Finishing, attempt)])
  {
  }

  /** The end of a command is stored as it is; only a failure with an exit code is retried, and only so often. */
  lemma ExitStores(config: Config, s: State, id: Id, status: Status, exitCode: Option<int>)
    requires id in s.tasks && s.tasks[id].phase == Commanding
    requires id in s.db.executions && s.db.executions[id].status == Running && s.db.executions[id].hook in config
    requires status in {Success, Failed, TimedOut}
    ensures var row, attempt := s.db.executions[id], s.tasks[id].attempt;
      var again := status == Failed && exitCode.Some? && attempt < config[row.hook].retries;
      Apply(config, s, ExitStep(id, status, exitCode))
      == s.(db := s.db.(executions := s.db.executions[id := Execution(row.hook, status, exitCode, row.retryCount)]),
            tasks := s.tasks[id := Task(if again then Retrying else Finishing, attempt)])
  {
  }

  /** A retry is counted, and the row is as before the first attempt. */
  lemma RetryResets(config: Config, s: State, id: Id)
    requires id in s.tasks && s.tasks[id].phase == Retrying && id in s.db.executions
    ensures var row, attempt := s.db.executions[id], s.tasks[id].attempt;
      Apply(config, s, RetryStep(id))
      == s.(db := s.db.(executions := s.db.executions[id := Execution(row.hook, Pending, None, row.retryCount + 1)]),
            tasks := s.tasks[id := Task(Starting, attempt + 1)])
  {
  }

  /** An approval counts only while it is awaited; then it makes the execution ready to run. */
  lemma ApproveSpawns(config: Config, s: State, id: Id)
    requires id in s.db.executions && s.db.executions[id].hook in config
    ensures var row := s.db.executions[id];
      Apply(config, s, ApproveStep(id))
      == if row.status != PendingApproval then s
         else s.(db := s.db.(executions := s.db.executions[id := Execution(row.hook, Pending, row.exitCode, row.retryCount)]),
                 tasks := s.tasks[id := Task(Starting, 0)],
                 log := s.log.(approved := s.log.approved + {id}))
  {
    var row := s.db.executions[id];
    assert s.db.executions[id := row.(status := Approved)][id := row.(status := Pending)]
        == s.db.executions[id := row.(status := Pending)];
  }

  /** A hand-over does not touch the rows and tasks of those who do not wait. */
  lemma HandOverSpares(config: Config, s: State, hook: Slug, id: Id)
    requires hook in config && config[hook].Exclusive() && QueueOk(config, s, hook) && hook in s.db.locks
    requires id !in Waiters(s, hook) && id in s.db.executions
    ensures var t := GiveUpLock(config[hook], s, hook, s.db.locks[hook]);
      && id in t.db.executions && t.db.executions[id] == s.db.executions[id]
      && (id in t.tasks <==> id in s.tasks) && (id in s.tasks ==> t.tasks[id] == s.tasks[id])
  {
    GiveUpHandsOver(config, s, hook);
  }

  /** The status that a decision against an execution gives it; an expiry takes a hook with an approval timeout. */
  function Refusal(config: Config, hook: Slug, step: Step): Option<Status> {
    match step
    case RejectStep(_) => Some(Rejected)
    case ExpireStep(_) =>
      if hook in config && config[hook].approval.Some? && config[hook].approval.value.timeout.Some? then Some(Expired) else None
    case _ => None
  }

  /** A decision against an execution counts only while a decision is awaited; then only its status changes. */
  lemma RefusalStores(config: Config, s: State, step: Step)
    requires Inv(config, s) && (step.RejectStep? || step.ExpireStep?) && step.id in s.db.executions
    ensures var row := s.db.executions[step.id];
      var t, refusal := Apply(config, s, step), Refusal(config, row.hook, step);
      if row.status == PendingApproval && refusal.Some? then
        step.id in t.db.executions && t.db.executions[step.id] == row.(status := refusal.value)
      else t == s
  {
    var row := s.db.executions[step.id];
    assert ExecutionOk(config, s, step.id);
    if row.status == PendingApproval && Refusal(config, row.hook, step).Some? {
      var status := Refusal(config, row.hook, step).value;
      var t := s.(db := Transition(s.db, step.id, PendingApproval, status));
      WithdrawMoves(config, s, step.id, status);
      MovePreserves(config, s, t, step.id);
      ExpireIsIdle(config, t, step.id);
      if HoldsLock(t.db, row.hook, step.id) {
        assert LockOk(config, s, row.hook);
        HolderSpared(config, t, row.hook, step.id);
      }
    }
  }

  /** The end of a task leaves its row alone. */
  lemma CompleteKeepsRow(config: Config, s: State, id: Id)
    requires Inv(config, s) && id in s.tasks && s.tasks[id].phase == Finishing
    ensures var t := CompleteTask(config, s, id);
      id !in t.tasks && id in t.db.executions && t.db.executions[id] == s.db.executions[id]
  {
    var t := s.(tasks := s.tasks - {id});
    var hook := s.db.executions[id].hook;
    TaskEnds(config, s, id);
    if config[hook].Exclusive() {
      HolderSpared(config, t, hook, id);
    }
  }

  lemma TaskEnds(config: Config, s: State, id: Id)
    requires Inv(config, s) && id in s.tasks && s.tasks[id].phase == Finishing
    ensures var t := s.(tasks := s.tasks - {id});
      var hook := s.db.executions[id].hook;
      && Knows(config, s, id) && Consistent(config, t) && BelongsTo(t, hook, id)
      && (config[hook].Exclusive() ==> HoldsLock(t.db, hook, id))
      && CompleteTask(config, s, id) == if config[hook].Exclusive() then GiveUpLock(config[hook], t, hook, id) else t
  {
    EndedMoves(config, s, id);
    assert ExecutionOk(config, s, id);
    MovePreserves(config, s, s.(tasks := s.tasks - {id}), id);
  }

  lemma HolderSpared(config: Config, s: State, hook: Slug, id: Id)
    requires Consistent(config, s) && HoldsLock(s.db, hook, id) && hook in config && config[hook].Exclusive()
    requires BelongsTo(s, hook, id)
    ensures var t := GiveUpLock(config[hook], s, hook, id);
      && id in t.db.executions && t.db.executions[id] == s.db.executions[id]
      && (id in t.tasks <==> id in s.tasks) && (id in s.tasks ==> t.tasks[id] == s.tasks[id])
  {
    assert HookOk(config, s, hook);
    HolderNotWaiting(config, s, hook, id);
    HandOverSpares(config, s, hook, id);
  }

  // ----- Whole runs -----

  /** The exit that the execution's row stores: the last one, unless a retry has reset the row since. */
  function LastExit(config: Config, steps: seq<Step>, id: Id): Option<(Status, Option<int>)> {
    if steps == [] then None
    else
      var init, step := steps[..|steps| - 1], steps[|steps| - 1];
      var s := Run(config, INITIAL, init);
      if step.ExitStep? && step.id == id && id in s.tasks && s.tasks[id].phase == Commanding
         && step.status in {Success, Failed, TimedOut}
      then Some((step.status, step.exitCode))
      else if step.RetryStep? && step.id == id && id in s.tasks && s.tasks[id].phase == Retrying then None
      else LastExit(config, init, id)
  }

  /** How often the execution was retried. */
  function Retries(config: Config, steps: seq<Step>, id: Id): nat {
    if steps == [] then 0
    else
      var init, step := steps[..|steps| - 1], steps[|steps| - 1];
      var s := Run(config, INITIAL, init);
      Retries(config, init, id)
      + if step.RetryStep? && step.id == id && id in s.tasks && s.tasks[id].phase == Retrying then 1 else 0
  }

  predicate InCommand(s: State, id: Id) {
    id in s.tasks && s.tasks[id].phase in {Commanding, Retrying}
  }

  /** The row of an execution is what its exits and retries so far say. */
  predicate RowSays(config: Config, s: State, id: Id, last: Option<(Status, Option<int>)>, retries: nat) {
    if id !in s.db.executions then last.None? && retries == 0
    else
      var row := s.db.executions[id];
      && (match last
          case Some((status, exitCode)) =>
            row.status == status && row.exitCode == exitCode && status in {Success, Failed, TimedOut}
          case None => row.status !in {Success, Failed, TimedOut} && row.exitCode == None)
      && row.retryCount == retries && row.hook in config && retries <= config[row.hook].retries
      && (id in s.tasks ==> s.tasks[id].attempt == retries)
      && (id in s.tasks && s.tasks[id].phase == Retrying ==> retries < config[row.hook].retries)
      && (retries > 0 || last.Some? || InCommand(s, id) ==> id in At(s.log.started, row.hook))
  }

  /** Nothing of the execution has changed. */
  ghost predicate Untouched(s: State, t: State, id: Id) {
    && (id in t.db.executions <==> id in s.db.executions)
    && (id in s.db.executions ==> t.db.executions[id] == s.db.executions[id])
    && (id in t.tasks ==> id in s.tasks && t.tasks[id] == s.tasks[id])
    && forall hook :: id in At(s.log.started, hook) ==> id in At(t.log.started, hook)
  }

  lemma UntouchedSays(config: Config, s: State, t: State, id: Id, last: Option<(Status, Option<int>)>, retries: nat)
    requires RowSays(config, s, id, last, retries) && Untouched(s, t, id)
    ensures RowSays(config, t, id, last, retries)
  {
  }

  /** A hand-over touches only the first in line, which has not started. */
  lemma HandOverSays(config: Config, s: State, hook: Slug, id: Id, last: Option<(Status, Option<int>)>, retries: nat)
    requires hook in config && config[hook].Exclusive() && QueueOk(config, s, hook) && hook in s.db.locks
    requires RowSays(config, s, id, last, retries)
    ensures RowSays(config, GiveUpLock(config[hook], s, hook, s.db.locks[hook]), id, last, retries)
  {
    GiveUpHandsOver(config, s, hook);
    var waiters := Waiters(s, hook);
    if waiters != [] && id == waiters[0] {
      assert WaitsOk(s, hook, id);
    }
  }

  lemma TriggerSays(config: Config, s: State, hook: Slug, id: Id, other: Id, last: Option<(Status, Option<int>)>, retries: nat)
    requires Inv(config, s) && RowSays(config, s, other, last, retries)
    ensures RowSays(config, Trigger(config, s, hook, id).0, other, last, retries)
  {
    if hook in config && id !in s.db.executions {
      TriggerCases(config, s, hook, id);
      assert id in s.tasks ==> TaskOk(s, id);
    }
  }

  lemma CompleteSays(config: Config, s: State, id: Id, other: Id, last: Option<(Status, Option<int>)>, retries: nat)
    requires Inv(config, s) && RowSays(config, s, other, last, retries)
    ensures RowSays(config, CompleteTask(config, s, id), other, last, retries)
  {
    if InPhase(s, id, Finishing) && Knows(config, s, id) {
      var t, hook := s.(tasks := s.tasks - {id}), s.db.executions[id].hook;
      EndedMoves(config, s, id);
      MovePreserves(config, s, t, id);
      UntouchedSays(config, s, t, other, last, retries);
      if config[hook].Exclusive() {
        assert ExecutionOk(config, s, id) && HookOk(config, t, hook);
        HandOverSays(config, t, hook, other, last, retries);
      }
    }
  }

  lemma WithdrawSays(config: Config, s: State, id: Id, status: Status, other: Id, last: Option<(Status, Option<int>)>, retries: nat)
    requires Inv(config, s) && RowSays(config, s, other, last, retries)
    requires HasStatus(s.db, id, PendingApproval) && status in {Rejected, Expired}
    ensures RowSays(config, Withdraw(config, s.(db := Transition(s.db, id, PendingApproval, status)), id), other, last, retries)
  {
    var t, hook := s.(db := Transition(s.db, id, PendingApproval, status)), s.db.executions[id].hook;
    WithdrawMoves(config, s, id, status);
    MovePreserves(config, s, t, id);
    ExpireIsIdle(config, t, id);
    if HoldsLock(t.db, hook, id) {
      assert LockOk(config, t, hook) && HookOk(config, t, hook);
      HandOverSays(config, t, hook, other, last, retries);
    }
  }

  lemma RefusalSays(config: Config, s: State, step: Step, other: Id, last: Option<(Status, Option<int>)>, retries: nat)
    requires Inv(config, s) && RowSays(config, s, other, last, retries) && (step.RejectStep? || step.ExpireStep?)
    ensures RowSays(config, Apply(config, s, step), other, last, retries)
  {
    if HasStatus(s.db, step.id, PendingApproval) {
      WithdrawSays(config, s, step.id, if step.RejectStep? then Rejected else Expired, other, last, retries);
    }
  }

  lemma ApproveSays(config: Config, s: State, id: Id, last: Option<(Status, Option<int>)>, retries: nat)
    requires Inv(config, s) && RowSays(config, s, id, last, retries)
    ensures RowSays(config, Approve(config, s, id), id, last, retries)
  {
    if HasStatus(s.db, id, PendingApproval) {
      assert ExecutionOk(config, s, id);
      ApproveSpawns(config, s, id);
    }
  }

  lemma StartSays(config: Config, s: State, id: Id, logsReady: bool, last: Option<(Status, Option<int>)>, retries: nat)
    requires Inv(config, s) && RowSays(config, s, id, last, retries)
    ensures RowSays(config, StartTask(s, id, logsReady), id, last, retries)
  {
    if id in s.tasks && s.tasks[id].phase == Starting {
      assert TaskOk(s, id);
      StartRuns(config, s, id, logsReady);
    }
  }

  lemma ExitSays(config: Config, s: State, id: Id, status: Status, exitCode: Option<int>, last: Option<(Status, Option<int>)>, retries: nat)
    requires Inv(config, s) && RowSays(config, s, id, last, retries)
    requires id in s.tasks && s.tasks[id].phase == Commanding && status in {Success, Failed, TimedOut}
    ensures RowSays(config, ExitTask(config, s, id, status, exitCode), id, Some((status, exitCode)), retries)
  {
    assert TaskOk(s, id);
    ExitStores(config, s, id, status, exitCode);
  }

  lemma RetrySays(config: Config, s: State, id: Id, last: Option<(Status, Option<int>)>, retries: nat)
    requires Inv(config, s) && RowSays(config, s, id, last, retries)
    requires id in s.tasks && s.tasks[id].phase == Retrying
    ensures RowSays(config, RetryTask(s, id), id, None, retries + 1)
  {
    assert TaskOk(s, id);
    RetryResets(config, s, id);
  }

  /** The steps of the execution's own task. */
  lemma TaskSays(config: Config, steps: seq<Step>, step: Step)
    requires step.StartStep? || step.ExitStep? || step.RetryStep?
    requires Inv(config, Run(config, INITIAL, steps))
    requires RowSays(config, Run(config, INITIAL, steps), step.id, LastExit(config, steps, step.id), Retries(config, steps, step.id))
    ensures var more := steps + [step];
      RowSays(config, Apply(config, Run(config, INITIAL, steps), step), step.id,
              LastExit(config, more, step.id), Retries(config, more, step.id))
  {
    var s, id := Run(config, INITIAL, steps), step.id;
    var last, retries := LastExit(config, steps, id), Retries(config, steps, id);
    assert (steps + [step])[..|steps|] == steps;
    match step
    case StartStep(_, logsReady) => StartSays(config, s, id, logsReady, last, retries);
    case ExitStep(_, status, exitCode) =>
      if id in s.tasks && s.tasks[id].phase == Commanding && status in {Success, Failed, TimedOut} {
        ExitSays(config, s, id, status, exitCode, last, retries);
      }
    case RetryStep(_) =>
      if id in s.tasks && s.tasks[id].phase == Retrying {
        RetrySays(config, s, id, last, retries);
      }
  }

  lemma OthersUntouched(config: Config, s: State, step: Step, other: Id)
    requires step.StartStep? || step.ExitStep? || step.RetryStep? || step.ApproveStep?
    requires step.id != other
    ensures Untouched(s, Apply(config, s, step), other)
  {
  }

  lemma StepSays(config: Config, steps: seq<Step>, step: Step, id: Id)
    requires Inv(config, Run(config, INITIAL, steps))
    requires RowSays(config, Run(config, INITIAL, steps), id, LastExit(config, steps, id), Retries(config, steps, id))
    ensures var more := steps + [step];
      RowSays(config, Apply(config, Run(config, INITIAL, steps), step), id, LastExit(config, more, id), Retries(config, more, id))
  {
    var s := Run(config, INITIAL, steps);
    assert (steps + [step])[..|steps|] == steps;
    match step
    case TriggerStep(hook, entrant) => TriggerSays(config, s, hook, entrant, id, LastExit(config, steps, id), Retries(config, steps, id));
    case CompleteStep(done) => CompleteSays(config, s, done, id, LastExit(config, steps, id), Retries(config, steps, id));
    case RejectStep(_) => RefusalSays(config, s, step, id, LastExit(config, steps, id), Retries(config, steps, id));
    case ExpireStep(_) => RefusalSays(config, s, step, id, LastExit(config, steps, id), Retries(config, steps, id));
    case _ =>
      if step.id != id {
        OthersUntouched(config, s, step, id);
        UntouchedSays(config, s, Apply(config, s, step), id, LastExit(config, steps, id), Retries(config, steps, id));
      } else if step.ApproveStep? {
        ApproveSays(config, s, id, LastExit(config, steps, id), Retries(config, steps, id));
      } else {
        TaskSays(config, steps, step);
      }
  }

  lemma {:induction false} RunSays(config: Config, steps: seq<Step>, id: Id)
    ensures Inv(config, Run(config, INITIAL, steps))
    ensures RowSays(config, Run(config, INITIAL, steps), id, LastExit(config, steps, id), Retries(config, steps, id))
  {
    InitialHolds(config);
    RunPreserves(config, INITIAL, steps);
    if steps != [] {
      var init, step := steps[..|steps| - 1], steps[|steps| - 1];
      RunSays(config, init, id);
      StepSays(config, init, step, id);
      assert init + [step] == steps;
    }
  }

  /**
   After any run the row of an execution stores exactly the result of its last exit, or none if it has not
   exited since it was created or retried; its counter is the number of its retries, which never
   exceeds what its hook allows.
   */
  lemma StoredResult(config: Config, steps: seq<Step>, id: Id)
    requires id in Run(config, INITIAL, steps).db.executions
    ensures var row := Run(config, INITIAL, steps).db.executions[id];
      && (row.status in {Success, Failed, TimedOut} <==> LastExit(config, steps, id).Some?)
      && (LastExit(config, steps, id).Some? ==> LastExit(config, steps, id) == Some((row.status, row.exitCode)))
      && (LastExit(config, steps, id).None? ==> row.exitCode == None)
      && row.retryCount == Retries(config, steps, id)
      && row.hook in config && row.retryCount <= config[row.hook].retries
  {
    RunSays(config, steps, id);
  }
}
