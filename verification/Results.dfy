/**
 What the statements store about the end of a command: over every run of statements and crashes the row of an
 execution holds the result of its last finish, or the failure that the recovery after a crash gives it.
 */
module Results {
  import opened Options
  import opened Database
  import opened Interleaving
  import opened Exclusion
  import opened Recovery
  import opened Barrier

  /** The statement that ends a command stores its result as it is; a failure with an exit code may be retried. */
  lemma FinishStores(config: Config, w: World, p: nat, hook: Slug, id: Id, attempt: nat, choice: Choice)
    requires hook in config && p in w.actors && w.actors[p] == FinishCommand(hook, id, attempt)
    requires HasStatus(w.db, id, Running) && choice.status in {Success, Failed, TimedOut}
    ensures var row, t := w.db.executions[id], Advance(config, w, p, choice);
      var again := choice.status == Failed && choice.exitCode.Some? && attempt < config[hook].retries;
      && t.db == w.db.(executions :=
           w.db.executions[id := Execution(row.hook, choice.status, choice.exitCode, row.retryCount)])
      && t.actors ==
           if again then w.actors[p := CountRetry(hook, id, attempt + 1)]
           else if config[hook].concurrency.Some? then w.actors[p := PeekQueue(hook, id)]
           else w.actors - {p}
  {
  }

  type Result = Option<(Status, Option<int>)>

  /** The result that a step stores in the row; None if it takes the result away. */
  function Stores(w: World, step: Step, id: Id): Option<Result> {
    match step
    case ArriveStep(_, _) => None
    case CrashStep => if HasStatus(w.db, id, Running) then Some(Some((Failed, None))) else None
    case AdvanceStep(p, choice) =>
      if p !in w.actors then None
      else if w.actors[p].FinishCommand? && w.actors[p].id == id && choice.status in {Success, Failed, TimedOut}
      then Some(Some((choice.status, choice.exitCode)))
      else if w.actors[p].ResetRow? && w.actors[p].id == id then Some(None)
      else None
  }

  /** The result stored last. */
  function LastStored(config: Config, steps: seq<Step>, id: Id): Result {
    if steps == [] then None
    else
      var init := steps[..|steps| - 1];
      match Stores(Run(config, INITIAL, init), steps[|steps| - 1], id)
      case None => LastStored(config, init, id)
      case Some(result) => result
  }

  predicate RowSays(db: Db, id: Id, last: Result) {
    if id !in db.executions then last.None?
    else
      var row := db.executions[id];
      match last
      case Some((status, exitCode)) =>
        row.status == status && row.exitCode == exitCode && status in {Success, Failed, TimedOut}
      case None => row.status !in {Success, Failed, TimedOut} && row.exitCode == None
  }

  lemma TriggerSays(config: Config, w: World, p: nat, a: Actor, id: Id, last: Result)
    requires BeforeInsert(a) || a.EnqueueRow?
    requires a.hook in config && RowSays(w.db, id, last)
    ensures RowSays(AdvanceTrigger(config[a.hook], w, p, a).db, id, last)
  {
  }

  lemma CompletionSays(config: Config, w: World, p: nat, a: Actor, id: Id, last: Result)
    requires Completes(a) && a.hook in config && RowSays(w.db, id, last)
    ensures RowSays(AdvanceCompletion(config[a.hook], w, p, a).db, id, last)
  {
  }

  lemma DecisionSays(config: Config, w: World, p: nat, a: Actor, id: Id, last: Result)
    requires a.ApproveRow? || a.ResetApproved? || a.RejectRow? || a.ExpirePendingRow? || a.ExpireEntry? || a.ReadHolder?
    requires RowSays(w.db, id, last)
    ensures RowSays(AdvanceDecision(config, w, p, a).db, id, last)
  {
  }

  lemma CommandSays(config: Config, w: World, p: nat, a: Actor, choice: Choice, id: Id, last: Result)
    requires p in w.actors && w.actors[p] == a && ActorOk(config, w, a) && Runs(a) && RowSays(w.db, id, last)
    ensures var stored := Stores(w, AdvanceStep(p, choice), id);
      RowSays(AdvanceRun(config, w, p, a, choice).db, id, if stored.Some? then stored.value else last)
  {
  }

  lemma CrashSays(w: World, id: Id, last: Result)
    requires RowSays(w.db, id, last)
    ensures var stored := Stores(w, CrashStep, id);
      RowSays(Crash(w).db, id, if stored.Some? then stored.value else last)
  {
    RecoveryRepairs(w.db);
  }

  lemma StepSays(config: Config, w: World, step: Step, id: Id, last: Result)
    requires Inv(config, w) && RowSays(w.db, id, last)
    ensures var stored := Stores(w, step, id);
      RowSays(Apply(config, w, step).db, id, if stored.Some? then stored.value else last)
  {
    match step
    case ArriveStep(p, request) =>
    case CrashStep => CrashSays(w, id, last);
    case AdvanceStep(p, choice) =>
      if p in w.actors {
        var a := w.actors[p];
        assert ActorOk(config, w, a);
        if Runs(a) {
          CommandSays(config, w, p, a, choice, id, last);
        } else if Completes(a) {
          CompletionSays(config, w, p, a, id, last);
        } else if BeforeInsert(a) || a.EnqueueRow? {
          TriggerSays(config, w, p, a, id, last);
        } else {
          DecisionSays(config, w, p, a, id, last);
        }
      }
  }

  lemma {:induction false} RunSays(config: Config, steps: seq<Step>, id: Id)
    ensures RowSays(Run(config, INITIAL, steps).db, id, LastStored(config, steps, id))
  {
    if steps != [] {
      var init := steps[..|steps| - 1];
      RunSays(config, init, id);
      Reachable(config, init);
      StepSays(config, Run(config, INITIAL, init), steps[|steps| - 1], id, LastStored(config, init, id));
    }
  }

  /** After any run of statements and crashes the row stores exactly the result stored last, or none. */
  lemma StoredResult(config: Config, steps: seq<Step>, id: Id)
    requires id in Run(config, INITIAL, steps).db.executions
    ensures var row, last := Run(config, INITIAL, steps).db.executions[id], LastStored(config, steps, id);
      && (row.status in {Success, Failed, TimedOut} <==> last.Some?)
      && (last.Some? ==> last == Some((row.status, row.exitCode)))
      && (last.None? ==> row.exitCode == None)
  {
    RunSays(config, steps, id);
  }
}
