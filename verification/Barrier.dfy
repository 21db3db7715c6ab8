/** What the barrier guarantees over every run of single statements, crashes and recoveries included. */
module Barrier {
  import opened Database
  import opened QueueShape
  import opened Interleaving
  import opened Exclusion
  import opened Statements
  import opened Recovery

  lemma StepPreserves(config: Config, w: World, step: Step)
    requires Inv(config, w)
    ensures Inv(config, Apply(config, w, step))
  {
    match step
    case ArriveStep(actor, request) => ArrivePreserves(config, w, actor, request);
    case CrashStep => CrashPreserves(config, w);
    case AdvanceStep(actor, choice) =>
      if actor in w.actors {
        var a := w.actors[actor];
        assert ActorOk(config, w, a);
        if Runs(a) {
          Statements.RunPreserves(config, w, actor, a, choice);
        } else if Completes(a) {
          CompletionPreserves(config, w, actor, a);
        } else if BeforeInsert(a) || a.EnqueueRow? {
          TriggerPreserves(config, w, actor, a);
        } else {
          DecisionPreserves(config, w, actor, a);
        }
      }
  }

  lemma {:induction false} RunKeeps(config: Config, w: World, steps: seq<Step>)
    requires Inv(config, w)
    ensures Inv(config, Run(config, w, steps))
  {
    if steps != [] {
      RunKeeps(config, w, steps[..|steps| - 1]);
      StepPreserves(config, Run(config, w, steps[..|steps| - 1]), steps[|steps| - 1]);
    }
  }

  lemma Reachable(config: Config, steps: seq<Step>)
    ensures Inv(config, Run(config, INITIAL, steps))
  {
    RunKeeps(config, INITIAL, steps);
  }

  /** Actor `p` is a task of `hook`, before, during or between runs of the command. */
  predicate RunsFor(w: World, p: nat, hook: Slug) {
    p in w.actors && Runs(w.actors[p]) && w.actors[p].hook == hook
  }

  /** Execution `id` of `hook` is live, or a task runs it or is about to. */
  ghost predicate Engaged(w: World, hook: Slug, id: Id) {
    || (BelongsTo(w.db, hook, id) && Live(w.db.executions[id].status))
    || exists p :: RunsFor(w, p, hook) && w.actors[p].id == id
  }

  /**
   Mutual exclusion.  After any run, whatever is engaged on a hook with a concurrency setting is what
   its lock row names; so at most one execution is, and at most one task works on it.
   */
  lemma MutualExclusion(config: Config, steps: seq<Step>, hook: Slug)
    requires hook in config && config[hook].Exclusive()
    ensures var w := Run(config, INITIAL, steps);
      && (forall id :: Engaged(w, hook, id) ==> HoldsLock(w.db, hook, id))
      && (forall id, other :: Engaged(w, hook, id) && Engaged(w, hook, other) ==> id == other)
      && (forall p, q :: RunsFor(w, p, hook) && RunsFor(w, q, hook) ==> p == q)
  {
    var w := Run(config, INITIAL, steps);
    Reachable(config, steps);
    forall id | Engaged(w, hook, id) ensures HoldsLock(w.db, hook, id) {
      if BelongsTo(w.db, hook, id) && Live(w.db.executions[id].status) {
        assert ExecutionOk(config, w, id);
      } else {
        var p :| RunsFor(w, p, hook) && w.actors[p].id == id;
        assert ActorOk(config, w, w.actors[p]);
      }
    }
    forall p, q | RunsFor(w, p, hook) && RunsFor(w, q, hook) ensures p == q {
      OneOwner(config, w, p, q);
    }
  }

  /**
   The queue table.  Positions are 1..n, first the ready rows, then the waiting ones, whose executions
   are all pending and never ran; so expiring the entry of an execution that is past pending changes nothing.
   */
  lemma QueueTable(config: Config, steps: seq<Step>, hook: Slug)
    ensures var w := Run(config, INITIAL, steps);
      && Shaped(Rows(w.db, hook)) && DistinctRows(Rows(w.db, hook))
      && (forall i :: 0 <= i < |Rows(w.db, hook)| && Rows(w.db, hook)[i].status == Waiting ==>
            var id := Rows(w.db, hook)[i].execution; HasStatus(w.db, id, Pending) && id !in w.ran)
      && (forall id :: id in w.db.executions && w.db.executions[id].status != Pending ==> ExpireForExecution(w.db, id) == w.db)
  {
    var w := Run(config, INITIAL, steps);
    Reachable(config, steps);
    assert QueueOk(config, w, hook);
    forall i | 0 <= i < |Rows(w.db, hook)| ensures RowOk(w, hook, Rows(w.db, hook)[i]) {
    }
    forall id | id in w.db.executions && w.db.executions[id].status != Pending ensures ExpireForExecution(w.db, id) == w.db {
      ExpireChangesNothing(config, w, id);
    }
  }

  /** Whatever ever ran under a hook that requires approval was approved; the unapproved never ran. */
  lemma ApprovalGate(config: Config, steps: seq<Step>, id: Id)
    ensures var w := Run(config, INITIAL, steps);
      && (id in w.ran ==> id in w.db.executions && w.db.executions[id].hook in config)
      && (id in w.ran && config[w.db.executions[id].hook].RequiresApproval() ==> id in w.approved)
      && (HasStatus(w.db, id, Running) ==> id in w.ran)
      && (id in w.db.executions && w.db.executions[id].status in {PendingApproval, Approved, Rejected, Expired} ==> id !in w.ran)
  {
    var w := Run(config, INITIAL, steps);
    Reachable(config, steps);
    if id in w.db.executions {
      assert ExecutionOk(config, w, id);
    }
  }

  lemma RunKeepsRefusal(config: Config, w: World, actor: nat, a: Actor, choice: Choice, id: Id, status: Status)
    requires Runs(a) && a.hook in config && HasStatus(w.db, id, status) && status in {Rejected, Expired}
    requires a.ResetRow? ==> a.id != id
    ensures HasStatus(AdvanceRun(config, w, actor, a, choice).db, id, status)
  {
  }

  lemma CompletionKeepsRefusal(config: HookConfig, w: World, actor: nat, a: Actor, id: Id, status: Status)
    requires Completes(a) && HasStatus(w.db, id, status) && status in {Rejected, Expired}
    ensures HasStatus(AdvanceCompletion(config, w, actor, a).db, id, status)
  {
  }

  lemma TriggerKeepsRefusal(config: HookConfig, w: World, actor: nat, a: Actor, id: Id, status: Status)
    requires (BeforeInsert(a) || a.EnqueueRow?) && HasStatus(w.db, id, status)
    ensures HasStatus(AdvanceTrigger(config, w, actor, a).db, id, status)
  {
  }

  lemma DecisionKeepsRefusal(config: Config, w: World, actor: nat, a: Actor, id: Id, status: Status)
    requires a.ApproveRow? || a.ResetApproved? || a.RejectRow? || a.ExpirePendingRow? || a.ExpireEntry? || a.ReadHolder?
    requires HasStatus(w.db, id, status) && status in {Rejected, Expired}
    ensures HasStatus(AdvanceDecision(config, w, actor, a).db, id, status)
  {
  }

  lemma RefusalStays(config: Config, w: World, step: Step, id: Id, status: Status)
    requires Inv(config, w) && HasStatus(w.db, id, status) && status in {Rejected, Expired}
    ensures HasStatus(Apply(config, w, step).db, id, status)
  {
    if step.CrashStep? {
      ThreeSteps(w.db);
    } else if step.AdvanceStep? && step.actor in w.actors {
      var a := w.actors[step.actor];
      assert ActorOk(config, w, a);
      if Runs(a) {
        RunKeepsRefusal(config, w, step.actor, a, step.choice, id, status);
      } else if Completes(a) {
        CompletionKeepsRefusal(config[a.hook], w, step.actor, a, id, status);
      } else if BeforeInsert(a) || a.EnqueueRow? {
        TriggerKeepsRefusal(config[a.hook], w, step.actor, a, id, status);
      } else {
        DecisionKeepsRefusal(config, w, step.actor, a, id, status);
      }
    }
  }

  /** A rejected or expired execution keeps its status whatever happens next, and so never runs. */
  lemma {:induction false} RefusalIsFinal(config: Config, w: World, steps: seq<Step>, id: Id, status: Status)
    requires Inv(config, w) && HasStatus(w.db, id, status) && status in {Rejected, Expired}
    ensures var t := Run(config, w, steps); HasStatus(t.db, id, status) && id !in t.ran
  {
    RunKeeps(config, w, steps);
    if steps != [] {
      var before := Run(config, w, steps[..|steps| - 1]);
      RefusalIsFinal(config, w, steps[..|steps| - 1], id, status);
      RunKeeps(config, w, steps[..|steps| - 1]);
      RefusalStays(config, before, steps[|steps| - 1], id, status);
    }
    assert ExecutionOk(config, Run(config, w, steps), id);
  }
}
