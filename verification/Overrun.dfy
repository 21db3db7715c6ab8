/**
 Which steps can let more executions wait than the queue is deep: only the enqueue of a trigger that counted
 before others joined, since the count is not taken again.
 */
module Overrun {
  import opened Database
  import opened QueueShape
  import opened Interleaving
  import opened Exclusion
  import opened Statements
  import opened Barrier
  import opened Stranded

  predicate WithinDepth(config: Config, db: Db, hook: Slug)
    requires hook in config && config[hook].Queues()
  {
    CountWaiting(Rows(db, hook)) <= config[hook].concurrency.value.queueDepth
  }

  /** An enqueue when the queue is full. */
  predicate StepOverruns(config: Config, w: World, step: Step, hook: Slug)
    requires hook in config && config[hook].Queues()
  {
    && step.AdvanceStep? && step.actor in w.actors
    && var a := w.actors[step.actor];
       a.EnqueueRow? && a.hook == hook && CountWaiting(Rows(w.db, hook)) >= config[hook].concurrency.value.queueDepth
  }

  lemma TriggerCounts(config: Config, w: World, actor: nat, a: Actor, hook: Slug)
    requires At(config, w, actor, a) && (BeforeInsert(a) || a.EnqueueRow?)
    ensures CountWaiting(Rows(AdvanceTrigger(config[a.hook], w, actor, a).db, hook))
            == CountWaiting(Rows(w.db, hook)) + if a.EnqueueRow? && a.hook == hook then 1 else 0
  {
    var t := AdvanceTrigger(config[a.hook], w, actor, a);
    if a.EnqueueRow? && a.hook == hook {
      var rows := Rows(w.db, hook);
      CountAppend(rows, QueueEntry(a.id, MaxPosition(rows) + 1, Waiting));
    } else {
      assert Rows(t.db, hook) == Rows(w.db, hook);
    }
  }

  lemma CompletionCounts(config: Config, w: World, actor: nat, a: Actor, hook: Slug)
    requires At(config, w, actor, a) && Completes(a) && QueueOk(config, w, hook)
    ensures CountWaiting(Rows(AdvanceCompletion(config[a.hook], w, actor, a).db, hook)) <= CountWaiting(Rows(w.db, hook))
  {
    var t := AdvanceCompletion(config[a.hook], w, actor, a);
    if a.ReadyRow? && a.hook == hook {
      ReadyKeepsShape(Rows(w.db, hook));
    } else {
      assert Rows(t.db, hook) == Rows(w.db, hook);
    }
  }

  /** While no more wait than the queue is deep, a step keeps it so if and only if it is not an enqueue in a full queue. */
  lemma OverrunsExact(config: Config, w: World, step: Step, hook: Slug)
    requires Inv(config, w) && hook in config && config[hook].Queues() && WithinDepth(config, w.db, hook)
    ensures WithinDepth(config, Apply(config, w, step).db, hook) <==> !StepOverruns(config, w, step, hook)
  {
    match step
    case ArriveStep(actor, request) =>
    case CrashStep => CrashTakes(config, w, hook);
    case AdvanceStep(actor, choice) =>
      if actor in w.actors {
        var a := w.actors[actor];
        assert ActorOk(config, w, a) && QueueOk(config, w, hook);
        if Runs(a) {
          RunServes(config, w, actor, a, choice);
        } else if Completes(a) {
          CompletionCounts(config, w, actor, a, hook);
        } else if Decides(a) {
          DecisionServes(config, w, actor, a);
        } else {
          TriggerCounts(config, w, actor, a, hook);
        }
      }
  }

  predicate AlwaysWithin(config: Config, steps: seq<Step>, hook: Slug)
    requires hook in config && config[hook].Queues()
  {
    forall n :: 0 <= n <= |steps| ==> WithinDepth(config, Run(config, INITIAL, steps[..n]).db, hook)
  }

  predicate NeverOverruns(config: Config, steps: seq<Step>, hook: Slug)
    requires hook in config && config[hook].Queues()
  {
    forall n :: 0 <= n < |steps| ==> !StepOverruns(config, Run(config, INITIAL, steps[..n]), steps[n], hook)
  }

  lemma PrefixWithin(config: Config, steps: seq<Step>, hook: Slug, n: nat)
    requires hook in config && config[hook].Queues() && n < |steps|
    requires WithinDepth(config, Run(config, INITIAL, steps[..n]).db, hook)
    ensures WithinDepth(config, Run(config, INITIAL, steps[..n + 1]).db, hook)
       <==> !StepOverruns(config, Run(config, INITIAL, steps[..n]), steps[n], hook)
  {
    Reachable(config, steps[..n]);
    OverrunsExact(config, Run(config, INITIAL, steps[..n]), steps[n], hook);
    assert steps[..n + 1][..n] == steps[..n];
  }

  lemma {:induction false} WithinUpTo(config: Config, steps: seq<Step>, hook: Slug, n: nat)
    requires hook in config && config[hook].Queues() && n <= |steps| && NeverOverruns(config, steps, hook)
    ensures WithinDepth(config, Run(config, INITIAL, steps[..n]).db, hook)
  {
    if n > 0 {
      WithinUpTo(config, steps, hook, n - 1);
      PrefixWithin(config, steps, hook, n - 1);
    }
  }

  /** Over a whole run, crashes included: the depth is respected throughout if and only if nobody enqueues in a full queue. */
  lemma DepthExact(config: Config, steps: seq<Step>, hook: Slug)
    requires hook in config && config[hook].Queues()
    ensures AlwaysWithin(config, steps, hook) <==> NeverOverruns(config, steps, hook)
  {
    if NeverOverruns(config, steps, hook) {
      forall n | 0 <= n <= |steps| ensures WithinDepth(config, Run(config, INITIAL, steps[..n]).db, hook) {
        WithinUpTo(config, steps, hook, n);
      }
    }
    if AlwaysWithin(config, steps, hook) {
      forall n | 0 <= n < |steps| ensures !StepOverruns(config, Run(config, INITIAL, steps[..n]), steps[n], hook) {
        PrefixWithin(config, steps, hook, n);
      }
    }
  }
}
