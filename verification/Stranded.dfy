/**
 Which steps can leave a queue without a holder: of all statements of all actors, the drop of the lock under a
 queue that is not empty any more and the enqueue behind a lock that is not held any more; and the crash of
 a holder that runs, or has ended without giving up its lock, while somebody waits.  And which can
 let an execution overtake those who wait: the trigger that finds such a queue.
 */
module Stranded {
  import opened Database
  import opened QueueShape
  import opened Interleaving
  import opened Exclusion
  import opened Statements
  import opened Recovery
  import opened Barrier

  // ----- Waiting without a holder -----

  /** Whoever waits, waits for a holder. */
  predicate Served(db: Db, hook: Slug) {
    CountWaiting(Rows(db, hook)) > 0 ==> hook in db.locks
  }

  predicate Strands(w: World, a: Actor, hook: Slug) {
    || (a.DropLock? && a.hook == hook && CountWaiting(Rows(w.db, hook)) > 0)
    || (a.EnqueueRow? && a.hook == hook && hook !in w.db.locks)
  }

  /** The recovery takes the lock from an execution that was running and from one that has ended. */
  predicate Orphaned(db: Db, hook: Slug) {
    hook in db.locks && (HasStatus(db, db.locks[hook], Running) || Terminal(db, db.locks[hook]))
  }

  predicate StepStrands(w: World, step: Step, hook: Slug) {
    match step
    case ArriveStep(_, _) => false
    case AdvanceStep(actor, _) => actor in w.actors && Strands(w, w.actors[actor], hook)
    case CrashStep => CountWaiting(Rows(w.db, hook)) > 0 && Orphaned(w.db, hook)
  }

  /** The lock stays held and nobody new waits. */
  predicate Keeps(db: Db, after: Db, hook: Slug) {
    (hook in db.locks ==> hook in after.locks) && CountWaiting(Rows(after, hook)) <= CountWaiting(Rows(db, hook))
  }

  lemma TriggerServes(config: Config, w: World, actor: nat, a: Actor, hook: Slug)
    requires At(config, w, actor, a) && (BeforeInsert(a) || a.EnqueueRow?)
    requires Served(w.db, hook)
    ensures Served(AdvanceTrigger(config[a.hook], w, actor, a).db, hook) <==> !Strands(w, a, hook)
  {
    var t := AdvanceTrigger(config[a.hook], w, actor, a);
    if a.EnqueueRow? {
      var rows := Rows(w.db, a.hook);
      CountAppend(rows, QueueEntry(a.id, MaxPosition(rows) + 1, Waiting));
      assert t.db.locks == w.db.locks;
      assert hook != a.hook ==> Rows(t.db, hook) == Rows(w.db, hook);
    } else {
      assert Keeps(w.db, t.db, hook);
    }
  }

  lemma RunServes(config: Config, w: World, actor: nat, a: Actor, choice: Choice)
    requires At(config, w, actor, a) && Runs(a)
    ensures var t := AdvanceRun(config, w, actor, a, choice); t.db.locks == w.db.locks && t.db.queue == w.db.queue
  {
  }

  lemma CompletionServes(config: Config, w: World, actor: nat, a: Actor, hook: Slug)
    requires At(config, w, actor, a) && Completes(a) && QueueOk(config, w, hook)
    requires hook in config && config[hook].Queues() && Served(w.db, hook)
    ensures Served(AdvanceCompletion(config[a.hook], w, actor, a).db, hook) <==> !Strands(w, a, hook)
  {
    var t := AdvanceCompletion(config[a.hook], w, actor, a);
    if a.ReadyRow? && a.hook == hook {
      ReadyKeepsShape(Rows(w.db, hook));
      assert Keeps(w.db, t.db, hook);
    } else if a.DropLock? && a.hook == hook {
      assert Rows(t.db, hook) == Rows(w.db, hook);
    } else {
      assert Rows(t.db, hook) == Rows(w.db, hook) && Keeps(w.db, t.db, hook);
    }
  }

  predicate Decides(a: Actor) {
    a.ApproveRow? || a.ResetApproved? || a.RejectRow? || a.ExpirePendingRow? || a.ExpireEntry? || a.ReadHolder?
  }

  lemma DecisionServes(config: Config, w: World, actor: nat, a: Actor)
    requires Inv(config, w) && actor in w.actors && w.actors[actor] == a && Decides(a)
    ensures var t := AdvanceDecision(config, w, actor, a); t.db.locks == w.db.locks && t.db.queue == w.db.queue
  {
    if a.ExpireEntry? {
      assert ActorOk(config, w, a);
      ExpireChangesNothing(config, w, a.id);
    }
  }

  lemma AdvanceServes(config: Config, w: World, actor: nat, choice: Choice, hook: Slug)
    requires Inv(config, w) && hook in config && config[hook].Queues() && Served(w.db, hook) && actor in w.actors
    ensures Served(Advance(config, w, actor, choice).db, hook) <==> !Strands(w, w.actors[actor], hook)
  {
    var a := w.actors[actor];
    assert ActorOk(config, w, a);
    if Runs(a) {
      RunServes(config, w, actor, a, choice);
    } else if Completes(a) {
      assert QueueOk(config, w, hook);
      CompletionServes(config, w, actor, a, hook);
    } else if Decides(a) {
      DecisionServes(config, w, actor, a);
    } else {
      TriggerServes(config, w, actor, a, hook);
    }
  }

  /** The recovery keeps the queue and takes exactly the orphaned locks. */
  lemma CrashTakes(config: Config, w: World, hook: Slug)
    requires Inv(config, w)
    ensures Crash(w).db.queue == w.db.queue
    ensures hook in Crash(w).db.locks <==> hook in w.db.locks && !Orphaned(w.db, hook)
    ensures hook in Crash(w).db.locks ==> Crash(w).db.locks[hook] == w.db.locks[hook]
  {
    ThreeSteps(w.db);
    RecoveryKeepsQueue(config, w);
  }

  /**
   While nobody waits without a holder, a step keeps it so if and only if it neither drops the lock while
   somebody waits, nor enqueues while nobody holds the lock, nor is a crash that orphans the holder
   while somebody waits.
   */
  lemma StrandsExact(config: Config, w: World, step: Step, hook: Slug)
    requires Inv(config, w) && hook in config && config[hook].Queues() && Served(w.db, hook)
    ensures Served(Apply(config, w, step).db, hook) <==> !StepStrands(w, step, hook)
  {
    match step
    case ArriveStep(actor, request) =>
    case AdvanceStep(actor, choice) =>
      if actor in w.actors {
        AdvanceServes(config, w, actor, choice, hook);
      }
    case CrashStep => CrashTakes(config, w, hook);
  }

  /** Whoever waits is served in every world of the run. */
  predicate AlwaysServed(config: Config, steps: seq<Step>, hook: Slug) {
    forall n :: 0 <= n <= |steps| ==> Served(Run(config, INITIAL, steps[..n]).db, hook)
  }

  predicate NeverStrands(config: Config, steps: seq<Step>, hook: Slug) {
    forall n :: 0 <= n < |steps| ==> !StepStrands(Run(config, INITIAL, steps[..n]), steps[n], hook)
  }

  lemma PrefixServed(config: Config, steps: seq<Step>, hook: Slug, n: nat)
    requires hook in config && config[hook].Queues() && n < |steps|
    requires Served(Run(config, INITIAL, steps[..n]).db, hook)
    ensures Served(Run(config, INITIAL, steps[..n + 1]).db, hook)
       <==> !StepStrands(Run(config, INITIAL, steps[..n]), steps[n], hook)
  {
    Reachable(config, steps[..n]);
    StrandsExact(config, Run(config, INITIAL, steps[..n]), steps[n], hook);
    assert steps[..n + 1][..n] == steps[..n];
  }

  lemma {:induction false} ServedUpTo(config: Config, steps: seq<Step>, hook: Slug, n: nat)
    requires hook in config && config[hook].Queues() && n <= |steps| && NeverStrands(config, steps, hook)
    ensures Served(Run(config, INITIAL, steps[..n]).db, hook)
  {
    if n > 0 {
      ServedUpTo(config, steps, hook, n - 1);
      PrefixServed(config, steps, hook, n - 1);
    }
  }

  /** Over a whole run: whoever waits is always served if and only if no step of the run strands the queue. */
  lemma ServedExact(config: Config, steps: seq<Step>, hook: Slug)
    requires hook in config && config[hook].Queues()
    ensures AlwaysServed(config, steps, hook) <==> NeverStrands(config, steps, hook)
  {
    if NeverStrands(config, steps, hook) {
      forall n | 0 <= n <= |steps| ensures Served(Run(config, INITIAL, steps[..n]).db, hook) {
        ServedUpTo(config, steps, hook, n);
      }
    }
    if AlwaysServed(config, steps, hook) {
      forall n | 0 <= n < |steps| ensures !StepStrands(Run(config, INITIAL, steps[..n]), steps[n], hook) {
        PrefixServed(config, steps, hook, n);
      }
    }
  }

  // ----- Overtaking -----

  /** The lock goes to an execution that is not the first of those who wait. */
  predicate Overtakes(db: Db, after: Db, hook: Slug) {
    && CountWaiting(Rows(db, hook)) > 0 && hook in after.locks
    && (hook in db.locks ==> after.locks[hook] != db.locks[hook])
    && after.locks[hook] != WaitingIds(Rows(db, hook))[0]
  }

  predicate StepOvertakes(w: World, step: Step, hook: Slug) {
    && step.AdvanceStep? && step.actor in w.actors
    && var a := w.actors[step.actor];
       a.TryLock? && a.hook == hook && hook !in w.db.locks && CountWaiting(Rows(w.db, hook)) > 0
  }

  lemma TriggerOvertakes(config: Config, w: World, actor: nat, a: Actor, hook: Slug)
    requires At(config, w, actor, a) && (BeforeInsert(a) || a.EnqueueRow?) && QueueOk(config, w, hook)
    ensures Overtakes(w.db, AdvanceTrigger(config[a.hook], w, actor, a).db, hook)
       <==> a.TryLock? && a.hook == hook && hook !in w.db.locks && CountWaiting(Rows(w.db, hook)) > 0
  {
    var rows := Rows(w.db, hook);
    if CountWaiting(rows) > 0 {
      assert RowOk(w, hook, rows[Split(rows)]);
    }
  }

  lemma CompletionOvertakesNobody(config: Config, w: World, actor: nat, a: Actor, hook: Slug)
    requires At(config, w, actor, a) && Completes(a)
    ensures !Overtakes(w.db, AdvanceCompletion(config[a.hook], w, actor, a).db, hook)
  {
  }

  /**
   A step lets an execution overtake those who wait if and only if it is a trigger that finds the lock free
   while somebody waits; so no step does while whoever waits is served.
   */
  lemma OvertakesExact(config: Config, w: World, step: Step, hook: Slug)
    requires Inv(config, w)
    ensures Overtakes(w.db, Apply(config, w, step).db, hook) <==> StepOvertakes(w, step, hook)
    ensures Served(w.db, hook) ==> !Overtakes(w.db, Apply(config, w, step).db, hook)
  {
    match step
    case ArriveStep(actor, request) =>
    case CrashStep => CrashTakes(config, w, hook);
    case AdvanceStep(actor, choice) =>
      if actor in w.actors {
        var a := w.actors[actor];
        assert ActorOk(config, w, a) && QueueOk(config, w, hook);
        if Runs(a) {
          RunServes(config, w, actor, a, choice);
        } else if Completes(a) {
          CompletionOvertakesNobody(config, w, actor, a, hook);
        } else if Decides(a) {
          DecisionServes(config, w, actor, a);
        } else {
          TriggerOvertakes(config, w, actor, a, hook);
        }
      }
  }
}
