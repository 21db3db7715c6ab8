/** With no new triggers, every turn that ends shortens the line by one, and the line can always be emptied. */
module Drain {
  import opened Options
  import opened Database
  import opened Server
  import opened Fifo

  /** Holder plus waiters: the termination measure. */
  function Load(s: State, hook: Slug): nat {
    |Holder(s, hook)| + |Waiters(s, hook)|
  }

  function Turns(s: State, hook: Slug): nat {
    |At(s.log.finished, hook)|
  }

  predicate Admits(step: Step, hook: Slug) {
    step.TriggerStep? && step.hook == hook
  }

  lemma {:induction false} RunConcat(config: Config, s: State, first: seq<Step>, second: seq<Step>)
    ensures Run(config, s, first + second) == Run(config, Run(config, s, first), second)
  {
    if second == [] {
      assert first + second == first;
    } else {
      var init := second[..|second| - 1];
      assert (first + second)[..|first + second| - 1] == first + init;
      RunConcat(config, s, first, init);
    }
  }

  /** A hand-over, to whichever hook, admits nobody. */
  lemma GiveUpAdmitsNone(config: HookConfig, s: State, hook: Slug, id: Id)
    ensures GiveUpLock(config, s, hook, id).log.admitted == s.log.admitted
  {
  }

  lemma NoAdmission(config: Config, s: State, step: Step, hook: Slug)
    requires !Admits(step, hook)
    ensures At(Apply(config, s, step).log.admitted, hook) == At(s.log.admitted, hook)
  {
    match step
    case CompleteStep(id) =>
      if InPhase(s, id, Finishing) && Knows(config, s, id) {
        var other := s.db.executions[id].hook;
        GiveUpAdmitsNone(config[other], s.(tasks := s.tasks - {id}), other, id);
      }
    case RejectStep(id) => WithdrawalAdmitsNone(config, s, id, Rejected);
    case ExpireStep(id) => WithdrawalAdmitsNone(config, s, id, Expired);
    case _ =>
  }

  lemma WithdrawalAdmitsNone(config: Config, s: State, id: Id, status: Status)
    ensures id in s.db.executions ==>
              Withdraw(config, s.(db := Transition(s.db, id, PendingApproval, status)), id).log.admitted == s.log.admitted
  {
  }

  lemma {:induction false} NoAdmissions(config: Config, s: State, steps: seq<Step>, hook: Slug)
    requires forall step :: step in steps ==> !Admits(step, hook)
    ensures At(Run(config, s, steps).log.admitted, hook) == At(s.log.admitted, hook)
  {
    if steps != [] {
      NoAdmissions(config, s, steps[..|steps| - 1], hook);
      NoAdmission(config, Run(config, s, steps[..|steps| - 1]), steps[|steps| - 1], hook);
    }
  }

  /**
   Conservation: over any run without a trigger of the hook, the line shrinks by exactly the number of
   turns that ended; once that number reaches the load, the lock is free and nothing waits.
   */
  lemma DrainByTurns(config: Config, s: State, steps: seq<Step>, hook: Slug)
    requires Inv(config, s) && hook in config && config[hook].Exclusive()
    requires forall step :: step in steps ==> !Admits(step, hook)
    ensures var t := Run(config, s, steps);
      && Load(t, hook) + (Turns(t, hook) - Turns(s, hook)) == Load(s, hook)
      && (Turns(t, hook) - Turns(s, hook) == Load(s, hook) <==> hook !in t.db.locks && Waiters(t, hook) == [])
  {
    var t := Run(config, s, steps);
    RunPreserves(config, s, steps);
    NoAdmissions(config, s, steps, hook);
    assert HookOk(config, s, hook) && HookOk(config, t, hook);
    assert |At(s.log.admitted, hook)| == Turns(s, hook) + Load(s, hook);
    assert |At(t.log.admitted, hook)| == Turns(t, hook) + Load(t, hook);
  }

  /** The holder joins the finished executions and the first waiter, if any, becomes the holder. */
  predicate TurnEnded(s: State, t: State, hook: Slug) {
    && hook in s.db.locks
    && At(t.log.finished, hook) == At(s.log.finished, hook) + [s.db.locks[hook]]
    && Holder(t, hook) + Waiters(t, hook) == Waiters(s, hook)
  }

  lemma HandOverEndsTurn(config: Config, s: State, t: State, hook: Slug)
    requires hook in config && config[hook].Exclusive() && QueueOk(config, s, hook) && hook in s.db.locks
    requires t == GiveUpLock(config[hook], s, hook, s.db.locks[hook])
    ensures TurnEnded(s, t, hook)
  {
    GiveUpHandsOver(config, s, hook);
    if Waiters(s, hook) == [] {
      assert Waiters(t, hook) == [];
    } else {
      assert Holder(t, hook) == [Waiters(s, hook)[0]];
    }
  }

  /** The holder stops, by an end of its task or a rejection or an expiry, and passes the lock on. */
  lemma StopEndsTurn(config: Config, s: State, stopped: State, id: Id, hook: Slug)
    requires Inv(config, s) && HoldsLock(s.db, hook, id) && hook in config && config[hook].Exclusive()
    requires Moves(config, s, stopped, id)
    ensures TurnEnded(s, GiveUpLock(config[hook], stopped, hook, id), hook)
  {
    MovePreserves(config, s, stopped, id);
    assert HookOk(config, stopped, hook);
    HandOverEndsTurn(config, stopped, GiveUpLock(config[hook], stopped, hook, id), hook);
  }

  lemma CompleteIsGiveUp(config: Config, s: State, hook: Slug)
    requires Inv(config, s) && hook in s.db.locks && InPhase(s, s.db.locks[hook], Finishing)
    ensures var id := s.db.locks[hook];
      var ended := s.(tasks := s.tasks - {id});
      && hook in config && config[hook].Exclusive() && Moves(config, s, ended, id)
      && CompleteTask(config, s, id) == GiveUpLock(config[hook], ended, hook, id)
  {
    var id := s.db.locks[hook];
    assert LockOk(config, s, hook) && ExecutionOk(config, s, id);
    EndedMoves(config, s, id);
  }

  lemma CompleteEndsTurn(config: Config, s: State, hook: Slug)
    requires Inv(config, s) && hook in s.db.locks && InPhase(s, s.db.locks[hook], Finishing)
    ensures TurnEnded(s, CompleteTask(config, s, s.db.locks[hook]), hook)
  {
    var id := s.db.locks[hook];
    CompleteIsGiveUp(config, s, hook);
    StopEndsTurn(config, s, s.(tasks := s.tasks - {id}), id, hook);
  }

  predicate TaskFree(s: State, id: Id) {
    id in s.db.executions && id !in s.tasks
  }

  lemma WithdrawIsGiveUp(config: Config, s: State, id: Id, hook: Slug)
    requires Consistent(config, s) && HoldsLock(s.db, hook, id) && hook in config && BelongsTo(s, hook, id)
    requires s.db.executions[id].status != Pending
    ensures Withdraw(config, s, id) == GiveUpLock(config[hook], s, hook, id)
  {
    ExpireIsIdle(config, s, id);
  }

  lemma WithdrawEndsTurn(config: Config, s: State, hook: Slug, status: Status)
    requires Inv(config, s) && hook in s.db.locks && HasStatus(s.db, s.db.locks[hook], PendingApproval)
    requires status in {Rejected, Expired}
    ensures var id := s.db.locks[hook];
      TurnEnded(s, Withdraw(config, s.(db := Transition(s.db, id, PendingApproval, status)), id), hook)
  {
    var id := s.db.locks[hook];
    assert LockOk(config, s, hook);
    var stopped := s.(db := Transition(s.db, id, PendingApproval, status));
    WithdrawMoves(config, s, id, status);
    MovePreserves(config, s, stopped, id);
    WithdrawIsGiveUp(config, stopped, id, hook);
    StopEndsTurn(config, s, stopped, id, hook);
  }

  /** A step that finishes, rejects or expires the holder. */
  predicate FinishesHolder(config: Config, s: State, step: Step, hook: Slug)
    requires hook in s.db.locks && hook in config
  {
    var id := s.db.locks[hook];
    match step
    case CompleteStep(other) => other == id && InPhase(s, id, Finishing)
    case RejectStep(other) => other == id && HasStatus(s.db, id, PendingApproval)
    case ExpireStep(other) =>
      other == id && HasStatus(s.db, id, PendingApproval)
      && config[hook].approval.Some? && config[hook].approval.value.timeout.Some?
    case _ => false
  }

  /** Each completion, rejection or expiry of the holder lowers the load by exactly one and serves the first in line. */
  lemma TurnEnds(config: Config, s: State, step: Step, hook: Slug)
    requires Inv(config, s) && hook in s.db.locks && hook in config && FinishesHolder(config, s, step, hook)
    ensures TurnEnded(s, Apply(config, s, step), hook) && Load(Apply(config, s, step), hook) == Load(s, hook) - 1
  {
    var id := s.db.locks[hook];
    assert LockOk(config, s, hook);
    if step.CompleteStep? {
      CompleteEndsTurn(config, s, hook);
    } else {
      WithdrawEndsTurn(config, s, hook, if step.RejectStep? then Rejected else Expired);
    }
    assert |Holder(Apply(config, s, step), hook) + Waiters(Apply(config, s, step), hook)| == |Waiters(s, hook)|;
  }

  /** The steps that bring the holder to the point where one more step ends its turn. */
  function Wrap(s: State, id: Id): (steps: seq<Step>)
    ensures |steps| <= 2 && forall step :: step in steps ==> !step.TriggerStep?
  {
    if id !in s.tasks then []
    else
      match s.tasks[id].phase
      case Starting => [StartStep(id, false)]
      case Commanding => [ExitStep(id, Success, Some(0))]
      case Retrying => [RetryStep(id), StartStep(id, false)]
      case Finishing => []
  }

  lemma WrapUp(config: Config, s: State, id: Id)
    requires id in s.tasks ==> TaskOk(s, id) && Knows(config, s, id)
    ensures var t := Run(config, s, Wrap(s, id));
      && t.db.locks == s.db.locks && t.log.finished == s.log.finished
      && (if id in s.tasks then InPhase(t, id, Finishing) else t == s)
  {
    var steps := Wrap(s, id);
    if |steps| == 1 {
      assert steps[..0] == [] && Run(config, s, steps) == Apply(config, s, steps[0]);
    } else if |steps| == 2 {
      var one := steps[..1];
      assert one[..0] == [] && Run(config, s, one) == Apply(config, s, steps[0]);
      assert Run(config, s, steps) == Apply(config, Apply(config, s, steps[0]), steps[1]);
    }
  }

  /** The step that ends the turn of the holder once it has wrapped up. */
  function LastStep(s: State, id: Id): Step {
    if id in s.tasks then CompleteStep(id) else RejectStep(id)
  }

  lemma WrappedUp(config: Config, s: State, hook: Slug)
    requires Inv(config, s) && hook in s.db.locks
    ensures var id := s.db.locks[hook];
      var t := Run(config, s, Wrap(s, id));
      && Inv(config, t) && hook in t.db.locks && hook in config && FinishesHolder(config, t, LastStep(s, id), hook)
      && Turns(t, hook) == Turns(s, hook)
  {
    var id := s.db.locks[hook];
    assert LockOk(config, s, hook) && HolderActive(s, hook) && ExecutionOk(config, s, id);
    assert id in s.tasks ==> TaskOk(s, id);
    WrapUp(config, s, id);
    RunPreserves(config, s, Wrap(s, id));
  }

  lemma OneMore(config: Config, s: State, steps: seq<Step>, step: Step)
    ensures Run(config, s, steps + [step]) == Apply(config, Run(config, s, steps), step)
  {
    assert (steps + [step])[..|steps|] == steps;
  }

  lemma EndsOneTurn(config: Config, s: State, step: Step, hook: Slug)
    requires Inv(config, s) && hook in s.db.locks && hook in config && FinishesHolder(config, s, step, hook)
    ensures Turns(Apply(config, s, step), hook) == Turns(s, hook) + 1
  {
    TurnEnds(config, s, step, hook);
  }

  /** Whatever the holder is doing, a few steps without a trigger end its turn. */
  lemma HolderCanFinish(config: Config, s: State, hook: Slug) returns (steps: seq<Step>)
    requires Inv(config, s) && hook in s.db.locks
    ensures |steps| <= 3 && forall step :: step in steps ==> !step.TriggerStep?
    ensures Turns(Run(config, s, steps), hook) == Turns(s, hook) + 1
  {
    var before, last := Wrap(s, s.db.locks[hook]), LastStep(s, s.db.locks[hook]);
    WrappedUp(config, s, hook);
    EndsOneTurn(config, Run(config, s, before), last, hook);
    OneMore(config, s, before, last);
    steps := before + [last];
  }

  /** From every reachable state the line can be emptied without a trigger, in at most three steps a turn. */
  lemma {:induction false} CanDrain(config: Config, s: State, hook: Slug) returns (steps: seq<Step>)
    requires Inv(config, s) && hook in config && config[hook].Exclusive()
    ensures |steps| <= 3 * Load(s, hook) && forall step :: step in steps ==> !step.TriggerStep?
    ensures var t := Run(config, s, steps);
      hook !in t.db.locks && Waiters(t, hook) == [] && Turns(t, hook) == Turns(s, hook) + Load(s, hook)
    decreases Load(s, hook)
  {
    if hook !in s.db.locks {
      assert HookOk(config, s, hook);
      steps := [];
    } else {
      var first := HolderCanFinish(config, s, hook);
      var t := Run(config, s, first);
      RunPreserves(config, s, first);
      DrainByTurns(config, s, first, hook);
      var rest := CanDrain(config, t, hook);
      RunConcat(config, s, first, rest);
      steps := first + rest;
    }
  }
}
