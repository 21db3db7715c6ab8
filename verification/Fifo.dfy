/**
 Runs of whole handlers without a crash: first in, first out, nothing lost, nothing duplicated,
 nothing overtaken, and the queue never over its depth.
 */
module Fifo {
  import opened Options
  import opened Database
  import opened QueueShape
  import opened Server
  import opened Text

  // ----- Sequences -----

  predicate Distinct(s: seq<Id>) {
    forall i, j :: 0 <= i < j < |s| ==> s[i] != s[j]
  }

  /** Every element of `sub` occurs in `all`, in the same order. */
  predicate Subsequence(sub: seq<Id>, all: seq<Id>) {
    sub == []
    || (all != []
        && if sub[|sub| - 1] == all[|all| - 1] then Subsequence(sub[..|sub| - 1], all[..|all| - 1])
           else Subsequence(sub, all[..|all| - 1]))
  }

  lemma {:induction false} SubsequenceElement(sub: seq<Id>, all: seq<Id>, id: Id)
    requires Subsequence(sub, all) && id in sub
    ensures id in all
  {
    if sub[|sub| - 1] == all[|all| - 1] {
      if id != sub[|sub| - 1] {
        SubsequenceElement(sub[..|sub| - 1], all[..|all| - 1], id);
      }
    } else {
      SubsequenceElement(sub, all[..|all| - 1], id);
    }
  }

  lemma SubsequenceGrowsBoth(sub: seq<Id>, all: seq<Id>, id: Id)
    requires Subsequence(sub, all)
    ensures Subsequence(sub + [id], all + [id])
  {
    assert (sub + [id])[..|sub|] == sub && (all + [id])[..|all|] == all;
  }

  lemma SubsequenceGrowsAll(sub: seq<Id>, all: seq<Id>, id: Id)
    requires id !in sub
    ensures Subsequence(sub, all + [id]) <==> Subsequence(sub, all)
  {
    assert (all + [id])[..|all|] == all;
  }

  // ----- The invariant -----

  predicate Active(s: State, id: Id) {
    id in s.tasks || HasStatus(s.db, id, PendingApproval) || HasStatus(s.db, id, Running)
  }

  function Holder(s: State, hook: Slug): seq<Id> {
    if hook in s.db.locks then [s.db.locks[hook]] else []
  }

  function Waiters(s: State, hook: Slug): seq<Id> {
    WaitingIds(Rows(s.db, hook))
  }

  /** Finished, then the lock holder, then those who wait. */
  function Line(s: State, hook: Slug): seq<Id> {
    At(s.log.finished, hook) + Holder(s, hook) + Waiters(s, hook)
  }

  predicate TaskOk(s: State, id: Id)
    requires id in s.tasks
  {
    && id in s.db.executions
    && var status := s.db.executions[id].status;
       match s.tasks[id].phase
       case Starting => status == Pending
       case Commanding => status == Running
       case Retrying => status == Failed
       case Finishing => status !in {Running, PendingApproval}
  }

  predicate ExecutionOk(config: Config, s: State, id: Id)
    requires id in s.db.executions
  {
    var hook := s.db.executions[id].hook;
    var status := s.db.executions[id].status;
    && hook in config
    && status != Approved
    && (status == Running ==> id in s.tasks)
    && (config[hook].Exclusive() && Active(s, id) ==> HoldsLock(s.db, hook, id))
    && (status in {PendingApproval, Rejected, Expired} ==> id !in At(s.log.started, hook))
  }

  predicate BelongsTo(s: State, hook: Slug, id: Id) {
    id in s.db.executions && s.db.executions[id].hook == hook
  }

  predicate LockOk(config: Config, s: State, hook: Slug)
    requires hook in s.db.locks
  {
    hook in config && config[hook].Exclusive() && BelongsTo(s, hook, s.db.locks[hook])
  }

  predicate StartedOk(s: State, hook: Slug) {
    forall id :: id in At(s.log.started, hook) ==> BelongsTo(s, hook, id)
  }

  predicate WaitsOk(s: State, hook: Slug, id: Id) {
    BelongsTo(s, hook, id) && HasStatus(s.db, id, Pending) && id !in s.tasks && id !in At(s.log.started, hook)
  }

  predicate QueueOk(config: Config, s: State, hook: Slug)
    requires hook in config && config[hook].Exclusive()
  {
    && Shaped(Rows(s.db, hook))
    && (if config[hook].Queues() then |Waiters(s, hook)| <= config[hook].concurrency.value.queueDepth
        else Rows(s.db, hook) == [])
    && (hook !in s.db.locks ==> Waiters(s, hook) == [])
    && forall id :: id in Waiters(s, hook) ==> WaitsOk(s, hook, id)
  }

  predicate OrderOk(s: State, hook: Slug) {
    && At(s.log.admitted, hook) == Line(s, hook)
    && Distinct(At(s.log.admitted, hook))
    && (forall id :: id in At(s.log.admitted, hook) ==> BelongsTo(s, hook, id))
    && Subsequence(At(s.log.started, hook), At(s.log.finished, hook) + Holder(s, hook))
  }

  predicate HookOk(config: Config, s: State, hook: Slug)
    requires hook in config && config[hook].Exclusive()
  {
    QueueOk(config, s, hook) && OrderOk(s, hook)
  }

  ghost predicate Consistent(config: Config, s: State) {
    && (forall id :: id in s.tasks ==> TaskOk(s, id))
    && (forall id :: id in s.db.executions ==> ExecutionOk(config, s, id))
    && (forall hook :: hook in s.db.locks ==> LockOk(config, s, hook))
    && (forall hook :: hook in s.db.queue ==> hook in config && config[hook].Exclusive())
    && (forall hook :: StartedOk(s, hook))
    && (forall hook :: hook in config && config[hook].Exclusive() ==> HookOk(config, s, hook))
  }

  /** Some step can end the holder's turn. */
  predicate HolderActive(s: State, hook: Slug)
    requires hook in s.db.locks
  {
    Active(s, s.db.locks[hook])
  }

  ghost predicate Inv(config: Config, s: State) {
    Consistent(config, s) && forall hook :: hook in s.db.locks ==> HolderActive(s, hook)
  }

  // ----- Frames -----

  /** Nothing but execution `id`, its task and its log entries differs. */
  ghost predicate OnlyDiffersAt(s: State, t: State, id: Id) {
    && (forall other :: other != id ==> (other in s.db.executions <==> other in t.db.executions))
    && (forall other :: other != id && other in s.db.executions ==> t.db.executions[other] == s.db.executions[other])
    && (forall other :: other != id ==> (other in s.tasks <==> other in t.tasks))
    && (forall other :: other != id && other in s.tasks ==> t.tasks[other] == s.tasks[other])
    && (id in s.db.executions ==> BelongsTo(t, s.db.executions[id].hook, id))
  }

  ghost predicate SameLog(s: State, t: State, hook: Slug) {
    && At(t.log.admitted, hook) == At(s.log.admitted, hook)
    && At(t.log.finished, hook) == At(s.log.finished, hook)
    && At(t.log.started, hook) == At(s.log.started, hook)
  }

  lemma HookFrame(config: Config, s: State, t: State, hook: Slug, id: Id)
    requires hook in config && config[hook].Exclusive() && HookOk(config, s, hook)
    requires OnlyDiffersAt(s, t, id) && id !in Waiters(s, hook)
    requires Rows(t.db, hook) == Rows(s.db, hook) && Holder(t, hook) == Holder(s, hook) && SameLog(s, t, hook)
    ensures HookOk(config, t, hook)
  {
    assert hook in t.db.locks <==> hook in s.db.locks by {
      assert |Holder(t, hook)| == |Holder(s, hook)|;
    }
    forall other | other in Waiters(t, hook) ensures WaitsOk(t, hook, other) {
      assert WaitsOk(s, hook, other);
    }
  }

  /** The holder does not wait, nor does an execution of another hook. */
  lemma HolderNotWaiting(config: Config, s: State, hook: Slug, id: Id)
    requires hook in config && config[hook].Exclusive() && HookOk(config, s, hook)
    requires BelongsTo(s, hook, id) ==> HoldsLock(s.db, hook, id)
    ensures id !in Waiters(s, hook)
  {
    var finished, line := At(s.log.finished, hook), Line(s, hook);
    forall k | 0 <= k < |Waiters(s, hook)| ensures Waiters(s, hook)[k] != id {
      assert WaitsOk(s, hook, Waiters(s, hook)[k]);
      if hook in s.db.locks {
        assert line[|finished|] == s.db.locks[hook] && line[|finished| + 1 + k] == Waiters(s, hook)[k];
      }
    }
  }

  // ----- A task or an approval moves on -----

  /** A step that changes one active execution and its task, but no lock, queue row or admission. */
  ghost predicate Moves(config: Config, s: State, t: State, id: Id) {
    && id in s.db.executions && Active(s, id)
    && OnlyDiffersAt(s, t, id) && t.db.locks == s.db.locks && t.db.queue == s.db.queue
    && t.log.admitted == s.log.admitted && t.log.finished == s.log.finished
    && (t.log.started == s.log.started
        || (id !in At(s.log.started, s.db.executions[id].hook)
            && t.log.started == Append(s.log.started, s.db.executions[id].hook, id)))
    && (id in t.tasks ==> TaskOk(t, id))
    && t.db.executions[id].status != Approved && (HasStatus(t.db, id, Running) ==> id in t.tasks)
    && (t.db.executions[id].status in {PendingApproval, Rejected, Expired} ==>
          id !in At(t.log.started, s.db.executions[id].hook))
  }

  lemma MoveKeepsExecutions(config: Config, s: State, t: State, id: Id)
    requires Inv(config, s) && Moves(config, s, t, id)
    ensures forall other :: other in t.tasks ==> TaskOk(t, other)
    ensures forall other :: other in t.db.executions ==> ExecutionOk(config, t, other)
  {
    assert ExecutionOk(config, s, id);
    forall other | other in t.tasks ensures TaskOk(t, other) {
      assert other != id ==> TaskOk(s, other);
    }
    forall other | other in t.db.executions ensures ExecutionOk(config, t, other) {
      assert other != id ==> ExecutionOk(config, s, other);
    }
  }

  lemma MoveKeepsLocks(config: Config, s: State, t: State, id: Id)
    requires Inv(config, s) && Moves(config, s, t, id)
    ensures forall hook :: hook in t.db.locks ==> LockOk(config, t, hook)
    ensures forall hook :: hook in t.db.locks && (t.db.locks[hook] != id || Active(t, id)) ==> HolderActive(t, hook)
    ensures forall hook :: StartedOk(t, hook)
  {
    forall hook | hook in t.db.locks
      ensures LockOk(config, t, hook) && (t.db.locks[hook] != id || Active(t, id) ==> HolderActive(t, hook))
    {
      assert LockOk(config, s, hook) && HolderActive(s, hook);
    }
    forall hook ensures StartedOk(t, hook) {
      forall other | other in At(t.log.started, hook) ensures BelongsTo(t, hook, other) {
        assert other in At(s.log.started, hook) || other == id;
        assert StartedOk(s, hook);
      }
    }
  }

  lemma MoveKeepsHook(config: Config, s: State, t: State, id: Id, hook: Slug)
    requires Consistent(config, s) && Moves(config, s, t, id)
    requires hook in config && config[hook].Exclusive()
    ensures HookOk(config, t, hook)
  {
    assert HookOk(config, s, hook) && ExecutionOk(config, s, id);
    HolderNotWaiting(config, s, hook, id);
    if hook != s.db.executions[id].hook || t.log.started == s.log.started {
      HookFrame(config, s, t, hook, id);
    } else {
      StartKeepsHook(config, s, t, id);
    }
  }

  lemma StartKeepsHook(config: Config, s: State, t: State, id: Id)
    requires id in s.db.executions
    requires var hook := s.db.executions[id].hook;
      && hook in config && config[hook].Exclusive() && HookOk(config, s, hook) && HoldsLock(s.db, hook, id)
      && id !in At(s.log.started, hook) && id !in Waiters(s, hook)
      && t.log.started == Append(s.log.started, hook, id)
    requires OnlyDiffersAt(s, t, id) && t.db.locks == s.db.locks && t.db.queue == s.db.queue
    requires t.log.admitted == s.log.admitted && t.log.finished == s.log.finished
    ensures HookOk(config, t, s.db.executions[id].hook)
  {
    var hook := s.db.executions[id].hook;
    var finished := At(s.log.finished, hook);
    forall other | other in Waiters(t, hook) ensures WaitsOk(t, hook, other) {
      assert WaitsOk(s, hook, other);
    }
    SubsequenceGrowsAll(At(s.log.started, hook), finished, id);
    SubsequenceGrowsBoth(At(s.log.started, hook), finished, id);
  }

  lemma MovePreserves(config: Config, s: State, t: State, id: Id)
    requires Inv(config, s) && Moves(config, s, t, id)
    ensures Consistent(config, t)
    ensures forall hook :: hook in t.db.locks && t.db.locks[hook] != id ==> HolderActive(t, hook)
    ensures Active(t, id) ==> Inv(config, t)
  {
    MoveKeepsExecutions(config, s, t, id);
    MoveKeepsLocks(config, s, t, id);
    forall hook | hook in config && config[hook].Exclusive() ensures HookOk(config, t, hook) {
      MoveKeepsHook(config, s, t, id, hook);
    }
  }

  // ----- The completion handler -----

  /** What the completion handler does when the queue is in shape: the lock passes to the first in line. */
  ghost predicate HandsOver(config: HookConfig, s: State, t: State, hook: Slug) {
    && t.log == s.log.(finished := t.log.finished)
    && hook in s.db.locks
    && t.log.finished == Append(s.log.finished, hook, s.db.locks[hook])
    && var waiters := Waiters(s, hook);
       if waiters == [] then
         t.db == Release(s.db, hook) && t.tasks == s.tasks
       else
         && waiters[0] in s.db.executions
         && Waiters(t, hook) == waiters[1..]
         && Shaped(Rows(t.db, hook))
         && t.db.locks == s.db.locks[hook := waiters[0]]
         && t.db.queue == s.db.queue[hook := Rows(t.db, hook)]
         && if config.RequiresApproval() then
              && t.tasks == s.tasks
              && t.db.executions
                 == s.db.executions[waiters[0] := s.db.executions[waiters[0]].(status := PendingApproval)]
            else
              t.tasks == s.tasks[waiters[0] := Task(Starting, 0)] && t.db.executions == s.db.executions
  }

  lemma GiveUpHandsOver(config: Config, s: State, hook: Slug)
    requires hook in config && config[hook].Exclusive() && QueueOk(config, s, hook) && hook in s.db.locks
    ensures HandsOver(config[hook], s, GiveUpLock(config[hook], s, hook, s.db.locks[hook]), hook)
  {
    PeekIsSplit(Rows(s.db, hook));
    if Waiters(s, hook) != [] {
      ReadyKeepsShape(Rows(s.db, hook));
      assert WaitsOk(s, hook, Waiters(s, hook)[0]);
    }
  }

  /** The line as a whole stays; the holder becomes its last finished member. */
  lemma HandOverKeepsLine(config: HookConfig, s: State, t: State, hook: Slug)
    requires HandsOver(config, s, t, hook)
    ensures At(t.log.finished, hook) == At(s.log.finished, hook) + Holder(s, hook)
    ensures Holder(t, hook) + Waiters(t, hook) == Waiters(s, hook) && Line(t, hook) == Line(s, hook)
  {
    if Waiters(s, hook) == [] {
      assert Waiters(t, hook) == [] && Holder(t, hook) == [];
    } else {
      assert Holder(t, hook) == [Waiters(s, hook)[0]];
    }
    Regroup(At(s.log.finished, hook), Holder(s, hook), Waiters(s, hook));
    Regroup(At(t.log.finished, hook), Holder(t, hook), Waiters(t, hook));
  }

  lemma HandOverKeepsOrder(config: HookConfig, s: State, t: State, hook: Slug)
    requires OrderOk(s, hook) && HandsOver(config, s, t, hook)
    requires Waiters(s, hook) != [] ==> WaitsOk(s, hook, Waiters(s, hook)[0])
    ensures OrderOk(t, hook)
  {
    HandOverKeepsLine(config, s, t, hook);
    var finished := At(t.log.finished, hook);
    if Waiters(s, hook) != [] {
      SubsequenceGrowsAll(At(s.log.started, hook), finished, Waiters(s, hook)[0]);
      assert Holder(t, hook) == [Waiters(s, hook)[0]];
    } else {
      assert finished + Holder(t, hook) == finished;
    }
  }

  lemma HandOverKeepsQueue(config: Config, s: State, t: State, hook: Slug)
    requires hook in config && config[hook].Exclusive() && HookOk(config, s, hook)
    requires HandsOver(config[hook], s, t, hook)
    ensures QueueOk(config, t, hook)
  {
    var waiters, line, finished := Waiters(s, hook), Line(s, hook), At(s.log.finished, hook);
    forall k | 0 <= k < |Waiters(t, hook)| ensures WaitsOk(t, hook, Waiters(t, hook)[k]) {
      assert Waiters(t, hook)[k] == waiters[k + 1] && WaitsOk(s, hook, waiters[k + 1]);
      assert line[|finished| + 1] == waiters[0] && line[|finished| + 2 + k] == waiters[k + 1];
    }
  }

  lemma HandOverKeepsTask(config: HookConfig, s: State, t: State, hook: Slug, id: Id)
    requires HandsOver(config, s, t, hook) && id in t.tasks && (id in s.tasks ==> TaskOk(s, id))
    requires Waiters(s, hook) != [] ==> WaitsOk(s, hook, Waiters(s, hook)[0])
    ensures TaskOk(t, id)
  {
  }

  lemma HandOverKeepsExecution(config: Config, s: State, t: State, hook: Slug, id: Id)
    requires hook in config && config[hook].Exclusive() && HandsOver(config[hook], s, t, hook)
    requires !Active(s, s.db.locks[hook])
    requires Waiters(s, hook) != [] ==> WaitsOk(s, hook, Waiters(s, hook)[0])
    requires id in s.db.executions && ExecutionOk(config, s, id)
    ensures id in t.db.executions && ExecutionOk(config, t, id)
  {
    if Waiters(s, hook) != [] && id == Waiters(s, hook)[0] {
      assert HoldsLock(t.db, hook, id);
    } else {
      assert t.db.executions[id] == s.db.executions[id] && (id in t.tasks <==> id in s.tasks);
      assert Active(t, id) <==> Active(s, id);
    }
  }

  lemma HandOverKeepsStarted(config: HookConfig, s: State, t: State, hook: Slug, other: Slug)
    requires HandsOver(config, s, t, hook) && StartedOk(s, other)
    ensures StartedOk(t, other)
  {
  }

  lemma HandOverKeepsOther(config: Config, s: State, t: State, hook: Slug, other: Slug)
    requires hook in config && config[hook].Exclusive() && HandsOver(config[hook], s, t, hook) && LockOk(config, s, hook)
    requires Waiters(s, hook) != [] ==> WaitsOk(s, hook, Waiters(s, hook)[0])
    requires other != hook && other in config && config[other].Exclusive() && HookOk(config, s, other)
    ensures HookOk(config, t, other)
  {
    var next := if Waiters(s, hook) != [] then Waiters(s, hook)[0] else s.db.locks[hook];
    assert BelongsTo(s, hook, next);
    assert forall id :: id in Waiters(s, other) ==> WaitsOk(s, other, id);
    HookFrame(config, s, t, other, next);
  }

  lemma HandOverKeepsLock(config: Config, s: State, t: State, hook: Slug, other: Slug)
    requires hook in config && config[hook].Exclusive() && HandsOver(config[hook], s, t, hook)
    requires Waiters(s, hook) != [] ==> WaitsOk(s, hook, Waiters(s, hook)[0])
    requires other in t.db.locks && (other != hook ==> other in s.db.locks && LockOk(config, s, other) && HolderActive(s, other))
    ensures LockOk(config, t, other) && HolderActive(t, other)
  {
    if other != hook {
      assert t.db.locks[other] == s.db.locks[other];
    }
  }

  /** on_execution_complete on behalf of a holder whose turn is over. */
  lemma GiveUpPreserves(config: Config, s: State, hook: Slug)
    requires Consistent(config, s) && hook in s.db.locks && hook in config
    requires forall other :: other in s.db.locks && other != hook ==> HolderActive(s, other)
    requires !Active(s, s.db.locks[hook])
    ensures Inv(config, GiveUpLock(config[hook], s, hook, s.db.locks[hook]))
  {
    assert LockOk(config, s, hook) && HookOk(config, s, hook);
    var t := GiveUpLock(config[hook], s, hook, s.db.locks[hook]);
    GiveUpHandsOver(config, s, hook);
    if Waiters(s, hook) != [] {
      assert WaitsOk(s, hook, Waiters(s, hook)[0]);
    }
    HandOverKeepsOrder(config[hook], s, t, hook);
    HandOverKeepsQueue(config, s, t, hook);
    forall id | id in t.tasks ensures TaskOk(t, id) {
      HandOverKeepsTask(config[hook], s, t, hook, id);
    }
    forall id | id in t.db.executions ensures ExecutionOk(config, t, id) {
      assert id in s.db.executions && ExecutionOk(config, s, id);
      HandOverKeepsExecution(config, s, t, hook, id);
    }
    forall other ensures StartedOk(t, other) {
      HandOverKeepsStarted(config[hook], s, t, hook, other);
    }
    forall other | other in t.db.locks ensures LockOk(config, t, other) && HolderActive(t, other) {
      HandOverKeepsLock(config, s, t, hook, other);
    }
    forall other | other in config && config[other].Exclusive() ensures HookOk(config, t, other) {
      if other != hook {
        HandOverKeepsOther(config, s, t, hook, other);
      }
    }
  }

  // ----- The handlers -----

  lemma StartPreserves(config: Config, s: State, id: Id, logsReady: bool)
    requires Inv(config, s)
    ensures Inv(config, StartTask(s, id, logsReady))
  {
    if InPhase(s, id, Starting) {
      assert TaskOk(s, id) && ExecutionOk(config, s, id);
      MovePreserves(config, s, StartTask(s, id, logsReady), id);
    }
  }

  lemma ExitPreserves(config: Config, s: State, id: Id, status: Status, exitCode: Option<int>)
    requires Inv(config, s)
    ensures Inv(config, ExitTask(config, s, id, status, exitCode))
  {
    var t := ExitTask(config, s, id, status, exitCode);
    if t != s {
      assert TaskOk(s, id) && ExecutionOk(config, s, id);
      MovePreserves(config, s, t, id);
    }
  }

  lemma RetryPreserves(config: Config, s: State, id: Id)
    requires Inv(config, s)
    ensures Inv(config, RetryTask(s, id))
  {
    if InPhase(s, id, Retrying) {
      assert TaskOk(s, id) && ExecutionOk(config, s, id);
      MovePreserves(config, s, RetryTask(s, id), id);
    }
  }

  lemma ApprovePreserves(config: Config, s: State, id: Id)
    requires Inv(config, s)
    ensures Inv(config, Approve(config, s, id))
  {
    if HasStatus(s.db, id, PendingApproval) {
      assert ExecutionOk(config, s, id);
      var t := Approve(config, s, id);
      assert t.db.executions == s.db.executions[id := s.db.executions[id].(status := Pending)];
      MovePreserves(config, s, t, id);
    }
  }

  /** A holder whose turn has just ended gives the lock up. */
  lemma EndPreserves(config: Config, s: State, t: State, id: Id)
    requires Inv(config, s) && Moves(config, s, t, id) && !Active(t, id)
    ensures var hook := s.db.executions[id].hook;
      && hook in config
      && (config[hook].Exclusive() ==> HoldsLock(t.db, hook, id) && Inv(config, GiveUpLock(config[hook], t, hook, id)))
      && (!config[hook].Exclusive() ==> !HoldsLock(t.db, hook, id) && Inv(config, t))
  {
    var hook := s.db.executions[id].hook;
    assert ExecutionOk(config, s, id);
    MovePreserves(config, s, t, id);
    forall other | other in t.db.locks && other != hook ensures HolderActive(t, other) {
      assert LockOk(config, s, other);
    }
    if config[hook].Exclusive() {
      GiveUpPreserves(config, t, hook);
    } else {
      assert hook in s.db.locks ==> LockOk(config, s, hook);
    }
  }

  lemma EndedMoves(config: Config, s: State, id: Id)
    requires Inv(config, s) && InPhase(s, id, Finishing)
    ensures var t := s.(tasks := s.tasks - {id});
      Knows(config, s, id) && Moves(config, s, t, id) && !Active(t, id)
  {
    assert TaskOk(s, id) && ExecutionOk(config, s, id);
  }

  lemma CompletePreserves(config: Config, s: State, id: Id)
    requires Inv(config, s)
    ensures Inv(config, CompleteTask(config, s, id))
  {
    if InPhase(s, id, Finishing) && Knows(config, s, id) {
      EndedMoves(config, s, id);
      EndPreserves(config, s, s.(tasks := s.tasks - {id}), id);
    }
  }

  /** expire_for_execution finds nothing to change: an execution that left the queue does not wait. */
  lemma ExpireIsIdle(config: Config, s: State, id: Id)
    requires Consistent(config, s) && id in s.db.executions && s.db.executions[id].status != Pending
    ensures ExpireForExecution(s.db, id) == s.db
  {
    forall hook | hook in s.db.queue ensures ExpireRows(s.db.queue[hook], id) == s.db.queue[hook] {
      assert HookOk(config, s, hook);
      assert id in Waiters(s, hook) ==> WaitsOk(s, hook, id);
      NothingToExpire(s.db.queue[hook], id);
    }
  }

  lemma WithdrawMoves(config: Config, s: State, id: Id, status: Status)
    requires Inv(config, s) && HasStatus(s.db, id, PendingApproval) && status in {Rejected, Expired}
    ensures var t := s.(db := Transition(s.db, id, PendingApproval, status));
      Moves(config, s, t, id) && !Active(t, id)
  {
    assert ExecutionOk(config, s, id);
    assert id in s.tasks ==> TaskOk(s, id);
  }

  /** A rejection or an expiry of an execution that awaits approval. */
  lemma WithdrawPreserves(config: Config, s: State, id: Id, status: Status)
    requires Inv(config, s) && HasStatus(s.db, id, PendingApproval) && status in {Rejected, Expired}
    ensures Inv(config, Withdraw(config, s.(db := Transition(s.db, id, PendingApproval, status)), id))
  {
    var t := s.(db := Transition(s.db, id, PendingApproval, status));
    WithdrawMoves(config, s, id, status);
    EndPreserves(config, s, t, id);
    MovePreserves(config, s, t, id);
    ExpireIsIdle(config, t, id);
  }

  // ----- The trigger -----

  ghost predicate Enters(config: Config, s: State, t: State, hook: Slug, id: Id, status: Status) {
    && hook in config && id !in s.db.executions && status in {Pending, PendingApproval}
    && t.db.queue == s.db.queue && t.log.started == s.log.started && t.log.finished == s.log.finished
    && t.db.executions == s.db.executions[id := Execution(hook, status, None, 0)]
    && t.tasks == (if status == Pending then s.tasks[id := Task(Starting, 0)] else s.tasks)
    && if config[hook].Exclusive() then
         && hook !in s.db.locks
         && t.db.locks == s.db.locks[hook := id]
         && t.log.admitted == Append(s.log.admitted, hook, id)
       else t.db.locks == s.db.locks && t.log.admitted == s.log.admitted
  }

  /** A new execution joins the end of the queue. */
  ghost predicate Joins(config: Config, s: State, t: State, hook: Slug, id: Id) {
    && hook in config && config[hook].Queues() && hook in s.db.locks && id !in s.db.executions
    && CountWaiting(Rows(s.db, hook)) < config[hook].concurrency.value.queueDepth
    && t.db == Enqueue(s.db.(executions := s.db.executions[id := Execution(hook, Pending, None, 0)]), hook, id)
    && t.tasks == s.tasks
    && t.log == s.log.(admitted := Append(s.log.admitted, hook, id))
  }

  lemma TriggerCases(config: Config, s: State, hook: Slug, id: Id)
    ensures var t := Trigger(config, s, hook, id).0;
      || t == s
      || Enters(config, s, t, hook, id, if hook in config && config[hook].RequiresApproval() then PendingApproval else Pending)
      || Joins(config, s, t, hook, id)
  {
  }

  /** The task table and the executions after a fresh execution enters or joins. */
  lemma FreshKeepsExecutions(config: Config, s: State, t: State, hook: Slug, id: Id)
    requires Consistent(config, s) && id !in s.db.executions && hook in config
    requires id in t.db.executions && t.db.executions[id].hook == hook
    requires t.db.executions[id].status in {Pending, PendingApproval}
    requires t.db.executions - {id} == s.db.executions && t.tasks - {id} == s.tasks
    requires id in t.tasks ==> TaskOk(t, id)
    requires config[hook].Exclusive() && Active(t, id) ==> HoldsLock(t.db, hook, id)
    requires t.log.started == s.log.started
    requires forall other :: other in s.db.locks ==> other in t.db.locks && t.db.locks[other] == s.db.locks[other]
    ensures forall other :: other in t.tasks ==> TaskOk(t, other)
    ensures forall other :: other in t.db.executions ==> ExecutionOk(config, t, other)
    ensures forall other :: StartedOk(t, other)
    ensures OnlyDiffersAt(s, t, id)
  {
    forall other ensures other != id ==>
      && (other in t.db.executions <==> other in s.db.executions)
      && (other in s.db.executions ==> t.db.executions[other] == s.db.executions[other])
      && (other in t.tasks <==> other in s.tasks)
      && (other in s.tasks ==> t.tasks[other] == s.tasks[other])
    {
      assert other in s.db.executions <==> other in t.db.executions - {id};
      assert other in s.tasks <==> other in t.tasks - {id};
    }
    forall other | other in t.tasks ensures TaskOk(t, other) {
      assert other != id ==> TaskOk(s, other);
    }
    assert StartedOk(s, hook);
    forall other | other in t.db.executions ensures ExecutionOk(config, t, other) {
      assert other != id ==> ExecutionOk(config, s, other);
    }
    forall other ensures StartedOk(t, other) {
      assert StartedOk(s, other);
    }
  }

  lemma AdmitKeepsDistinct(s: State, hook: Slug, id: Id)
    requires OrderOk(s, hook) && id !in s.db.executions
    ensures Distinct(At(s.log.admitted, hook) + [id])
  {
    var admitted := At(s.log.admitted, hook);
    forall i | 0 <= i < |admitted| ensures admitted[i] != id {
      assert admitted[i] in admitted && BelongsTo(s, hook, admitted[i]);
    }
  }

  lemma EnterKeepsOrder(config: Config, s: State, t: State, hook: Slug, id: Id, status: Status)
    requires Enters(config, s, t, hook, id, status) && config[hook].Exclusive()
    requires HookOk(config, s, hook) && StartedOk(s, hook)
    ensures HookOk(config, t, hook)
  {
    AdmitKeepsDistinct(s, hook, id);
    assert Waiters(t, hook) == Waiters(s, hook) == [] && Holder(t, hook) == [id] && Holder(s, hook) == [];
    assert Line(t, hook) == Line(s, hook) + [id];
    assert At(s.log.finished, hook) + Holder(s, hook) == At(s.log.finished, hook);
    SubsequenceGrowsAll(At(s.log.started, hook), At(s.log.finished, hook), id);
  }

  lemma EnterKeepsExecutions(config: Config, s: State, t: State, hook: Slug, id: Id, status: Status)
    requires Inv(config, s) && Enters(config, s, t, hook, id, status)
    ensures OnlyDiffersAt(s, t, id)
    ensures forall other :: other in t.tasks ==> TaskOk(t, other)
    ensures forall other :: other in t.db.executions ==> ExecutionOk(config, t, other)
    ensures forall other :: StartedOk(t, other)
  {
    assert id in s.tasks ==> TaskOk(s, id);
    FreshKeepsExecutions(config, s, t, hook, id);
  }

  lemma EnterPreserves(config: Config, s: State, t: State, hook: Slug, id: Id, status: Status)
    requires Inv(config, s) && Enters(config, s, t, hook, id, status)
    ensures Inv(config, t)
  {
    EnterKeepsExecutions(config, s, t, hook, id, status);
    forall other | other in t.db.locks ensures LockOk(config, t, other) && HolderActive(t, other) {
      EnterKeepsLock(config, s, t, hook, id, status, other);
    }
    forall other | other in config && config[other].Exclusive() ensures HookOk(config, t, other) {
      if other == hook {
        assert HookOk(config, s, hook) && StartedOk(s, hook);
        EnterKeepsOrder(config, s, t, hook, id, status);
      } else {
        OtherHookOk(config, s, t, hook, id, other);
      }
    }
  }

  lemma EnterKeepsLock(config: Config, s: State, t: State, hook: Slug, id: Id, status: Status, other: Slug)
    requires Inv(config, s) && Enters(config, s, t, hook, id, status) && other in t.db.locks
    ensures LockOk(config, t, other) && HolderActive(t, other)
  {
    if other in s.db.locks {
      assert LockOk(config, s, other) && HolderActive(s, other);
    }
  }

  /** A fresh execution of one hook does not touch the line of another. */
  lemma OtherHookOk(config: Config, s: State, t: State, hook: Slug, id: Id, other: Slug)
    requires Inv(config, s) && id !in s.db.executions && OnlyDiffersAt(s, t, id)
    requires other in config && config[other].Exclusive() && other != hook
    requires Rows(t.db, other) == Rows(s.db, other) && SameLog(s, t, other)
    requires other in s.db.locks <==> other in t.db.locks
    requires other in s.db.locks ==> t.db.locks[other] == s.db.locks[other]
    ensures HookOk(config, t, other)
  {
    assert HookOk(config, s, other);
    HolderNotWaiting(config, s, other, id);
    HookFrame(config, s, t, other, id);
  }

  lemma JoinGrowsLine(config: Config, s: State, t: State, hook: Slug, id: Id)
    requires Joins(config, s, t, hook, id) && Shaped(Rows(s.db, hook))
    ensures Shaped(Rows(t.db, hook)) && Waiters(t, hook) == Waiters(s, hook) + [id]
    ensures CountWaiting(Rows(t.db, hook)) <= config[hook].concurrency.value.queueDepth
  {
    EnqueueKeepsShape(Rows(s.db, hook), id);
  }

  lemma JoinKeepsQueue(config: Config, s: State, t: State, hook: Slug, id: Id)
    requires Joins(config, s, t, hook, id) && QueueOk(config, s, hook) && StartedOk(s, hook)
    requires id !in s.tasks
    ensures QueueOk(config, t, hook) && Waiters(t, hook) == Waiters(s, hook) + [id]
  {
    JoinGrowsLine(config, s, t, hook, id);
    forall other | other in Waiters(t, hook) ensures WaitsOk(t, hook, other) {
      assert other != id ==> WaitsOk(s, hook, other);
    }
  }

  lemma JoinKeepsOrder(config: Config, s: State, t: State, hook: Slug, id: Id)
    requires Joins(config, s, t, hook, id) && OrderOk(s, hook) && Waiters(t, hook) == Waiters(s, hook) + [id]
    ensures OrderOk(t, hook)
  {
    AdmitKeepsDistinct(s, hook, id);
    Regroup(At(s.log.finished, hook) + Holder(s, hook), Waiters(s, hook), [id]);
    assert At(t.log.admitted, hook) == At(s.log.admitted, hook) + [id];
    assert At(t.log.finished, hook) == At(s.log.finished, hook) && Holder(t, hook) == Holder(s, hook);
    assert At(t.log.started, hook) == At(s.log.started, hook);
    forall other | other in At(t.log.admitted, hook) ensures BelongsTo(t, hook, other) {
      assert other != id ==> BelongsTo(s, hook, other);
    }
  }

  lemma JoinKeepsExecutions(config: Config, s: State, t: State, hook: Slug, id: Id)
    requires Inv(config, s) && Joins(config, s, t, hook, id)
    ensures id !in s.tasks && OnlyDiffersAt(s, t, id)
    ensures forall other :: other in t.tasks ==> TaskOk(t, other)
    ensures forall other :: other in t.db.executions ==> ExecutionOk(config, t, other)
    ensures forall other :: StartedOk(t, other)
  {
    assert id in s.tasks ==> TaskOk(s, id);
    FreshKeepsExecutions(config, s, t, hook, id);
  }

  lemma JoinKeepsLocks(config: Config, s: State, t: State, hook: Slug, id: Id)
    requires Inv(config, s) && Joins(config, s, t, hook, id)
    ensures forall other :: other in t.db.locks ==> LockOk(config, t, other) && HolderActive(t, other)
  {
    forall other | other in t.db.locks ensures LockOk(config, t, other) && HolderActive(t, other) {
      assert LockOk(config, s, other) && HolderActive(s, other);
    }
  }

  lemma JoinKeepsHook(config: Config, s: State, t: State, hook: Slug, id: Id)
    requires Inv(config, s) && Joins(config, s, t, hook, id) && id !in s.tasks
    ensures HookOk(config, t, hook)
  {
    assert HookOk(config, s, hook) && StartedOk(s, hook);
    JoinKeepsQueue(config, s, t, hook, id);
    JoinKeepsOrder(config, s, t, hook, id);
  }

  lemma JoinPreserves(config: Config, s: State, t: State, hook: Slug, id: Id)
    requires Inv(config, s) && Joins(config, s, t, hook, id)
    ensures Inv(config, t)
  {
    JoinKeepsExecutions(config, s, t, hook, id);
    JoinKeepsLocks(config, s, t, hook, id);
    forall other | other in config && config[other].Exclusive() ensures HookOk(config, t, other) {
      if other == hook {
        JoinKeepsHook(config, s, t, hook, id);
      } else {
        OtherHookOk(config, s, t, hook, id, other);
      }
    }
  }

  /**
   What the caller of a trigger is told is what became of the execution: it lines up last, with the next
   position, exactly if the lock is held and the queue is below its depth; otherwise a held lock
   refuses it without a trace; and without a held lock it is admitted, to its task or to approval.
   */
  lemma TriggerOutcome(config: Config, s: State, hook: Slug, id: Id)
    requires Inv(config, s) && hook in config && id !in s.db.executions
    ensures var (t, outcome) := Trigger(config, s, hook, id);
      var concurrency, approval := config[hook].concurrency, config[hook].approval;
      var locked := concurrency.Some? && hook in s.db.locks;
      var joins := locked && concurrency.value.mode == Queue && |Waiters(s, hook)| < concurrency.value.queueDepth;
      var asks := approval.Some? && approval.value.required;
      && (outcome.Queued? <==> joins) && (outcome.Refused? <==> locked && !joins) && !outcome.Ignored?
      && (joins ==> outcome.position == |Rows(s.db, hook)| + 1 && Waiters(t, hook) == Waiters(s, hook) + [id]
                    && HasStatus(t.db, id, Pending) && id !in t.tasks)
      && (outcome.Refused? ==> t == s && outcome.waiting == if concurrency.value.mode == Mutex then 0 else |Waiters(s, hook)|)
      && (outcome.Spawned? ==> HasStatus(t.db, id, Pending) && InPhase(t, id, Starting))
      && (outcome.AwaitingApproval? ==> HasStatus(t.db, id, PendingApproval) && id !in t.tasks)
      && (!locked && concurrency.Some? ==> HoldsLock(t.db, hook, id))
      && (!locked ==> outcome == if asks then AwaitingApproval else Spawned)
  {
    assert id in s.tasks ==> TaskOk(s, id);
    if !(config[hook].Exclusive() && hook in s.db.locks) {
      AdmittedOutcome(config, s, hook, id);
    } else if config[hook].Queues() && CountWaiting(Rows(s.db, hook)) < config[hook].concurrency.value.queueDepth {
      QueuedOutcome(config, s, hook, id);
    }
  }

  lemma AdmittedOutcome(config: Config, s: State, hook: Slug, id: Id)
    requires hook in config && id !in s.db.executions && id !in s.tasks
    requires config[hook].Exclusive() ==> hook !in s.db.locks
    ensures var (t, outcome) := Trigger(config, s, hook, id);
      && outcome == (if config[hook].RequiresApproval() then AwaitingApproval else Spawned)
      && (config[hook].Exclusive() ==> HoldsLock(t.db, hook, id))
      && (if config[hook].RequiresApproval() then HasStatus(t.db, id, PendingApproval) && id !in t.tasks
          else HasStatus(t.db, id, Pending) && InPhase(t, id, Starting))
  {
  }

  lemma QueuedOutcome(config: Config, s: State, hook: Slug, id: Id)
    requires Inv(config, s) && hook in config && id !in s.db.executions && config[hook].Queues() && hook in s.db.locks
    requires CountWaiting(Rows(s.db, hook)) < config[hook].concurrency.value.queueDepth
    ensures var (t, outcome) := Trigger(config, s, hook, id);
      && outcome == Queued(|Rows(s.db, hook)| + 1) && Waiters(t, hook) == Waiters(s, hook) + [id]
      && HasStatus(t.db, id, Pending) && t.tasks == s.tasks
  {
    QueuedJoins(config, s, hook, id);
    JoinedLast(config, s, Trigger(config, s, hook, id).0, hook, id);
  }

  lemma JoinedLast(config: Config, s: State, t: State, hook: Slug, id: Id)
    requires Inv(config, s) && Joins(config, s, t, hook, id)
    ensures MaxPosition(Rows(s.db, hook)) == |Rows(s.db, hook)| && Waiters(t, hook) == Waiters(s, hook) + [id]
  {
    assert HookOk(config, s, hook);
    LastPosition(Rows(s.db, hook));
    JoinGrowsLine(config, s, t, hook, id);
  }

  lemma QueuedJoins(config: Config, s: State, hook: Slug, id: Id)
    requires hook in config && id !in s.db.executions && config[hook].Queues() && hook in s.db.locks
    requires CountWaiting(Rows(s.db, hook)) < config[hook].concurrency.value.queueDepth
    ensures var (t, outcome) := Trigger(config, s, hook, id);
      && outcome == Queued(MaxPosition(Rows(s.db, hook)) + 1) && Joins(config, s, t, hook, id)
      && HasStatus(t.db, id, Pending) && t.tasks == s.tasks
  {
  }

  // ----- Runs -----

  lemma StepPreserves(config: Config, s: State, step: Step)
    requires Inv(config, s)
    ensures Inv(config, Apply(config, s, step))
  {
    match step
    case TriggerStep(hook, id) =>
      var t := Trigger(config, s, hook, id).0;
      TriggerCases(config, s, hook, id);
      if t != s {
        if Joins(config, s, t, hook, id) {
          JoinPreserves(config, s, t, hook, id);
        } else {
          EnterPreserves(config, s, t, hook, id, if config[hook].RequiresApproval() then PendingApproval else Pending);
        }
      }
    case StartStep(id, logsReady) => StartPreserves(config, s, id, logsReady);
    case ExitStep(id, status, exitCode) => ExitPreserves(config, s, id, status, exitCode);
    case RetryStep(id) => RetryPreserves(config, s, id);
    case CompleteStep(id) => CompletePreserves(config, s, id);
    case ApproveStep(id) => ApprovePreserves(config, s, id);
    case RejectStep(id) =>
      if HasStatus(s.db, id, PendingApproval) {
        WithdrawPreserves(config, s, id, Rejected);
      }
    case ExpireStep(id) =>
      if HasStatus(s.db, id, PendingApproval) {
        WithdrawPreserves(config, s, id, Expired);
      }
  }

  lemma {:induction false} RunPreserves(config: Config, s: State, steps: seq<Step>)
    requires Inv(config, s)
    ensures Inv(config, Run(config, s, steps))
  {
    if steps != [] {
      RunPreserves(config, s, steps[..|steps| - 1]);
      StepPreserves(config, Run(config, s, steps[..|steps| - 1]), steps[|steps| - 1]);
    }
  }

  lemma InitialHolds(config: Config)
    ensures Inv(config, INITIAL)
  {
  }

  /**
   First in, first out.  After any run, the executions that a hook ever admitted are, in order, those
   that gave the lock up, then the holder, then those who wait; no execution occurs twice; without a
   holder nothing waits; and the executions that ever ran started in the order of their admission.
   */
  lemma FirstInFirstOut(config: Config, steps: seq<Step>, hook: Slug)
    requires hook in config && config[hook].Exclusive()
    ensures var s := Run(config, INITIAL, steps);
      && At(s.log.admitted, hook) == At(s.log.finished, hook) + Holder(s, hook) + Waiters(s, hook)
      && Distinct(At(s.log.admitted, hook))
      && (hook !in s.db.locks ==> Waiters(s, hook) == [])
      && Subsequence(At(s.log.started, hook), At(s.log.finished, hook) + Holder(s, hook))
  {
    InitialHolds(config);
    RunPreserves(config, INITIAL, steps);
    assert HookOk(config, Run(config, INITIAL, steps), hook);
  }

  /** The waiting count never exceeds the configured depth, and a mutex hook never queues. */
  lemma QueueDepthBound(config: Config, steps: seq<Step>, hook: Slug)
    requires hook in config && config[hook].Exclusive()
    ensures var s := Run(config, INITIAL, steps);
      && Shaped(Rows(s.db, hook))
      && (config[hook].concurrency.value.mode == Queue ==>
            CountWaiting(Rows(s.db, hook)) <= config[hook].concurrency.value.queueDepth)
      && (config[hook].concurrency.value.mode == Mutex ==> Rows(s.db, hook) == [])
  {
    InitialHolds(config);
    RunPreserves(config, INITIAL, steps);
    assert HookOk(config, Run(config, INITIAL, steps), hook);
  }
}
