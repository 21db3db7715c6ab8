/**
 The approval sweep reads its list first and treats the rows one by one, and mark_expired does not say
 whether it changed anything.  A row that moved on in between is still followed up.  Exactly when is
 that harmless?
 */
module Sweep {
  import opened Options
  import opened Database
  import opened QueueShape
  import opened Server
  import opened Fifo

  /** A waiting entry that the follow-up expires is no longer in the shape of the queue. */
  lemma ExpireBreaksShape(rows: seq<QueueEntry>, id: Id)
    requires Shaped(rows) && id in WaitingIds(rows)
    ensures !Shaped(ExpireRows(rows, id))
  {
    var k :| 0 <= k < CountWaiting(rows) && WaitingIds(rows)[k] == id;
    var i := Split(rows) + k;
    assert rows[i].status == Waiting && ExpireRows(rows, id)[i].status == Stale;
  }

  lemma StaleRowOfHolder(config: Config, s: State, hook: Slug)
    requires Inv(config, s) && hook in s.db.locks && !HasStatus(s.db, s.db.locks[hook], PendingApproval)
    ensures !Inv(config, SweepRow(config, s, s.db.locks[hook]))
  {
    var id := s.db.locks[hook];
    assert LockOk(config, s, hook) && HolderActive(s, hook) && ExecutionOk(config, s, id) && HookOk(config, s, hook);
    assert id in s.tasks;
    HolderNotWaiting(config, s, hook, id);
    forall other | other in s.db.queue ensures ExpireRows(s.db.queue[other], id) == s.db.queue[other] {
      assert HookOk(config, s, other);
      HolderNotWaiting(config, s, other, id);
      NothingToExpire(s.db.queue[other], id);
    }
    assert ExpireForExecution(s.db, id) == s.db;
    var t := SweepRow(config, s, id);
    assert t == GiveUpLock(config[hook], s, hook, id);
    GiveUpHandsOver(config, s, hook);
    if Waiters(s, hook) != [] {
      assert Waiters(s, hook)[0] in Waiters(s, hook);
    }
    assert id in t.tasks && !HoldsLock(t.db, hook, id) && BelongsTo(t, hook, id);
    assert !ExecutionOk(config, t, id);
  }

  lemma StaleRowOfWaiter(config: Config, s: State, hook: Slug, id: Id)
    requires Inv(config, s) && hook in config && config[hook].Exclusive() && id in Waiters(s, hook)
    ensures !Inv(config, SweepRow(config, s, id))
  {
    assert HookOk(config, s, hook) && WaitsOk(s, hook, id);
    assert hook in s.db.queue;
    if HoldsLock(s.db, hook, id) {
      HolderNotWaiting(config, s, hook, id);
    }
    ExpireBreaksShape(Rows(s.db, hook), id);
    var t := SweepRow(config, s, id);
    assert Rows(t.db, hook) == ExpireRows(Rows(s.db, hook), id);
    assert !HookOk(config, t, hook);
  }

  lemma StaleRowOfOther(config: Config, s: State, id: Id)
    requires Inv(config, s) && id in s.db.executions && !HasStatus(s.db, id, PendingApproval)
    requires var hook := s.db.executions[id].hook;
      config[hook].Exclusive() && !HoldsLock(s.db, hook, id) && id !in Waiters(s, hook)
    ensures SweepRow(config, s, id) == s
  {
    forall other | other in s.db.queue ensures ExpireRows(s.db.queue[other], id) == s.db.queue[other] {
      assert HookOk(config, s, other);
      assert id in Waiters(s, other) ==> WaitsOk(s, other, id);
      NothingToExpire(s.db.queue[other], id);
    }
    assert ExpireForExecution(s.db, id) == s.db;
  }

  /**
   The sweep's work on one row keeps the barrier's invariant if and only if the row still awaits
   approval, or its execution neither holds the lock nor waits for it.
   */
  lemma SweepRowExact(config: Config, s: State, id: Id)
    requires Inv(config, s) && id in s.db.executions && config[s.db.executions[id].hook].Exclusive()
    ensures var hook := s.db.executions[id].hook;
      Inv(config, SweepRow(config, s, id))
      <==> HasStatus(s.db, id, PendingApproval) || (!HoldsLock(s.db, hook, id) && id !in Waiters(s, hook))
  {
    var hook := s.db.executions[id].hook;
    assert ExecutionOk(config, s, id);
    if HasStatus(s.db, id, PendingApproval) {
      WithdrawPreserves(config, s, id, Expired);
    } else if HoldsLock(s.db, hook, id) {
      StaleRowOfHolder(config, s, hook);
    } else if id in Waiters(s, hook) {
      StaleRowOfWaiter(config, s, hook, id);
    } else {
      StaleRowOfOther(config, s, id);
    }
  }

  const MUTEX_WITH_APPROVAL := HookConfig(Some(ConcurrencyConfig(Mutex, 0)), Some(ApprovalConfig(true, Some(60))), 0)

  lemma FreeLockLists(config: Config, s: State, hook: Slug, id: Id)
    requires hook in config && config[hook] == MUTEX_WITH_APPROVAL && hook !in s.db.locks && id !in s.db.executions
    ensures var t := Apply(config, s, TriggerStep(hook, id));
      && t.db.executions == s.db.executions[id := Execution(hook, PendingApproval, None, 0)]
      && t.db.locks == s.db.locks[hook := id] && t.db.queue == s.db.queue && t.tasks == s.tasks
  {
  }

  lemma ListedRuns(config: Config, s: State, hook: Slug, id: Id)
    requires hook in config && HasStatus(s.db, id, PendingApproval) && BelongsTo(s, hook, id)
    ensures var t := Apply(config, Apply(config, s, ApproveStep(id)), StartStep(id, true));
      && t.db == s.db.(executions := s.db.executions[id := s.db.executions[id].(status := Running)])
      && t.tasks == s.tasks[id := Task(Commanding, 0)]
  {
    var approved := Apply(config, s, ApproveStep(id));
    assert approved.db.executions == s.db.executions[id := s.db.executions[id].(status := Pending)];
  }

  /** Trigger, approve, start: from a free lock the new execution runs. */
  lemma FreeLockRuns(config: Config, s: State, hook: Slug, id: Id)
    requires hook in config && config[hook] == MUTEX_WITH_APPROVAL && hook !in s.db.locks && id !in s.db.executions
    ensures var listed := Apply(config, s, TriggerStep(hook, id));
      var t := Run(config, listed, [ApproveStep(id), StartStep(id, true)]);
      && HasStatus(listed.db, id, PendingApproval)
      && t.db.executions == s.db.executions[id := Execution(hook, Running, None, 0)]
      && t.db.locks == s.db.locks[hook := id] && t.db.queue == s.db.queue
      && t.tasks == s.tasks[id := Task(Commanding, 0)]
  {
    var listed := Apply(config, s, TriggerStep(hook, id));
    FreeLockLists(config, s, hook, id);
    ListedRuns(config, listed, hook, id);
    RunTwo(config, listed, ApproveStep(id), StartStep(id, true));
  }

  /** The follow-up on a row whose execution holds the lock frees a mutex. */
  lemma SweepFreesMutex(config: Config, s: State, hook: Slug, id: Id)
    requires hook in config && config[hook] == MUTEX_WITH_APPROVAL
    requires HasStatus(s.db, id, Running) && BelongsTo(s, hook, id) && HoldsLock(s.db, hook, id)
    ensures var t := SweepRow(config, s, id);
      hook !in t.db.locks && t.db.executions == s.db.executions && t.tasks == s.tasks
  {
  }

  /**
   A row approved between the sweep's list and the row's turn: the sweep frees the lock under the
   running command, and a second execution of the same mutex hook runs beside the first.
   */
  lemma LateSweepRunsTwo()
    ensures var config := map["deploy" := MUTEX_WITH_APPROVAL];
      var listed := Apply(config, INITIAL, TriggerStep("deploy", "a"));
      var running := Run(config, listed, [ApproveStep("a"), StartStep("a", true)]);
      var swept := SweepRow(config, running, "a");
      var second := Apply(config, swept, TriggerStep("deploy", "b"));
      var after := Run(config, second, [ApproveStep("b"), StartStep("b", true)]);
      && HasStatus(listed.db, "a", PendingApproval)
      && HasStatus(after.db, "a", Running) && HasStatus(after.db, "b", Running)
      && "a" in after.tasks && "b" in after.tasks
  {
    var config := map["deploy" := MUTEX_WITH_APPROVAL];
    FreeLockRuns(config, INITIAL, "deploy", "a");
    var listed := Apply(config, INITIAL, TriggerStep("deploy", "a"));
    var running := Run(config, listed, [ApproveStep("a"), StartStep("a", true)]);
    SweepFreesMutex(config, running, "deploy", "a");
    FreeLockRuns(config, SweepRow(config, running, "a"), "deploy", "b");
  }

  lemma RunOne(config: Config, s: State, step: Step)
    ensures Run(config, s, [step]) == Apply(config, s, step)
  {
    assert [step][..0] == [];
  }

  lemma RunTwo(config: Config, s: State, first: Step, second: Step)
    ensures Run(config, s, [first, second]) == Apply(config, Apply(config, s, first), second)
  {
    RunOne(config, s, first);
    assert [first, second][..1] == [first];
  }
}
