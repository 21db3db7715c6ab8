/**
 What the barrier does not guarantee statement by statement, as runs from the initial world.  A completion that
 has found the queue empty can free the lock after another trigger joined the queue; the entry then waits
 with nobody to serve it, and the next trigger overtakes it.  A crash frees the lock of a running execution
 and leaves those who wait.  Two triggers can both find room for one.  Handlers that run as a whole do
 none of this (module Fifo); modules Stranded and Overrun say exactly which statements do.
 */
module LostHandOver {
  import opened Options
  import opened Database
  import opened QueueShape
  import opened Interleaving

  // ----- Runs in pieces -----

  lemma {:induction false} RunConcat(config: Config, w: World, first: seq<Step>, second: seq<Step>)
    ensures Run(config, w, first + second) == Run(config, Run(config, w, first), second)
  {
    if second == [] {
      assert first + second == first;
    } else {
      var init := second[..|second| - 1];
      assert (first + second)[..|first + second| - 1] == first + init;
      RunConcat(config, w, first, init);
    }
  }

  lemma RunOne(config: Config, w: World, step: Step)
    ensures Run(config, w, [step]) == Apply(config, w, step)
  {
    assert [step][..0] == [];
  }

  lemma RunTwo(config: Config, w: World, first: Step, second: Step)
    ensures Run(config, w, [first, second]) == Apply(config, Apply(config, w, first), second)
  {
    assert [first, second][..1] == [first];
    RunOne(config, w, first);
  }

  lemma RunThree(config: Config, w: World, first: Step, second: Step, third: Step)
    ensures Run(config, w, [first, second, third])
            == Apply(config, Apply(config, Apply(config, w, first), second), third)
  {
    assert [first, second, third][..2] == [first, second];
    RunTwo(config, w, first, second);
  }

  const QUEUE_OF_ONE := HookConfig(Some(ConcurrencyConfig(Queue, 1)), None, 0)
  const CHOICE := Choice(true, Success, Some(0))

  /** A trigger up to the point where it has found the lock held and room in the queue. */
  function PassCount(p: nat, hook: Slug, id: Id): seq<Step> {
    [ArriveStep(p, TryLock(hook, id)), AdvanceStep(p, CHOICE), AdvanceStep(p, CHOICE)]
  }

  lemma PassesCount(config: Config, w: World, p: nat, hook: Slug, id: Id)
    requires hook in config && config[hook].Queues() && hook in w.db.locks
    requires CountWaiting(Rows(w.db, hook)) < config[hook].concurrency.value.queueDepth
    requires p !in w.actors && id !in w.used
    ensures Run(config, w, PassCount(p, hook, id))
            == w.(used := w.used + {id}, actors := w.actors[p := InsertQueued(hook, id)])
  {
    RunThree(config, w, ArriveStep(p, TryLock(hook, id)), AdvanceStep(p, CHOICE), AdvanceStep(p, CHOICE));
    var arrived := w.(used := w.used + {id}, actors := w.actors[p := TryLock(hook, id)]);
    var counting := w.(used := w.used + {id}, actors := w.actors[p := CountQueue(hook, id)]);
    assert Apply(config, w, ArriveStep(p, TryLock(hook, id))) == arrived;
    assert Apply(config, arrived, AdvanceStep(p, CHOICE)) == counting;
  }

  /** The rest of that trigger: create the execution, then enqueue it. */
  function JoinQueue(p: nat): seq<Step> {
    [AdvanceStep(p, CHOICE), AdvanceStep(p, CHOICE)]
  }

  lemma JoinsQueue(config: Config, w: World, p: nat, hook: Slug, id: Id)
    requires hook in config && p in w.actors && w.actors[p] == InsertQueued(hook, id)
    ensures Run(config, w, JoinQueue(p))
            == w.(db := Enqueue(Create(w.db, id, hook, Pending), hook, id), actors := w.actors - {p})
  {
    RunTwo(config, w, AdvanceStep(p, CHOICE), AdvanceStep(p, CHOICE));
    var created := w.(db := Create(w.db, id, hook, Pending), actors := w.actors[p := EnqueueRow(hook, id)]);
    assert Apply(config, w, AdvanceStep(p, CHOICE)) == created;
    assert w.actors[p := EnqueueRow(hook, id)] - {p} == w.actors - {p};
  }

  lemma Joins(config: Config, w: World, p: nat, hook: Slug, id: Id)
    requires hook in config && config[hook].Queues() && hook in w.db.locks
    requires CountWaiting(Rows(w.db, hook)) < config[hook].concurrency.value.queueDepth
    requires p !in w.actors && id !in w.used
    ensures Run(config, w, PassCount(p, hook, id) + JoinQueue(p))
            == w.(db := Enqueue(Create(w.db, id, hook, Pending), hook, id), used := w.used + {id})
  {
    var passed := w.(used := w.used + {id}, actors := w.actors[p := InsertQueued(hook, id)]);
    PassesCount(config, w, p, hook, id);
    JoinsQueue(config, passed, p, hook, id);
    RunConcat(config, w, PassCount(p, hook, id), JoinQueue(p));
    assert w.actors[p := InsertQueued(hook, id)] - {p} == w.actors;
  }

  // ----- A first execution -----

  function Deploy(status: Status, exitCode: Option<int>): map<Id, Execution> {
    map["a" := Execution("deploy", status, exitCode, 0)]
  }

  /** The execution "a" holds the lock and `actor` acts for it; nothing waits. */
  function Held(status: Status, exitCode: Option<int>, actor: Actor, ran: set<Id>): World {
    World(Db(Deploy(status, exitCode), map["deploy" := "a"], map[]), map[0 := actor], {"a"}, {}, ran)
  }

  const RUNNING := Held(Running, None, FinishCommand("deploy", "a", 0), {"a"})
  const DROPPING := Held(Success, Some(0), DropLock("deploy", "a"), {"a"})

  const LOCKED := World(Db(map[], map["deploy" := "a"], map[]), map[0 := InsertAdmitted("deploy", "a")], {"a"}, {}, {})

  lemma FirstLocks(config: Config)
    requires config == map["deploy" := QUEUE_OF_ONE]
    ensures Run(config, INITIAL, [ArriveStep(0, TryLock("deploy", "a")), AdvanceStep(0, CHOICE)]) == LOCKED
  {
    RunTwo(config, INITIAL, ArriveStep(0, TryLock("deploy", "a")), AdvanceStep(0, CHOICE));
  }

  lemma FirstRuns(config: Config) returns (steps: seq<Step>)
    requires config == map["deploy" := QUEUE_OF_ONE]
    ensures Run(config, INITIAL, steps) == RUNNING
  {
    var arrive, advance := ArriveStep(0, TryLock("deploy", "a")), AdvanceStep(0, CHOICE);
    FirstLocks(config);
    RunTwo(config, LOCKED, advance, advance);
    assert Apply(config, LOCKED, advance) == Held(Pending, None, StartCommand("deploy", "a", 0), {});
    RunConcat(config, INITIAL, [arrive, advance], [advance, advance]);
    steps := [arrive, advance] + [advance, advance];
  }

  /** It runs up to the point where its completion handler has found the queue empty. */
  lemma FirstFindsQueueEmpty(config: Config) returns (steps: seq<Step>)
    requires config == map["deploy" := QUEUE_OF_ONE]
    ensures Run(config, INITIAL, steps) == DROPPING
  {
    var advance := AdvanceStep(0, CHOICE);
    var before := FirstRuns(config);
    RunTwo(config, RUNNING, advance, advance);
    assert Apply(config, RUNNING, advance) == Held(Success, Some(0), PeekQueue("deploy", "a"), {"a"});
    assert Apply(config, Held(Success, Some(0), PeekQueue("deploy", "a"), {"a"}), advance) == DROPPING;
    RunConcat(config, INITIAL, before, [advance, advance]);
    steps := before + [advance, advance];
  }

  /** In a world where "a" holds the lock and nothing waits, a second trigger joins the queue. */
  lemma SecondJoins(config: Config, w: World) returns (steps: seq<Step>)
    requires config == map["deploy" := QUEUE_OF_ONE] && (w == RUNNING || w == DROPPING)
    ensures var t := Run(config, w, steps);
      && t.db.executions == w.db.executions["b" := Execution("deploy", Pending, None, 0)]
      && t.db.locks == w.db.locks && t.db.queue == map["deploy" := [QueueEntry("b", 1, Waiting)]]
      && t.actors == w.actors && t.used == {"a", "b"}
  {
    Joins(config, w, 1, "deploy", "b");
    assert [] + [QueueEntry("b", 1, Waiting)] == [QueueEntry("b", 1, Waiting)];
    steps := PassCount(1, "deploy", "b") + JoinQueue(1);
  }

  lemma OneWaits(row: QueueEntry)
    requires row.status == Waiting
    ensures WaitingIds([row]) == [row.execution]
  {
    var rows := [row];
    assert rows[..|rows| - 1] == [] && CountWaiting(rows[..|rows| - 1]) == 0;
    assert CountWaiting(rows) == 1 && Split(rows) == 0;
    assert WaitingIds(rows)[0] == row.execution;
  }

  // ----- The runs -----

  /** The lock is dropped behind an enqueue: an execution waits, the lock is free, and no actor is left. */
  lemma WaitsWithoutHolder(config: Config) returns (steps: seq<Step>)
    requires config == map["deploy" := QUEUE_OF_ONE]
    ensures var w := Run(config, INITIAL, steps);
      w.actors == map[] && "deploy" !in w.db.locks && WaitingIds(Rows(w.db, "deploy")) == ["b"] && w.used == {"a", "b"}
  {
    var drop := AdvanceStep(0, CHOICE);
    var first := FirstFindsQueueEmpty(config);
    var second := SecondJoins(config, DROPPING);
    RunConcat(config, INITIAL, first, second);
    RunConcat(config, INITIAL, first + second, [drop]);
    RunOne(config, Run(config, DROPPING, second), drop);
    OneWaits(QueueEntry("b", 1, Waiting));
    steps := first + second + [drop];
  }

  /** And the next trigger takes the lock in front of the execution that waits. */
  lemma NextTriggerOvertakes(config: Config) returns (steps: seq<Step>)
    requires config == map["deploy" := QUEUE_OF_ONE]
    ensures var w := Run(config, INITIAL, steps);
      HoldsLock(w.db, "deploy", "c") && WaitingIds(Rows(w.db, "deploy")) == ["b"]
  {
    var before := WaitsWithoutHolder(config);
    var arrive, advance := ArriveStep(0, TryLock("deploy", "c")), AdvanceStep(0, CHOICE);
    RunTwo(config, Run(config, INITIAL, before), arrive, advance);
    RunConcat(config, INITIAL, before, [arrive, advance]);
    steps := before + [arrive, advance];
  }

  /** A crash while "a" runs and "b" waits: the recovery frees the lock, and nobody is left to serve "b". */
  lemma CrashStrands(config: Config) returns (steps: seq<Step>)
    requires config == map["deploy" := QUEUE_OF_ONE]
    ensures var w := Run(config, INITIAL, steps);
      && w.actors == map[] && "deploy" !in w.db.locks && WaitingIds(Rows(w.db, "deploy")) == ["b"]
      && HasStatus(w.db, "b", Pending) && HasStatus(w.db, "a", Failed)
  {
    var first := FirstRuns(config);
    var second := SecondJoins(config, RUNNING);
    var w := Run(config, RUNNING, second);
    RunConcat(config, INITIAL, first, second);
    RunConcat(config, INITIAL, first + second, [CrashStep]);
    RunOne(config, w, CrashStep);
    assert RecoverySteps(w.db, 0) == w.db && RecoverySteps(w.db, 1) == FailRunning(w.db);
    assert RecoverySteps(w.db, 2) == DropOrphanLocks(FailRunning(w.db));
    assert ExpireStaleRows(FailRunning(w.db).executions, [QueueEntry("b", 1, Waiting)]) == [QueueEntry("b", 1, Waiting)];
    OneWaits(QueueEntry("b", 1, Waiting));
    steps := first + second + [CrashStep];
  }

  /** Two triggers find room for one before either has taken it: two executions wait at depth one. */
  lemma DepthOverrun(config: Config) returns (steps: seq<Step>)
    requires config == map["deploy" := QUEUE_OF_ONE]
    ensures CountWaiting(Rows(Run(config, INITIAL, steps).db, "deploy")) == 2
  {
    var first := FirstRuns(config);
    var b, c := PassCount(1, "deploy", "b"), PassCount(2, "deploy", "c");
    PassesCount(config, RUNNING, 1, "deploy", "b");
    var one := Run(config, RUNNING, b);
    PassesCount(config, one, 2, "deploy", "c");
    var two := Run(config, one, c);
    JoinsQueue(config, two, 1, "deploy", "b");
    var three := Run(config, two, JoinQueue(1));
    JoinsQueue(config, three, 2, "deploy", "c");
    RunConcat(config, INITIAL, first, b);
    RunConcat(config, INITIAL, first + b, c);
    RunConcat(config, INITIAL, first + b + c, JoinQueue(1));
    RunConcat(config, INITIAL, first + b + c + JoinQueue(1), JoinQueue(2));
    steps := first + b + c + JoinQueue(1) + JoinQueue(2);
    CountAppend([], QueueEntry("b", 1, Waiting));
    assert [] + [QueueEntry("b", 1, Waiting)] == [QueueEntry("b", 1, Waiting)];
    assert Rows(three.db, "deploy") == [QueueEntry("b", 1, Waiting)];
    CountAppend(Rows(three.db, "deploy"), QueueEntry("c", MaxPosition(Rows(three.db, "deploy")) + 1, Waiting));
  }
}
