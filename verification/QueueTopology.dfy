/**
 From the report to the broker: when no two jobs of a key run at once, the queues that exist and are bound are
 those the target wants; exactly when that is so, and how a lost handle lets two jobs of one key race.
 */
module QueueTopology {
  import opened Options
  import opened TargetTracking
  import opened TrackerActor
  import opened QueueController
  import opened RequestBroker
  import opened PoolSystem

  // ---------------------------------------------------------------------------------------------
  // Job numbers and abort handles
  // ---------------------------------------------------------------------------------------------

  /** Jobs are numbered in spawn order, and the handle of a key is that of its newest job. */
  ghost predicate Numbered(c: Controller, progress: map<nat, nat>, failed: set<nat>) {
    && (forall i, j :: 0 <= i < j < |c.jobs| ==> c.jobs[i].id < c.jobs[j].id)
    && (forall job :: job in c.jobs ==> job.id < c.nextId)
    && (forall id :: id in progress || id in failed || id in c.aborted ==> id < c.nextId)
    && (forall k :: k in c.handles ==> c.handles[k] < c.nextId)
    && (forall k, job :: k in c.handles && job in c.jobs && job.id == c.handles[k] ==> job.key == k)
  }

  lemma SameIdSameJob(c: Controller, progress: map<nat, nat>, failed: set<nat>, a: Job, b: Job)
    requires Numbered(c, progress, failed) && a in c.jobs && b in c.jobs
    ensures a.id == b.id ==> a == b
  {
  }

  lemma SpawnKeepsNumbered(c: Controller, progress: map<nat, nat>, failed: set<nat>, k: Key, goal: Goal)
    requires Numbered(c, progress, failed)
    ensures Numbered(Spawn(c, k, goal), progress, failed)
  {
  }

  /** The new job runs; the job of its key that ran is aborted if its handle was held; other jobs go on. */
  lemma SpawnedRuns(c: Controller, progress: map<nat, nat>, failed: set<nat>, k: Key, goal: Goal, job: Job)
    requires Numbered(c, progress, failed) && job in c.jobs
    ensures Runs(Spawn(c, k, goal), progress, failed, Job(c.nextId, k, goal))
    ensures Runs(Spawn(c, k, goal), progress, failed, job)
            <==> Runs(c, progress, failed, job) && !(job.key == k && Lookup(c.handles, k) == Some(job.id))
  {
  }

  lemma SpawnKeepsReplaceable(c: Controller, progress: map<nat, nat>, failed: set<nat>, k: Key, goal: Goal, k': Key)
    requires Numbered(c, progress, failed) && Replaceable(c, progress, failed, k')
    ensures Replaceable(Spawn(c, k, goal), progress, failed, k')
  {
    var c' := Spawn(c, k, goal);
    forall job | job in c.jobs && job.key == k' && Runs(c', progress, failed, job)
      ensures Lookup(c'.handles, k') == Some(job.id)
    {
      SpawnedRuns(c, progress, failed, k, goal, job);
    }
  }

  lemma {:induction false} SpawnAllKeepsNumbered(c: Controller, progress: map<nat, nat>, failed: set<nat>,
                                                 keys: seq<Key>, goals: map<Key, QueueStatus>)
    requires Numbered(c, progress, failed)
    ensures Numbered(SpawnAll(c, keys, goals), progress, failed)
  {
    if keys != [] {
      var init, last := keys[..|keys| - 1], keys[|keys| - 1];
      SpawnAllKeepsNumbered(c, progress, failed, init, goals);
      SpawnKeepsNumbered(SpawnAll(c, init, goals), progress, failed, last, Lookup(goals, last));
    }
  }

  lemma {:induction false} SpawnAllKeepsReplaceable(c: Controller, progress: map<nat, nat>, failed: set<nat>,
                                                    keys: seq<Key>, goals: map<Key, QueueStatus>, k: Key)
    requires Numbered(c, progress, failed) && Replaceable(c, progress, failed, k)
    ensures Replaceable(SpawnAll(c, keys, goals), progress, failed, k)
  {
    if keys != [] {
      var init, last := keys[..|keys| - 1], keys[|keys| - 1];
      SpawnAllKeepsReplaceable(c, progress, failed, init, goals, k);
      SpawnAllKeepsNumbered(c, progress, failed, init, goals);
      SpawnKeepsReplaceable(SpawnAll(c, init, goals), progress, failed, last, Lookup(goals, last), k);
    }
  }

  lemma JoinedAre(c: Controller, progress: map<nat, nat>, failed: set<nat>, i: nat, job: Job)
    requires Numbered(c, progress, failed) && i < |c.jobs|
    ensures job in Join(c, i).jobs <==> job in c.jobs && job != c.jobs[i]
  {
    var rest := Join(c, i).jobs;
    if job in c.jobs && job != c.jobs[i] {
      var j :| 0 <= j < |c.jobs| && c.jobs[j] == job;
      assert job == if j < i then rest[j] else rest[j - 1];
    }
  }

  lemma JoinKeepsNumbered(c: Controller, progress: map<nat, nat>, failed: set<nat>, i: nat)
    requires Numbered(c, progress, failed) && i < |c.jobs|
    ensures Numbered(Join(c, i), progress, failed)
  {
    forall job
      ensures job in Join(c, i).jobs <==> job in c.jobs && job != c.jobs[i]
    {
      JoinedAre(c, progress, failed, i, job);
    }
  }

  /** The controller holds the handle of every job it may have to abort: of every job that runs. */
  ghost predicate HoldsHandles(s: Pool) {
    forall k :: Replaceable(s.controller, s.progress, s.failed, k)
  }

  /** A join keeps the handles of the running jobs exactly when no other job of its key runs. */
  lemma JoinKeepsHandlesIff(s: Pool, i: nat)
    requires Numbered(s.controller, s.progress, s.failed) && HoldsHandles(s) && CanComplete(s, i)
    ensures HoldsHandles(s.(controller := Join(s.controller, i))) <==> Respects(s, i, NoneRunning)
  {
    var c, c', k := s.controller, Join(s.controller, i), s.controller.jobs[i].key;
    forall job
      ensures job in c'.jobs <==> job in c.jobs && job != c.jobs[i]
      ensures Runs(c', s.progress, s.failed, job) <==> Runs(c, s.progress, s.failed, job)
    {
      JoinedAre(c, s.progress, s.failed, i, job);
    }
    forall k' | k' != k
      ensures Replaceable(c', s.progress, s.failed, k')
    {
      assert Replaceable(c, s.progress, s.failed, k');
    }
    assert Lookup(c'.handles, k) == None;
    assert Replaceable(c', s.progress, s.failed, k) <==> Respects(s, i, NoneRunning);
  }

  // ---------------------------------------------------------------------------------------------
  // Every key is where it is wanted, or a job is taking it there
  // ---------------------------------------------------------------------------------------------

  /** What the operations a job has done so far make of the topology of its key. */
  predicate Partly(goal: Goal, done: nat, topology: Option<QueueStatus>) {
    && done <= 2
    && (done == 1 && goal.Some? ==> topology.Some?)
    && (done == 1 && goal.None? ==> topology != Some(Active))
    && (done == 2 ==> topology == goal)
  }

  /** An operation changes the topology of its own key only, in the way its job expects. */
  lemma PerformAdvances(b: Broker, k: Key, goal: Goal, done: nat)
    requires done < 2 && Partly(goal, done, Topology(b, k)) && Perform(b, k, OpOf(goal, done)).Some?
    ensures var b' := Perform(b, k, OpOf(goal, done)).value;
            && Partly(goal, done + 1, Topology(b', k))
            && forall k' :: k' != k ==> Topology(b', k') == Topology(b, k')
  {
  }

  /** The job is the newest of its key, pursues what is wanted, and no other job of the key runs. */
  ghost predicate IsAim(c: Controller, progress: map<nat, nat>, failed: set<nat>, b: Broker, job: Job, want: Goal) {
    && job in c.jobs && job.goal == want
    && Partly(job.goal, DoneOf(progress, job.id), Topology(b, job.key))
    && forall other :: other in c.jobs && other.key == job.key ==>
         other.id <= job.id && (Runs(c, progress, failed, other) ==> other == job)
  }

  ghost predicate Pursuing(c: Controller, progress: map<nat, nat>, failed: set<nat>, b: Broker, k: Key, want: Goal) {
    exists job: Job :: job.key == k && IsAim(c, progress, failed, b, job, want)
  }

  ghost predicate Arrived(c: Controller, progress: map<nat, nat>, failed: set<nat>, b: Broker, k: Key, want: Goal) {
    && Topology(b, k) == want
    && forall other :: other in c.jobs && other.key == k ==> !Runs(c, progress, failed, other)
  }

  ghost predicate Aimed(c: Controller, progress: map<nat, nat>, failed: set<nat>, b: Broker, k: Key, want: Goal) {
    Pursuing(c, progress, failed, b, k, want) || Arrived(c, progress, failed, b, k, want)
  }

  lemma SpawnAims(c: Controller, progress: map<nat, nat>, failed: set<nat>, b: Broker, k: Key, goal: Goal)
    requires Numbered(c, progress, failed) && Replaceable(c, progress, failed, k)
    ensures Aimed(Spawn(c, k, goal), progress, failed, b, k, goal)
  {
    forall job | job in c.jobs && job.key == k
      ensures !Runs(Spawn(c, k, goal), progress, failed, job)
    {
      SpawnedRuns(c, progress, failed, k, goal, job);
    }
    assert IsAim(Spawn(c, k, goal), progress, failed, b, Job(c.nextId, k, goal), goal);
  }

  lemma SpawnKeepsAim(c: Controller, progress: map<nat, nat>, failed: set<nat>, b: Broker, k: Key, goal: Goal,
                      k': Key, want: Goal)
    requires Aimed(c, progress, failed, b, k', want) && k' != k
    ensures Aimed(Spawn(c, k, goal), progress, failed, b, k', want)
  {
    if Pursuing(c, progress, failed, b, k', want) {
      var job: Job :| job.key == k' && IsAim(c, progress, failed, b, job, want);
      assert IsAim(Spawn(c, k, goal), progress, failed, b, job, want);
    }
  }

  lemma {:induction false} SpawnAllAims(c: Controller, progress: map<nat, nat>, failed: set<nat>, b: Broker,
                                        keys: seq<Key>, goals: map<Key, QueueStatus>, k: Key, want: Goal)
    requires Numbered(c, progress, failed)
    requires if k in keys then want == Lookup(goals, k) && Replaceable(c, progress, failed, k)
             else Aimed(c, progress, failed, b, k, want)
    ensures Aimed(SpawnAll(c, keys, goals), progress, failed, b, k, want)
  {
    if keys != [] {
      var init, last := keys[..|keys| - 1], keys[|keys| - 1];
      assert keys == init + [last];
      var mid, goal := SpawnAll(c, init, goals), Lookup(goals, last);
      if last == k {
        SpawnAllKeepsNumbered(c, progress, failed, init, goals);
        SpawnAllKeepsReplaceable(c, progress, failed, init, goals, k);
        SpawnAims(mid, progress, failed, b, k, goal);
      } else {
        SpawnAllAims(c, progress, failed, b, init, goals, k, want);
        SpawnKeepsAim(mid, progress, failed, b, last, goal, k, want);
      }
    }
  }

  lemma OperateKeepsAim(c: Controller, progress: map<nat, nat>, failed: set<nat>, b: Broker, job: Job, k: Key, want: Goal)
    requires Numbered(c, progress, failed) && Aimed(c, progress, failed, b, k, want)
    requires job in c.jobs && Runs(c, progress, failed, job)
    requires Perform(b, job.key, OpOf(job.goal, DoneOf(progress, job.id))).Some?
    ensures var done := DoneOf(progress, job.id);
            var b' := Perform(b, job.key, OpOf(job.goal, done)).value;
            Aimed(c, progress[job.id := done + 1], failed, b', k, want)
  {
    var done := DoneOf(progress, job.id);
    var progress', b' := progress[job.id := done + 1], Perform(b, job.key, OpOf(job.goal, done)).value;
    forall other | other in c.jobs
      ensures other != job ==> DoneOf(progress', other.id) == DoneOf(progress, other.id)
    {
      SameIdSameJob(c, progress, failed, job, other);
    }
    if Pursuing(c, progress, failed, b, k, want) {
      var aim: Job :| aim.key == k && IsAim(c, progress, failed, b, aim, want);
      if k == job.key {
        PerformAdvances(b, k, job.goal, done);
      } else {
        PerformLeavesOthers(b, job.key, OpOf(job.goal, done), k);
      }
      assert IsAim(c, progress', failed, b', aim, want);
    } else {
      PerformLeavesOthers(b, job.key, OpOf(job.goal, done), k);
    }
  }

  lemma PerformLeavesOthers(b: Broker, k: Key, op: Op, k': Key)
    requires Perform(b, k, op).Some? && k' != k
    ensures Topology(Perform(b, k, op).value, k') == Topology(b, k')
  {
  }

  lemma FailKeepsAim(c: Controller, progress: map<nat, nat>, failed: set<nat>, b: Broker, id: nat, k: Key, want: Goal)
    requires Aimed(c, progress, failed, b, k, want)
    ensures Aimed(c, progress, failed + {id}, b, k, want)
  {
    if Pursuing(c, progress, failed, b, k, want) {
      var aim: Job :| aim.key == k && IsAim(c, progress, failed, b, aim, want);
      assert IsAim(c, progress, failed + {id}, b, aim, want);
    }
  }

  /** A completed job leaves its key arrived if it was the aim, and changes nothing of the aim otherwise. */
  lemma JoinKeepsAim(c: Controller, progress: map<nat, nat>, failed: set<nat>, b: Broker, i: nat, k: Key, want: Goal)
    requires Numbered(c, progress, failed) && Aimed(c, progress, failed, b, k, want)
    requires i < |c.jobs| && DoneOf(progress, c.jobs[i].id) == 2
    ensures Aimed(Join(c, i), progress, failed, b, k, want)
  {
    var c' := Join(c, i);
    forall job
      ensures job in c'.jobs <==> job in c.jobs && job != c.jobs[i]
    {
      JoinedAre(c, progress, failed, i, job);
    }
    assert forall job :: Runs(c', progress, failed, job) <==> Runs(c, progress, failed, job);
    if Pursuing(c, progress, failed, b, k, want) {
      var aim: Job :| aim.key == k && IsAim(c, progress, failed, b, aim, want);
      if aim != c.jobs[i] {
        assert IsAim(c', progress, failed, b, aim, want);
      } else {
        assert Arrived(c', progress, failed, b, k, want);
      }
    }
  }

  lemma SameTopologyKeepsAim(c: Controller, progress: map<nat, nat>, failed: set<nat>, b: Broker, b': Broker, k: Key, want: Goal)
    requires Aimed(c, progress, failed, b, k, want) && Topology(b', k) == Topology(b, k)
    ensures Aimed(c, progress, failed, b', k, want)
  {
    if Pursuing(c, progress, failed, b, k, want) {
      var aim: Job :| aim.key == k && IsAim(c, progress, failed, b, aim, want);
      assert IsAim(c, progress, failed, b', aim, want);
    }
  }

  lemma RetargetKeepsAim(c: Controller, progress: map<nat, nat>, failed: set<nat>, b: Broker, u: Update, generation: nat,
                         k: Key, want: Goal)
    requires Aimed(c, progress, failed, b, k, want)
    ensures Aimed(c.(target := u, reportedGeneration := generation), progress, failed, b, k, want)
  {
    var c' := c.(target := u, reportedGeneration := generation);
    assert forall job :: Runs(c', progress, failed, job) <==> Runs(c, progress, failed, job);
    if Pursuing(c, progress, failed, b, k, want) {
      var aim: Job :| aim.key == k && IsAim(c, progress, failed, b, aim, want);
      assert IsAim(c', progress, failed, b, aim, want);
    }
  }

  // ---------------------------------------------------------------------------------------------
  // Whole runs
  // ---------------------------------------------------------------------------------------------

  ghost predicate AllNumbered(s: Pool) {
    Numbered(s.controller, s.progress, s.failed)
  }

  ghost predicate AimedAt(s: Pool, k: Key) {
    Aimed(s.controller, s.progress, s.failed, s.broker, k, Lookup(s.controller.target.queues, k))
  }

  lemma StartIsAimed(s: Pool, keys: seq<Key>, k: Key)
    requires Initial(s, keys)
    ensures AllNumbered(s) && AimedAt(s, k) && Replaceable(s.controller, s.progress, s.failed, k)
  {
    var c := Assumed(s.broker.queues.Keys, s.published);
    SpawnAllPursues(c, keys, s.published.queues, k);
    if k !in keys {
      assert Arrived(c, map[], {}, s.broker, k, Lookup(s.published.queues, k));
    }
    SpawnAllKeepsNumbered(c, map[], {}, keys, s.published.queues);
    SpawnAllKeepsReplaceable(c, map[], {}, keys, s.published.queues, k);
    SpawnAllAims(c, map[], {}, s.broker, keys, s.published.queues, k, Lookup(s.published.queues, k));
  }

  lemma ControlKeepsNumbered(s: Pool, a: ControlAction)
    requires AllNumbered(s)
    ensures AllNumbered(StepControl(s, a))
  {
    match a
    case AdoptTarget(keys) =>
      SpawnAllKeepsNumbered(s.controller, s.progress, s.failed, keys, s.published.queues);
    case JobJoins(i) =>
      if CanComplete(s, i) {
        JoinKeepsNumbered(s.controller, s.progress, s.failed, i);
      }
    case JobOperates(i) =>
      if i < |s.controller.jobs| {
        assert s.controller.jobs[i] in s.controller.jobs;
      }
    case JobFails(i) =>
      if i < |s.controller.jobs| {
        assert s.controller.jobs[i] in s.controller.jobs;
      }
  }

  lemma AdoptKeepsAim(s: Pool, keys: seq<Key>, k: Key)
    requires AllNumbered(s) && AimedAt(s, k) && DiffOrder(s.controller.target.queues, s.published.queues, keys)
    requires k in keys ==> Replaceable(s.controller, s.progress, s.failed, k)
    ensures AimedAt(s.(controller := Change(s.controller, s.published, keys)), k)
  {
    var u, want := s.published, Lookup(s.published.queues, k);
    var c := SpawnAll(s.controller, keys, u.queues);
    SpawnAllAims(s.controller, s.progress, s.failed, s.broker, keys, u.queues, k, want);
    RetargetKeepsAim(c, s.progress, s.failed, s.broker, u, u.generation, k, want);
  }

  lemma OperatePoolKeepsAim(s: Pool, i: nat, k: Key)
    requires AllNumbered(s) && AimedAt(s, k) && i < |s.controller.jobs|
    ensures AimedAt(Operate(s, i), k)
  {
    if Operate(s, i) != s {
      OperateKeepsAim(s.controller, s.progress, s.failed, s.broker, s.controller.jobs[i], k,
                      Lookup(s.controller.target.queues, k));
    }
  }

  lemma ControlKeepsAim(s: Pool, a: ControlAction, k: Key)
    requires AllNumbered(s) && AimedAt(s, k) && Obeys(s, Control(a), Aborting)
    ensures AimedAt(StepControl(s, a), k)
  {
    if !s.stopped {
      var want := Lookup(s.controller.target.queues, k);
      match a
      case AdoptTarget(keys) =>
        if DiffOrder(s.controller.target.queues, s.published.queues, keys) {
          AdoptKeepsAim(s, keys, k);
        }
      case JobOperates(i) =>
        if i < |s.controller.jobs| {
          OperatePoolKeepsAim(s, i, k);
        }
      case JobFails(i) =>
        if i < |s.controller.jobs| {
          FailKeepsAim(s.controller, s.progress, s.failed, s.broker, s.controller.jobs[i].id, k, want);
        }
      case JobJoins(i) =>
        if CanComplete(s, i) {
          JoinKeepsAim(s.controller, s.progress, s.failed, s.broker, i, k, want);
        }
    }
  }

  lemma OutsideKeepsTopology(s: Pool, a: OutsideAction, k: Key)
    ensures Topology(StepOutside(s, a).broker, k) == Topology(s.broker, k)
    ensures StepOutside(s, a).controller == s.controller && StepOutside(s, a).progress == s.progress
  {
  }

  lemma ProcessorKeepsControl(s: Pool, a: ProcessorAction)
    ensures StepProcessor(s, a).controller == s.controller
  {
  }

  lemma ProcessorKeepsProgress(s: Pool, a: ProcessorAction)
    ensures StepProcessor(s, a).progress == s.progress
  {
  }

  lemma WaitingKeepsBroker(s: Pool, a: ProcessorAction)
    requires a.ProcessNext? || a.RequireGroup? || a.CatchUp?
    ensures StepProcessor(s, a).broker == s.broker
  {
  }

  lemma MovingKeepsQueues(s: Pool, a: ProcessorAction)
    requires a.Deliver? || a.Acknowledge? || a.ProcessorFails?
    ensures StepProcessor(s, a).broker.queues == s.broker.queues
  {
  }

  lemma ProcessorKeepsTopology(s: Pool, a: ProcessorAction, k: Key)
    ensures Topology(StepProcessor(s, a).broker, k) == Topology(s.broker, k)
  {
    if a.Republish? {
      RepublishKeepsTopology(s, k);
    } else if a.Deliver? || a.Acknowledge? || a.ProcessorFails? {
      MovingKeepsQueues(s, a);
    } else {
      WaitingKeepsBroker(s, a);
    }
  }

  lemma RepublishKeepsTopology(s: Pool, k: Key)
    ensures Topology(RepublishHeld(s).broker, k) == Topology(s.broker, k)
  {
  }

  /** Publishers, workers, the tracker and the orphan processor leave the controller and the topology alone. */
  lemma MessagesKeepControl(s: Pool, a: Action, k: Key)
    requires !a.Control?
    ensures Step(s, a).controller == s.controller && Step(s, a).progress == s.progress && Step(s, a).failed == s.failed
    ensures Topology(Step(s, a).broker, k) == Topology(s.broker, k)
  {
    if a.Outside? {
      OutsideKeepsTopology(s, a.outside, k);
    } else {
      ProcessorKeepsControl(s, a.process);
      ProcessorKeepsProgress(s, a.process);
      ProcessorKeepsTopology(s, a.process, k);
    }
  }

  lemma {:induction false} RunIsNumbered(s: Pool, keys: seq<Key>, actions: seq<Action>)
    requires Initial(s, keys)
    ensures AllNumbered(Run(s, actions))
  {
    if actions == [] {
      StartIsAimed(s, keys, Key(""));
    } else {
      var before, a := Run(s, actions[..|actions| - 1]), actions[|actions| - 1];
      RunIsNumbered(s, keys, actions[..|actions| - 1]);
      if a.Control? {
        ControlKeepsNumbered(before, a.control);
      } else {
        MessagesKeepControl(before, a, Key(""));
      }
    }
  }

  /**
   Over every run whose adoptions hold the handles of the running jobs they replace, each key is where it is
   wanted, or its newest job is taking it there and is the only one of the key that runs.
   */
  lemma {:induction false} RunIsAimed(s: Pool, keys: seq<Key>, actions: seq<Action>, k: Key)
    requires Initial(s, keys) && AlwaysObeys(s, actions, Aborting)
    ensures AimedAt(Run(s, actions), k)
  {
    if actions == [] {
      StartIsAimed(s, keys, k);
    } else {
      var before, a := Run(s, actions[..|actions| - 1]), actions[|actions| - 1];
      RunIsAimed(s, keys, actions[..|actions| - 1], k);
      RunIsNumbered(s, keys, actions[..|actions| - 1]);
      if a.Control? {
        ControlKeepsAim(before, a.control, k);
      } else {
        MessagesKeepControl(before, a, k);
        SameTopologyKeepsAim(before.controller, before.progress, before.failed, before.broker, Step(before, a).broker,
                             k, Lookup(before.controller.target.queues, k));
      }
    }
  }

  /**
   Over every such run, a key without an outstanding job has, in the broker itself, exactly the queue the target
   wants: none, an unbound one or a bound one.  When the joins are harmless as well, that is what is reported.
   */
  lemma TopologyConverges(s: Pool, keys: seq<Key>, actions: seq<Action>, k: Key)
    requires Initial(s, keys) && AlwaysObeys(s, actions, Aborting)
    requires Quiet(Run(s, actions).controller.jobs, k)
    ensures var s' := Run(s, actions);
            && Topology(s'.broker, k) == Lookup(s'.controller.target.queues, k)
            && (AlwaysObeys(s, actions, OnlyHarmless) ==> Topology(s'.broker, k) == Lookup(s'.controller.reported, k))
  {
    RunIsAimed(s, keys, actions, k);
    ReportConvergesIff(s, keys, actions);
    NoJobNoGoal(Run(s, actions).controller.jobs, k);
    assert Chasing(Run(s, actions).controller) ==>
           Pursued(Run(s, actions).controller, k) == Lookup(Run(s, actions).controller.target.queues, k);
  }

  // ---------------------------------------------------------------------------------------------
  // When jobs race, and when handles are lost
  // ---------------------------------------------------------------------------------------------

  /** Two jobs of one key that both run. */
  ghost predicate Together(c: Controller, progress: map<nat, nat>, failed: set<nat>, a: Job, b: Job) {
    && a in c.jobs && b in c.jobs && a.key == b.key && a != b
    && Runs(c, progress, failed, a) && Runs(c, progress, failed, b)
  }

  ghost predicate NoRace(s: Pool) {
    forall a, b :: !Together(s.controller, s.progress, s.failed, a, b)
  }

  ghost predicate NeverRaces(s: Pool, actions: seq<Action>) {
    NoRace(Run(s, actions)) && (actions == [] || NeverRaces(s, actions[..|actions| - 1]))
  }

  /** A job that runs and whose handle the controller does not hold. */
  ghost predicate Stray(c: Controller, progress: map<nat, nat>, failed: set<nat>, job: Job) {
    job in c.jobs && Runs(c, progress, failed, job) && Lookup(c.handles, job.key) != Some(job.id)
  }

  lemma SpawnKeepsStray(c: Controller, progress: map<nat, nat>, failed: set<nat>, k: Key, goal: Goal, job: Job)
    requires Numbered(c, progress, failed) && Stray(c, progress, failed, job)
    ensures Stray(Spawn(c, k, goal), progress, failed, job)
  {
    SpawnedRuns(c, progress, failed, k, goal, job);
  }

  lemma {:induction false} SpawnAllKeepsStray(c: Controller, progress: map<nat, nat>, failed: set<nat>,
                                              keys: seq<Key>, goals: map<Key, QueueStatus>, job: Job)
    requires Numbered(c, progress, failed) && Stray(c, progress, failed, job)
    ensures Stray(SpawnAll(c, keys, goals), progress, failed, job)
  {
    if keys != [] {
      var init, last := keys[..|keys| - 1], keys[|keys| - 1];
      SpawnAllKeepsStray(c, progress, failed, init, goals, job);
      SpawnAllKeepsNumbered(c, progress, failed, init, goals);
      SpawnKeepsStray(SpawnAll(c, init, goals), progress, failed, last, Lookup(goals, last), job);
    }
  }

  lemma SpawnKeepsTogether(c: Controller, progress: map<nat, nat>, failed: set<nat>, k: Key, goal: Goal, a: Job, b: Job)
    requires Numbered(c, progress, failed) && Together(c, progress, failed, a, b) && a.key != k
    ensures Together(Spawn(c, k, goal), progress, failed, a, b)
  {
    SpawnedRuns(c, progress, failed, k, goal, a);
    SpawnedRuns(c, progress, failed, k, goal, b);
  }

  /** A stray job goes on running beside the one that replaces it. */
  lemma {:induction false} SpawnAllRaces(c: Controller, progress: map<nat, nat>, failed: set<nat>,
                                         keys: seq<Key>, goals: map<Key, QueueStatus>, job: Job) returns (rival: Job)
    requires Numbered(c, progress, failed) && Stray(c, progress, failed, job) && job.key in keys
    ensures Together(SpawnAll(c, keys, goals), progress, failed, job, rival)
  {
    var init, last := keys[..|keys| - 1], keys[|keys| - 1];
    var mid, goal := SpawnAll(c, init, goals), Lookup(goals, last);
    assert keys == init + [last];
    SpawnAllKeepsNumbered(c, progress, failed, init, goals);
    if last == job.key {
      SpawnAllKeepsStray(c, progress, failed, init, goals, job);
      SpawnedRuns(mid, progress, failed, last, goal, job);
      rival := Job(mid.nextId, last, goal);
      assert rival in Spawn(mid, last, goal).jobs;
    } else {
      rival := SpawnAllRaces(c, progress, failed, init, goals, job);
      SpawnKeepsTogether(mid, progress, failed, last, goal, job, rival);
    }
  }

  lemma AdoptingWithoutHandleRaces(s: Pool, keys: seq<Key>)
    requires AllNumbered(s) && CanAdopt(s, keys) && !Obeys(s, Control(AdoptTarget(keys)), Aborting)
    ensures !NoRace(StepControl(s, AdoptTarget(keys)))
  {
    var k :| k in keys && !Replaceable(s.controller, s.progress, s.failed, k);
    var job: Job :| job.key == k && Stray(s.controller, s.progress, s.failed, job);
    var rival := SpawnAllRaces(s.controller, s.progress, s.failed, keys, s.published.queues, job);
    assert Together(Change(s.controller, s.published, keys), s.progress, s.failed, job, rival);
  }

  lemma AimedIsAlone(s: Pool, a: Job, b: Job)
    requires AimedAt(s, a.key)
    ensures !Together(s.controller, s.progress, s.failed, a, b)
  {
  }

  lemma RunNeverRaces(s: Pool, keys: seq<Key>, actions: seq<Action>)
    requires Initial(s, keys) && AlwaysObeys(s, actions, Aborting)
    ensures NoRace(Run(s, actions))
  {
    forall a, b
      ensures !Together(Run(s, actions).controller, Run(s, actions).progress, Run(s, actions).failed, a, b)
    {
      RunIsAimed(s, keys, actions, a.key);
      AimedIsAlone(Run(s, actions), a, b);
    }
  }

  /**
   Over every run, no two jobs of a key ever run at once exactly when every adoption of a target holds the handle
   of each running job it replaces.
   */
  lemma {:induction false} NoRaceIff(s: Pool, keys: seq<Key>, actions: seq<Action>)
    requires Initial(s, keys)
    ensures NeverRaces(s, actions) <==> AlwaysObeys(s, actions, Aborting)
  {
    if AlwaysObeys(s, actions, Aborting) {
      RunNeverRaces(s, keys, actions);
    }
    if actions != [] {
      var init, a := actions[..|actions| - 1], actions[|actions| - 1];
      NoRaceIff(s, keys, init);
      if AlwaysObeys(s, init, Aborting) && !Obeys(Run(s, init), a, Aborting) {
        RunIsNumbered(s, keys, init);
        AdoptingWithoutHandleRaces(Run(s, init), a.control.keys);
      }
    }
  }

  ghost predicate AlwaysHoldsHandles(s: Pool, actions: seq<Action>) {
    HoldsHandles(Run(s, actions)) && (actions == [] || AlwaysHoldsHandles(s, actions[..|actions| - 1]))
  }

  lemma AdoptKeepsHandles(s: Pool, keys: seq<Key>)
    requires AllNumbered(s) && HoldsHandles(s)
    ensures HoldsHandles(s.(controller := Change(s.controller, s.published, keys)))
  {
    var c, c' := SpawnAll(s.controller, keys, s.published.queues), Change(s.controller, s.published, keys);
    forall k
      ensures Replaceable(c', s.progress, s.failed, k)
    {
      assert Replaceable(s.controller, s.progress, s.failed, k);
      SpawnAllKeepsReplaceable(s.controller, s.progress, s.failed, keys, s.published.queues, k);
      assert forall job :: Runs(c', s.progress, s.failed, job) <==> Runs(c, s.progress, s.failed, job);
    }
  }

  /** A job that operates or fails runs less than before. */
  lemma LessRunsKeepsHandles(s: Pool, s': Pool)
    requires HoldsHandles(s) && s'.controller == s.controller
    requires forall job :: job in s.controller.jobs && Runs(s'.controller, s'.progress, s'.failed, job) ==>
               Runs(s.controller, s.progress, s.failed, job)
    ensures HoldsHandles(s')
  {
    forall k
      ensures Replaceable(s'.controller, s'.progress, s'.failed, k)
    {
      assert Replaceable(s.controller, s.progress, s.failed, k);
    }
  }

  lemma ControlKeepsHandlesIff(s: Pool, a: ControlAction)
    requires AllNumbered(s) && HoldsHandles(s)
    ensures HoldsHandles(StepControl(s, a)) <==> Obeys(s, Control(a), NoneRunning)
  {
    if a.AdoptTarget? {
      AdoptKeepsHandles(s, a.keys);
    } else if a.JobJoins? && CanJoin(s, a.index) {
      if CanComplete(s, a.index) {
        JoinKeepsHandlesIff(s, a.index);
      } else {
        LessRunsKeepsHandles(s, StepControl(s, a));
      }
    } else {
      LessRunsKeepsHandles(s, StepControl(s, a));
    }
  }

  /**
   Over every run, the controller always holds the handle of every job that runs exactly when it never joins a
   job while another one of its key runs.
   */
  lemma {:induction false} HandlesKeptIff(s: Pool, keys: seq<Key>, actions: seq<Action>)
    requires Initial(s, keys)
    ensures AlwaysHoldsHandles(s, actions) <==> AlwaysObeys(s, actions, NoneRunning)
  {
    if actions == [] {
      StartHoldsHandles(s, keys);
    } else {
      var init, a := actions[..|actions| - 1], actions[|actions| - 1];
      HandlesKeptIff(s, keys, init);
      RunIsNumbered(s, keys, init);
      if HoldsHandles(Run(s, init)) {
        StepKeepsHandlesIff(Run(s, init), a);
      } else {
        assert !AlwaysHoldsHandles(s, init);
      }
    }
  }

  lemma StartHoldsHandles(s: Pool, keys: seq<Key>)
    requires Initial(s, keys)
    ensures HoldsHandles(s)
  {
    forall k
      ensures Replaceable(s.controller, s.progress, s.failed, k)
    {
      StartIsAimed(s, keys, k);
    }
  }

  lemma StepKeepsHandlesIff(s: Pool, a: Action)
    requires AllNumbered(s) && HoldsHandles(s)
    ensures HoldsHandles(Step(s, a)) <==> Obeys(s, a, NoneRunning)
  {
    if a.Control? {
      ControlKeepsHandlesIff(s, a.control);
    } else {
      MessagesKeepControl(s, a, Key(""));
      LessRunsKeepsHandles(s, Step(s, a));
    }
  }

  /** A run that holds every handle never races, so what is said of runs that never race is said of it. */
  lemma {:induction false} HandlesPreventRaces(s: Pool, keys: seq<Key>, actions: seq<Action>)
    requires Initial(s, keys) && AlwaysObeys(s, actions, NoneRunning)
    ensures AlwaysObeys(s, actions, Aborting)
  {
    if actions != [] {
      var init := actions[..|actions| - 1];
      HandlesPreventRaces(s, keys, init);
      HandlesKeptIff(s, keys, init);
    }
  }

  // ---------------------------------------------------------------------------------------------
  // Republication
  // ---------------------------------------------------------------------------------------------

  /** The outstanding jobs of the key numbered from `from` on all bind its queue. */
  ghost predicate AllBind(c: Controller, k: Key, from: nat) {
    forall job :: job in c.jobs && job.key == k && from <= job.id ==> job.goal == Some(Active)
  }

  /** A queue reported or made active stays bound as long as nothing but binding is asked of it. */
  ghost predicate KeptBound(c: Controller, progress: map<nat, nat>, b: Broker, k: Key) {
    && (Lookup(c.reported, k) == Some(Active) && AllBind(c, k, 0) ==> Topology(b, k) == Some(Active))
    && (forall job :: job in c.jobs && job.key == k && DoneOf(progress, job.id) == 2 && AllBind(c, k, job.id)
          ==> Topology(b, k) == Some(Active))
  }

  lemma SpawnKeepsBound(c: Controller, progress: map<nat, nat>, failed: set<nat>, b: Broker, k': Key, goal: Goal, k: Key)
    requires Numbered(c, progress, failed) && KeptBound(c, progress, b, k)
    ensures KeptBound(Spawn(c, k', goal), progress, b, k)
  {
    var c' := Spawn(c, k', goal);
    forall from: nat | AllBind(c', k, from)
      ensures AllBind(c, k, from)
    {
      assert forall job :: job in c.jobs ==> job in c'.jobs;
    }
  }

  lemma {:induction false} SpawnAllKeepsBound(c: Controller, progress: map<nat, nat>, failed: set<nat>, b: Broker,
                                              keys: seq<Key>, goals: map<Key, QueueStatus>, k: Key)
    requires Numbered(c, progress, failed) && KeptBound(c, progress, b, k)
    ensures var c' := SpawnAll(c, keys, goals);
            Numbered(c', progress, failed) && KeptBound(c', progress, b, k)
  {
    if keys != [] {
      var init, last := keys[..|keys| - 1], keys[|keys| - 1];
      SpawnAllKeepsBound(c, progress, failed, b, init, goals, k);
      SpawnKeepsBound(SpawnAll(c, init, goals), progress, failed, b, last, Lookup(goals, last), k);
      SpawnKeepsNumbered(SpawnAll(c, init, goals), progress, failed, last, Lookup(goals, last));
    }
  }

  /** A job that binds leaves a bound queue bound, and binds it in the end. */
  lemma BindingOps(b: Broker, k: Key, done: nat)
    requires done < 2 && Perform(b, k, OpOf(Some(Active), done)).Some?
    ensures var b' := Perform(b, k, OpOf(Some(Active), done)).value;
            Topology(b, k) == Some(Active) || done == 1 ==> Topology(b', k) == Some(Active)
  {
  }

  ghost predicate IsNewest(c: Controller, job: Job) {
    forall other :: other in c.jobs && other.key == job.key ==> other.id <= job.id
  }

  lemma OperateKeepsBound(c: Controller, progress: map<nat, nat>, failed: set<nat>, b: Broker, job: Job, k: Key)
    requires Numbered(c, progress, failed) && KeptBound(c, progress, b, k)
    requires job in c.jobs && Runs(c, progress, failed, job) && IsNewest(c, job)
    requires Perform(b, job.key, OpOf(job.goal, DoneOf(progress, job.id))).Some?
    ensures var done := DoneOf(progress, job.id);
            var b' := Perform(b, job.key, OpOf(job.goal, done)).value;
            KeptBound(c, progress[job.id := done + 1], b', k)
  {
    var done := DoneOf(progress, job.id);
    if k != job.key {
      PerformLeavesOthers(b, job.key, OpOf(job.goal, done), k);
    } else if job.goal == Some(Active) {
      BindingOps(b, k, done);
    }
    forall other | other in c.jobs && other.key == job.key
      ensures other.id <= job.id && (other.id == job.id ==> other == job)
    {
      SameIdSameJob(c, progress, failed, job, other);
    }
    assert job.goal != Some(Active) ==> forall from: nat :: from <= job.id ==> !AllBind(c, job.key, from);
  }

  /** In spawn order: what the joined job reports is what the later ones kept. */
  lemma JoinKeepsBound(c: Controller, progress: map<nat, nat>, failed: set<nat>, b: Broker, i: nat, k: Key)
    requires Numbered(c, progress, failed) && KeptBound(c, progress, b, k)
    requires i < |c.jobs| && InOrder(c, i) && DoneOf(progress, c.jobs[i].id) == 2
    ensures KeptBound(Join(c, i), progress, b, k)
  {
    var c', job := Join(c, i), c.jobs[i];
    forall other
      ensures other in c'.jobs <==> other in c.jobs && other != job
      ensures other in c.jobs && other.key == job.key && other != job ==> job.id < other.id
    {
      JoinedAre(c, progress, failed, i, other);
      if other in c.jobs && other.key == job.key && other != job {
        var j :| 0 <= j < |c.jobs| && c.jobs[j] == other;
      }
    }
    forall from: nat | AllBind(c', k, from) && (k != job.key || job.id < from || job.goal == Some(Active))
      ensures AllBind(c, k, from)
    {
    }
  }

  ghost predicate BoundAt(s: Pool, k: Key) {
    KeptBound(s.controller, s.progress, s.broker, k)
  }

  lemma ControlKeepsBound(s: Pool, a: ControlAction, k: Key)
    requires AllNumbered(s) && BoundAt(s, k) && Obeys(s, Control(a), SpawnOrder)
    requires forall k' :: AimedAt(s, k')
    ensures BoundAt(StepControl(s, a), k)
  {
    if !s.stopped {
      match a
      case AdoptTarget(keys) =>
        SpawnAllKeepsBound(s.controller, s.progress, s.failed, s.broker, keys, s.published.queues, k);
      case JobOperates(i) =>
        if i < |s.controller.jobs| && Operate(s, i) != s {
          assert AimedAt(s, s.controller.jobs[i].key);
          OperateKeepsBound(s.controller, s.progress, s.failed, s.broker, s.controller.jobs[i], k);
        }
      case JobFails(_) =>
      case JobJoins(i) =>
        if CanComplete(s, i) {
          JoinKeepsBound(s.controller, s.progress, s.failed, s.broker, i, k);
        }
    }
  }

  lemma StartIsBound(s: Pool, keys: seq<Key>, k: Key)
    requires Initial(s, keys)
    ensures BoundAt(s, k)
  {
    SpawnAllKeepsBound(Assumed(s.broker.queues.Keys, s.published), map[], {}, s.broker, keys, s.published.queues, k);
  }

  lemma {:induction false} RunKeepsBound(s: Pool, keys: seq<Key>, actions: seq<Action>, k: Key)
    requires Initial(s, keys) && AlwaysObeys(s, actions, Aborting) && AlwaysObeys(s, actions, SpawnOrder)
    ensures BoundAt(Run(s, actions), k)
  {
    if actions == [] {
      StartIsBound(s, keys, k);
    } else {
      var init, a := actions[..|actions| - 1], actions[|actions| - 1];
      RunKeepsBound(s, keys, init, k);
      RunIsNumbered(s, keys, init);
      forall k'
        ensures AimedAt(Run(s, init), k')
      {
        RunIsAimed(s, keys, init, k');
      }
      if a.Control? {
        ControlKeepsBound(Run(s, init), a.control, k);
      } else {
        MessagesKeepControl(Run(s, init), a, k);
      }
    }
  }

  /**
   Over every run that joins in spawn order and whose jobs never race, a republication reaches the request
   queue, and does not come back as an orphan, unless a job to unbind or delete it is outstanding.
   */
  lemma RepublicationReachesItsQueue(s: Pool, keys: seq<Key>, actions: seq<Action>)
    requires Initial(s, keys) && AlwaysObeys(s, actions, Aborting) && AlwaysObeys(s, actions, SpawnOrder)
    requires var s' := Run(s, actions);
             CanRepublish(s') && AllBind(s'.controller, s'.phase.message.key, 0)
    ensures var s' := Run(s, actions);
            var s'', m := StepProcessor(s', Republish), s'.phase.message;
            && s''.broker.orphans == s'.broker.orphans
            && Queued(s''.broker, m) == Queued(s'.broker, m) + 1
  {
    RunKeepsBound(s, keys, actions, Run(s, actions).phase.message.key);
    BoundIsReached(Run(s, actions));
  }

  lemma BoundIsReached(s: Pool)
    requires CanRepublish(s) && Topology(s.broker, s.phase.message.key) == Some(Active)
    ensures var s', m := StepProcessor(s, Republish), s.phase.message;
            s'.broker.orphans == s.broker.orphans && Queued(s'.broker, m) == Queued(s.broker, m) + 1
  {
  }

  // ---------------------------------------------------------------------------------------------
  // The lost handle
  // ---------------------------------------------------------------------------------------------

  /** A pool with one key, nothing in its queues and nothing for the orphan processor to do. */
  ghost function OneKeyPool(queues: map<Key, RequestQueue>, controller: Controller, progress: map<nat, nat>): Pool {
    Pool(Broker(queues, multiset{}, multiset{}, multiset{}), controller.target, controller,
         progress, {}, false, Phase.Idle, [], multiset{}, multiset{})
  }

  function QueueOf(k: Key, bound: bool): map<Key, RequestQueue> {
    map[k := RequestQueue(bound, multiset{})]
  }

  function Wants(generation: nat, k: Key, status: QueueStatus): Update {
    Update(generation, map[k := status])
  }

  lemma SpawnOne(c: Controller, k: Key, goals: map<Key, QueueStatus>)
    ensures SpawnAll(c, [k], goals) == Spawn(c, k, Lookup(goals, k))
  {
  }

  lemma OperateOnce(queues: map<Key, RequestQueue>, c: Controller, progress: map<nat, nat>, i: nat, queues': map<Key, RequestQueue>)
    requires i < |c.jobs|
    requires var job := c.jobs[i];
             && job.id !in c.aborted && DoneOf(progress, job.id) < 2
             && Perform(OneKeyPool(queues, c, progress).broker, job.key, OpOf(job.goal, DoneOf(progress, job.id)))
                == Some(OneKeyPool(queues', c, progress).broker)
    ensures var job := c.jobs[i];
            Step(OneKeyPool(queues, c, progress), Control(JobOperates(i)))
            == OneKeyPool(queues', c, progress[job.id := DoneOf(progress, job.id) + 1])
  {
  }

  /** A job for an existing queue, run to its end. */
  lemma JobRuns(k: Key, bound: bool, s: Pool, sofar: seq<Action>, c: Controller, progress: map<nat, nat>, i: nat)
    returns (actions: seq<Action>)
    requires i < |c.jobs| && c.jobs[i].key == k && c.jobs[i].goal.Some?
    requires c.jobs[i].id !in c.aborted && DoneOf(progress, c.jobs[i].id) == 0
    requires Run(s, sofar) == OneKeyPool(QueueOf(k, bound), c, progress)
    ensures Run(s, actions)
         == OneKeyPool(QueueOf(k, c.jobs[i].goal.value == Active), c, progress[c.jobs[i].id := 2])
  {
    var id := c.jobs[i].id;
    OperateOnce(QueueOf(k, bound), c, progress, i, QueueOf(k, bound));
    RunMore(s, sofar, Control(JobOperates(i)));
    actions := JobEnds(k, bound, s, sofar + [Control(JobOperates(i))], c, progress[id := 1], i);
    assert progress[id := 1][id := 2] == progress[id := 2];
  }

  lemma JobEnds(k: Key, bound: bool, s: Pool, sofar: seq<Action>, c: Controller, progress: map<nat, nat>, i: nat)
    returns (actions: seq<Action>)
    requires i < |c.jobs| && c.jobs[i].key == k && c.jobs[i].goal.Some?
    requires c.jobs[i].id !in c.aborted && DoneOf(progress, c.jobs[i].id) == 1
    requires Run(s, sofar) == OneKeyPool(QueueOf(k, bound), c, progress)
    ensures Run(s, actions)
         == OneKeyPool(QueueOf(k, c.jobs[i].goal.value == Active), c, progress[c.jobs[i].id := 2])
  {
    var bound' := c.jobs[i].goal.value == Active;
    assert QueueOf(k, bound)[k := RequestQueue(bound', multiset{})] == QueueOf(k, bound');
    OperateOnce(QueueOf(k, bound), c, progress, i, QueueOf(k, bound'));
    RunMore(s, sofar, Control(JobOperates(i)));
    actions := sofar + [Control(JobOperates(i))];
  }

  /** The tracker publishes another status for the key and the controller adopts it. */
  lemma Retarget(queues: map<Key, RequestQueue>, c: Controller, progress: map<nat, nat>, k: Key, u: Update)
    requires c.target.queues.Keys == {k} == u.queues.Keys && c.target.queues[k] != u.queues[k]
    requires c.target.generation < u.generation
    ensures Step(Step(OneKeyPool(queues, c, progress), Outside(TrackerPublishes(u))), Control(AdoptTarget([k])))
            == OneKeyPool(queues, Spawn(c, k, Some(u.queues[k])).(target := u, reportedGeneration := u.generation), progress)
  {
    assert DiffOrder(c.target.queues, u.queues, [k]);
    SpawnOne(c, k, u.queues);
    assert Change(c, u, [k]) == Spawn(c, k, Some(u.queues[k])).(target := u, reportedGeneration := u.generation);
  }

  lemma RunMore(s: Pool, actions: seq<Action>, a: Action)
    ensures Run(s, actions + [a]) == Step(Run(s, actions), a)
  {
  }

  lemma RunTwoMore(s: Pool, actions: seq<Action>, a: Action, a': Action)
    ensures Run(s, (actions + [a]) + [a']) == Step(Step(Run(s, actions), a), a')
  {
  }

  /** A queue that does not exist yet and is wanted active. */
  ghost function RaceStart(k: Key): Pool {
    OneKeyPool(map[], Controller([Job(0, k, Some(Active))], map[k := 0], {}, 1, Wants(0, k, Active), map[], 0), map[])
  }

  lemma RaceStartIsInitial(k: Key)
    ensures Initial(RaceStart(k), [k])
  {
  }

  /** The controller of the race once the handle of the job that unbinds is forgotten. */
  ghost function Forgetful(k: Key): Controller {
    Controller([Job(1, k, Some(Unbound))], map[], {0}, 2, Wants(1, k, Unbound), map[k := Active], 1)
  }

  lemma FirstJobBinds(k: Key) returns (actions: seq<Action>)
    ensures Run(RaceStart(k), actions) == OneKeyPool(QueueOf(k, true), RaceStart(k).controller, map[0 := 2])
  {
    var s := RaceStart(k);
    OperateOnce(map[], s.controller, map[], 0, QueueOf(k, false));
    RunMore(s, [], Control(JobOperates(0)));
    actions := JobEnds(k, false, s, [] + [Control(JobOperates(0))], s.controller, map[0 := 1], 0);
    assert map[0 := 1][0 := 2] == map[0 := 2];
  }

  /** The first job has bound the queue and is not joined yet; the second one is to unbind it. */
  ghost function TwoJobs(k: Key): Controller {
    Controller([Job(0, k, Some(Active)), Job(1, k, Some(Unbound))], map[k := 1], {0}, 2, Wants(1, k, Unbound), map[], 1)
  }

  lemma SecondJobSpawns(k: Key) returns (actions: seq<Action>)
    ensures Run(RaceStart(k), actions) == OneKeyPool(QueueOf(k, true), TwoJobs(k), map[0 := 2])
  {
    var s, u := RaceStart(k), Wants(1, k, Unbound);
    actions := FirstJobBinds(k);
    Retarget(QueueOf(k, true), s.controller, map[0 := 2], k, u);
    RunTwoMore(s, actions, Outside(TrackerPublishes(u)), Control(AdoptTarget([k])));
    actions := (actions + [Outside(TrackerPublishes(u))]) + [Control(AdoptTarget([k]))];
    var c := Spawn(s.controller, k, Some(Unbound)).(target := u, reportedGeneration := 1);
    assert c.jobs == TwoJobs(k).jobs;
    assert c.handles == TwoJobs(k).handles;
  }

  lemma JoinAt(queues: map<Key, RequestQueue>, c: Controller, progress: map<nat, nat>, i: nat)
    requires i < |c.jobs| && DoneOf(progress, c.jobs[i].id) == 2
    ensures Step(OneKeyPool(queues, c, progress), Control(JobJoins(i))) == OneKeyPool(queues, Join(c, i), progress)
  {
  }

  /**
   The job that bound the queue is joined while the job that unbinds it is outstanding, which forgets the
   handle of the newer job.
   */
  lemma HandleIsForgotten(k: Key) returns (actions: seq<Action>)
    ensures Run(RaceStart(k), actions) == OneKeyPool(QueueOf(k, true), Forgetful(k), map[0 := 2])
  {
    actions := SecondJobSpawns(k);
    JoinAt(QueueOf(k, true), TwoJobs(k), map[0 := 2], 0);
    RunMore(RaceStart(k), actions, Control(JobJoins(0)));
    actions := actions + [Control(JobJoins(0))];
    var c := Join(TwoJobs(k), 0);
    assert c.jobs == Forgetful(k).jobs;
    assert c.handles == map[];
    assert c.reported == map[k := Active];
  }

  /** Two live jobs of one key, the newer one binding and the older one unbinding. */
  ghost function Racing(k: Key): Controller {
    Controller([Job(1, k, Some(Unbound)), Job(2, k, Some(Active))], map[k := 2], {0}, 3, Wants(2, k, Active),
               map[k := Active], 2)
  }

  lemma JobsRace(k: Key) returns (actions: seq<Action>)
    ensures Run(RaceStart(k), actions) == OneKeyPool(QueueOf(k, true), Racing(k), map[0 := 2])
  {
    var s, u := RaceStart(k), Wants(2, k, Active);
    actions := HandleIsForgotten(k);
    Retarget(QueueOf(k, true), Forgetful(k), map[0 := 2], k, u);
    RunTwoMore(s, actions, Outside(TrackerPublishes(u)), Control(AdoptTarget([k])));
    actions := (actions + [Outside(TrackerPublishes(u))]) + [Control(AdoptTarget([k]))];
    var c := Spawn(Forgetful(k), k, Some(Active)).(target := u, reportedGeneration := 2);
    assert c.jobs == Racing(k).jobs;
    assert c.handles == Racing(k).handles;
  }

  /** The newer job declares and binds, then the older one declares and unbinds. */
  lemma OlderJobEndsLast(k: Key) returns (actions: seq<Action>)
    ensures Run(RaceStart(k), actions) == OneKeyPool(QueueOf(k, false), Racing(k), map[0 := 2][2 := 2][1 := 2])
  {
    var s, c := RaceStart(k), Racing(k);
    actions := JobsRace(k);
    actions := JobRuns(k, true, s, actions, c, map[0 := 2], 1);
    actions := JobRuns(k, true, s, actions, c, map[0 := 2][2 := 2], 0);
  }

  /**
   The newer job is joined first, in the order in which the two completed: the run ends with no job left and no
   failure, and the report says what the older job did, with nothing left to correct it.
   */
  lemma JoinsOutOfOrderMislead(k: Key) returns (actions: seq<Action>)
    ensures Initial(RaceStart(k), [k])
    ensures var s := Run(RaceStart(k), actions);
            && !s.stopped && s.controller.jobs == [] && s.failed == {}
            && s.controller.target.queues == s.published.queues == map[k := Active]
            && s.controller.reported == map[k := Unbound]
  {
    RaceStartIsInitial(k);
    var s, c, progress := RaceStart(k), Racing(k), map[0 := 2][2 := 2][1 := 2];
    actions := OlderJobEndsLast(k);
    JoinAt(QueueOf(k, false), c, progress, 1);
    var c1 := Join(c, 1);
    assert c1.jobs == [Job(1, k, Some(Unbound))] && c1.reported == map[k := Active];
    JoinAt(QueueOf(k, false), c1, progress, 0);
    RunTwoMore(s, actions, Control(JobJoins(1)), Control(JobJoins(0)));
    actions := (actions + [Control(JobJoins(1))]) + [Control(JobJoins(0))];
    assert Report(c1.reported, k, Some(Unbound)) == map[k := Unbound];
  }

  /**
   The next change of target then aborts nothing, and the two jobs race.  The run ends with no job left and a
   report equal to the target, while the queue that should be bound is not: requests for the key keep coming
   back as orphans.
   */
  lemma LostHandleLetsJobsRace(k: Key) returns (actions: seq<Action>)
    ensures Initial(RaceStart(k), [k])
    ensures var s := Run(RaceStart(k), actions);
            && !s.stopped && s.controller.jobs == [] && s.failed == {}
            && s.controller.reported == s.controller.target.queues == s.published.queues == map[k := Active]
            && Topology(s.broker, k) == Some(Unbound)
  {
    RaceStartIsInitial(k);
    actions := OlderJobEndsLast(k);
    actions := RaceIsReported(k, RaceStart(k), actions, map[0 := 2][2 := 2][1 := 2]);
  }

  lemma RaceIsReported(k: Key, s: Pool, sofar: seq<Action>, progress: map<nat, nat>) returns (actions: seq<Action>)
    requires DoneOf(progress, 1) == 2 && DoneOf(progress, 2) == 2
    requires Run(s, sofar) == OneKeyPool(QueueOf(k, false), Racing(k), progress)
    ensures var s' := Run(s, actions);
            && !s'.stopped && s'.controller.jobs == [] && s'.failed == {}
            && s'.controller.reported == s'.controller.target.queues == s'.published.queues == map[k := Active]
            && Topology(s'.broker, k) == Some(Unbound)
  {
    JoinAt(QueueOf(k, false), Racing(k), progress, 0);
    var c1 := Join(Racing(k), 0);
    assert c1.jobs == [Job(2, k, Some(Active))] && c1.reported == map[k := Unbound];
    JoinAt(QueueOf(k, false), c1, progress, 0);
    RunTwoMore(s, sofar, Control(JobJoins(0)), Control(JobJoins(0)));
    actions := (sofar + [Control(JobJoins(0))]) + [Control(JobJoins(0))];
    assert Report(c1.reported, k, Some(Active)) == map[k := Active];
  }
}
