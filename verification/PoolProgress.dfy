/**
 What the pool waits for and what it can still do: the generation the orphan processor waits for, when the control
 loop stops for good, and exactly from which states the pool can still settle on what the tracker wants.
 */
module PoolProgress {
  import opened Options
  import opened TargetTracking
  import opened TrackerActor
  import opened QueueController
  import opened RequestBroker
  import opened PoolSystem
  import opened QueueTopology

  // ---------------------------------------------------------------------------------------------
  // The orphan processor
  // ---------------------------------------------------------------------------------------------

  /** At this moment the processor required the group of the message, and the tracker answered with generation `n`. */
  ghost predicate RequiredAt(s: Pool, actions: seq<Action>, i: nat, m: Message, n: nat)
    requires 0 < i <= |actions|
  {
    var before, after := Run(s, actions[..i - 1]), Run(s, actions[..i]);
    && before.phase == Delivered(m) && after.phase == Required(m, n)
    && after.published.generation == n && Lookup(after.published.queues, m.key) == Some(Active)
  }

  ghost predicate WasRequired(s: Pool, actions: seq<Action>, m: Message, n: nat) {
    exists i :: 0 < i <= |actions| && RequiredAt(s, actions, i, m, n)
  }

  /** The message and the generation the processor waits with. */
  ghost predicate Awaits(p: Phase, m: Message, n: nat) {
    p == Required(m, n) || p == CaughtUp(m, n)
  }

  lemma WasRequiredStays(s: Pool, init: seq<Action>, a: Action, m: Message, n: nat)
    requires WasRequired(s, init, m, n)
    ensures WasRequired(s, init + [a], m, n)
  {
    var i :| 0 < i <= |init| && RequiredAt(s, init, i, m, n);
    var actions := init + [a];
    assert actions[..i] == init[..i] && actions[..i - 1] == init[..i - 1];
    assert RequiredAt(s, actions, i, m, n);
  }

  /** Only a require starts a wait, and only for the generation it was answered with. */
  lemma AwaitingStep(s: Pool, a: Action, m: Message, n: nat)
    requires Awaits(Step(s, a).phase, m, n) && !Awaits(s.phase, m, n)
    ensures s.phase == Delivered(m) && Step(s, a).phase == Required(m, n)
    ensures Step(s, a).published.generation == n && Lookup(Step(s, a).published.queues, m.key) == Some(Active)
  {
    match a
    case Outside(o) => OutsideKeepsAccount(s, o);
    case Control(c) => ControlKeepsAccount(s, c);
    case Process(p) =>
  }

  /**
   Over every run, the generation the processor waits for is the one at which the tracker published the group of
   its message as active, in answer to that message; and it has caught up only once the controller reports it.
   */
  lemma {:induction false} WaitsForAnswer(s: Pool, keys: seq<Key>, actions: seq<Action>, m: Message, n: nat)
    requires Initial(s, keys) && Awaits(Run(s, actions).phase, m, n)
    ensures WasRequired(s, actions, m, n)
    ensures Run(s, actions).phase.CaughtUp? ==> n <= Run(s, actions).controller.reportedGeneration
  {
    GenerationsNeverGoBack(s, keys, actions, 0);
    var init, a := actions[..|actions| - 1], actions[|actions| - 1];
    assert actions == init + [a];
    if Awaits(Run(s, init).phase, m, n) {
      WaitsForAnswer(s, keys, init, m, n);
      WasRequiredStays(s, init, a, m, n);
    } else {
      AwaitingStep(Run(s, init), a, m, n);
      assert actions[..|actions|] == actions;
      assert RequiredAt(s, actions, |actions|, m, n);
    }
  }

  /** What the processor waits for: a delivery, the controller's generation, or the report of an active queue. */
  ghost predicate Waiting(s: Pool) {
    match s.phase
    case Idle => s.buffer == []
    case Delivered(_) => false
    case Required(_, n) => s.controller.reportedGeneration < n
    case CaughtUp(m, _) => Lookup(s.controller.reported, m.key) != Some(Active)
    case Republished(_) => false
    case Halted => true
  }

  predicate OwnStep(a: ProcessorAction) {
    !a.Deliver? && !a.ProcessorFails?
  }

  /** The phase that follows. */
  ghost predicate MovesOn(s: Pool, s': Pool) {
    match s.phase
    case Idle => s.buffer != [] && s'.phase == Delivered(s.buffer[0]) && s'.buffer == s.buffer[1..]
    case Delivered(m) => s'.phase.Required? && s'.phase.message == m && s'.phase.generation == s'.published.generation
    case Required(m, n) => s'.phase == CaughtUp(m, n)
    case CaughtUp(m, _) => s'.phase == Republished(m)
    case Republished(_) => s'.phase == Idle
    case Halted => false
  }

  lemma WaitingIsStill(s: Pool, a: ProcessorAction)
    requires Waiting(s) && OwnStep(a)
    ensures StepProcessor(s, a) == s
  {
  }

  /** Over every run, the processor can take its next step exactly when it is not waiting; then it moves on. */
  lemma ProcessorMovesIff(s: Pool, keys: seq<Key>, actions: seq<Action>)
    requires Initial(s, keys)
    ensures var s' := Run(s, actions);
            (exists a :: OwnStep(a) && MovesOn(s', StepProcessor(s', a))) <==> !Waiting(s')
  {
    var s' := Run(s, actions);
    if Waiting(s') {
      forall a | OwnStep(a)
        ensures !MovesOn(s', StepProcessor(s', a))
      {
        WaitingIsStill(s', a);
      }
    } else {
      match s'.phase
      case Idle => assert OwnStep(ProcessNext) && MovesOn(s', StepProcessor(s', ProcessNext));
      case Delivered(m) =>
        var u := Update(s'.published.generation + 1, s'.published.queues[m.key := Active]);
        assert OwnStep(RequireGroup(u)) && MovesOn(s', StepProcessor(s', RequireGroup(u)));
      case Required(_, _) => assert OwnStep(CatchUp) && MovesOn(s', StepProcessor(s', CatchUp));
      case CaughtUp(_, _) => assert OwnStep(Republish) && MovesOn(s', StepProcessor(s', Republish));
      case Republished(m) =>
        UnackedAreHeld(s, keys, actions, m);
        assert OwnStep(Acknowledge) && MovesOn(s', StepProcessor(s', Acknowledge));
    }
  }

  /** An orphan is delivered, behind those already there, exactly when it waits and the prefetch limit leaves room. */
  lemma DeliversIff(s: Pool, m: Message)
    requires s.phase != Halted
    ensures var s' := StepProcessor(s, Deliver(m));
            if m in s.broker.orphans && |s.broker.unacked| < 200
            then s'.buffer == s.buffer + [m] && s'.broker.orphans == s.broker.orphans - multiset{m}
                 && s'.broker.unacked == s.broker.unacked + multiset{m}
            else s' == s
  {
  }

  /** A failure ends the orphan processor, and it holds nothing from then on. */
  lemma {:induction false} HaltedForGood(s: Pool, actions: seq<Action>)
    ensures StepProcessor(s, ProcessorFails).phase == Halted && StepProcessor(s, ProcessorFails).buffer == []
    ensures s.phase == Halted && s.buffer == [] ==> Run(s, actions).phase == Halted && Run(s, actions).buffer == []
  {
    if actions != [] {
      HaltedForGood(s, actions[..|actions| - 1]);
      var before := Run(s, actions[..|actions| - 1]);
      if before.phase == Halted && before.buffer == [] {
        HaltedStays(before, actions[|actions| - 1]);
      }
    }
  }

  lemma HaltedStays(s: Pool, a: Action)
    requires s.phase == Halted && s.buffer == []
    ensures Step(s, a).phase == Halted && Step(s, a).buffer == []
  {
    match a
    case Outside(o) => OutsideKeepsAccount(s, o);
    case Control(c) => ControlKeepsAccount(s, c);
    case Process(p) =>
  }

  /** Over every run, at most the prefetch limit of orphans is delivered and not acknowledged. */
  lemma {:induction false} PrefetchIsKept(s: Pool, keys: seq<Key>, actions: seq<Action>)
    requires Initial(s, keys)
    ensures |Run(s, actions).broker.unacked| <= PREFETCH
  {
    if actions != [] {
      var before := Run(s, actions[..|actions| - 1]);
      PrefetchIsKept(s, keys, actions[..|actions| - 1]);
      match actions[|actions| - 1]
      case Outside(a) => OutsideKeepsAccount(before, a);
      case Control(a) => ControlKeepsAccount(before, a);
      case Process(a) => ProcessorKeepsPrefetch(before, a);
    }
  }

  lemma ProcessorKeepsPrefetch(s: Pool, a: ProcessorAction)
    requires |s.broker.unacked| <= PREFETCH
    ensures |StepProcessor(s, a).broker.unacked| <= PREFETCH
  {
  }

  // ---------------------------------------------------------------------------------------------
  // The broker
  // ---------------------------------------------------------------------------------------------

  /** A message goes to its queue exactly when the queue exists and is bound, and to the orphan queue otherwise. */
  lemma RoutedToQueueIff(b: Broker, m: Message)
    ensures var b' := Route(b, m);
            if Topology(b, m.key) == Some(Active)
            then Queued(b', m) == Queued(b, m) + 1 && b'.orphans == b.orphans
            else Queued(b', m) == Queued(b, m) && b'.orphans == b.orphans + multiset{m}
  {
  }

  /** The two operations of the job for a goal, one right after the other. */
  function Performed(b: Broker, k: Key, goal: Goal): Option<Broker> {
    var first := Perform(b, k, OpOf(goal, 0));
    if first.None? then None else Perform(first.value, k, OpOf(goal, 1))
  }

  /**
   A job alone on its key ends exactly when it is not to delete a queue that holds messages.  Then its key is as it
   wants it, and a queue that stays has the messages it had.
   */
  lemma JobEndsIff(b: Broker, k: Key, goal: Goal)
    ensures Performed(b, k, goal).Some? <==> goal.Some? || k !in b.queues || b.queues[k].messages == multiset{}
    ensures Performed(b, k, goal).Some? ==>
              var b' := Performed(b, k, goal).value;
              && Topology(b', k) == goal
              && (goal.Some? ==> b'.queues[k].messages == if k in b.queues then b.queues[k].messages else multiset{})
              && (forall k' :: k' != k ==> (k' in b'.queues <==> k' in b.queues))
              && (forall k' :: k' != k && k' in b.queues && k' in b'.queues ==> b'.queues[k'] == b.queues[k'])
  {
  }

  /** The first operation always succeeds; it makes an unbound queue, or unbinds the one to be deleted. */
  lemma FirstOperation(b: Broker, k: Key, goal: Goal)
    ensures Perform(b, k, OpOf(goal, 0)).Some?
    ensures var b' := Perform(b, k, OpOf(goal, 0)).value;
            Topology(b', k) == if goal.Some? then (if k in b.queues then Topology(b, k) else Some(Unbound))
                               else if k in b.queues then Some(Unbound) else None
  {
  }

  // ---------------------------------------------------------------------------------------------
  // The report before a job is joined, and the adoption of targets
  // ---------------------------------------------------------------------------------------------

  /** The action completes a job of the key. */
  ghost predicate CompletesJobOf(s: Pool, a: Action, k: Key) {
    a.Control? && a.control.JobJoins? && CanComplete(s, a.control.index) && s.controller.jobs[a.control.index].key == k
  }

  ghost predicate NoneCompleted(s: Pool, actions: seq<Action>, k: Key) {
    actions == [] ||
    (NoneCompleted(s, actions[..|actions| - 1], k)
     && !CompletesJobOf(Run(s, actions[..|actions| - 1]), actions[|actions| - 1], k))
  }

  lemma StepKeepsReport(s: Pool, a: Action, k: Key)
    requires !CompletesJobOf(s, a, k)
    ensures Lookup(Step(s, a).controller.reported, k) == Lookup(s.controller.reported, k)
  {
    if a.Control? {
      if a.control.AdoptTarget? {
        SpawnAllPursues(s.controller, a.control.keys, s.published.queues, k);
      }
    } else {
      MessagesKeepControl(s, a, k);
    }
  }

  /** Over every run, until a job of a key completes, its queue is reported unbound if it existed at the start. */
  lemma {:induction false} AssumedUntilJoined(s: Pool, keys: seq<Key>, actions: seq<Action>, k: Key)
    requires Initial(s, keys) && NoneCompleted(s, actions, k)
    ensures Lookup(Run(s, actions).controller.reported, k) == if k in s.broker.queues then Some(Unbound) else None
  {
    if actions == [] {
      SpawnAllPursues(Assumed(s.broker.queues.Keys, s.published), keys, s.published.queues, k);
    } else {
      AssumedUntilJoined(s, keys, actions[..|actions| - 1], k);
      StepKeepsReport(Run(s, actions[..|actions| - 1]), actions[|actions| - 1], k);
    }
  }

  lemma DiffOrderExists(old_: map<Key, QueueStatus>, new_: map<Key, QueueStatus>) returns (keys: seq<Key>)
    ensures DiffOrder(old_, new_, keys)
  {
    var changed := set k | k in old_.Keys + new_.Keys && Lookup(old_, k) != Lookup(new_, k);
    keys := [];
    var todo := changed;
    while todo != {}
      invariant todo <= changed && (forall i, j :: 0 <= i < j < |keys| ==> keys[i] != keys[j])
      invariant forall k :: k in keys <==> k in changed && k !in todo
      decreases todo
    {
      var k :| k in todo;
      keys, todo := keys + [k], todo - {k};
    }
  }

  /** A control loop that has not stopped can adopt what the tracker has published, and reports its generation. */
  lemma CanAdoptPublished(s: Pool) returns (keys: seq<Key>)
    requires !s.stopped
    ensures CanAdopt(s, keys)
    ensures var c := StepControl(s, AdoptTarget(keys)).controller;
            c.target == s.published && c.reportedGeneration == s.published.generation
  {
    keys := DiffOrderExists(s.controller.target.queues, s.published.queues);
  }

  // ---------------------------------------------------------------------------------------------
  // When the control loop stops
  // ---------------------------------------------------------------------------------------------

  /** An outstanding job that failed or was aborted before it finished. */
  ghost predicate Dead(s: Pool, job: Job) {
    && job in s.controller.jobs && DoneOf(s.progress, job.id) < 2
    && (job.id in s.failed || job.id in s.controller.aborted)
  }

  /** The action joins such a job. */
  ghost predicate JoinsDead(s: Pool, a: Action) {
    && !s.stopped && a.Control? && a.control.JobJoins? && a.control.index < |s.controller.jobs|
    && Dead(s, s.controller.jobs[a.control.index])
  }

  ghost predicate EverJoinsDead(s: Pool, actions: seq<Action>) {
    actions != [] &&
    (EverJoinsDead(s, actions[..|actions| - 1]) || JoinsDead(Run(s, actions[..|actions| - 1]), actions[|actions| - 1]))
  }

  ghost predicate ProgressBounded(s: Pool) {
    forall id :: id in s.progress ==> s.progress[id] <= 2
  }

  lemma StepKeepsBounded(s: Pool, a: Action)
    requires ProgressBounded(s)
    ensures ProgressBounded(Step(s, a))
  {
    if !a.Control? {
      MessagesKeepControl(s, a, Key(""));
    }
  }

  lemma {:induction false} RunIsBounded(s: Pool, keys: seq<Key>, actions: seq<Action>)
    requires Initial(s, keys)
    ensures ProgressBounded(Run(s, actions))
  {
    if actions != [] {
      RunIsBounded(s, keys, actions[..|actions| - 1]);
      StepKeepsBounded(Run(s, actions[..|actions| - 1]), actions[|actions| - 1]);
    }
  }

  lemma StepStopsIff(s: Pool, a: Action)
    requires ProgressBounded(s)
    ensures Step(s, a).stopped <==> s.stopped || JoinsDead(s, a)
  {
    if a.Process? {
      assert StepProcessor(s, a.process).stopped == s.stopped;
    }
  }

  /** Over every run, the control loop has stopped exactly when it has joined a failed or aborted job. */
  lemma {:induction false} StoppedIff(s: Pool, keys: seq<Key>, actions: seq<Action>)
    requires Initial(s, keys)
    ensures Run(s, actions).stopped <==> EverJoinsDead(s, actions)
  {
    if actions != [] {
      var init := actions[..|actions| - 1];
      StoppedIff(s, keys, init);
      RunIsBounded(s, keys, init);
      StepStopsIff(Run(s, init), actions[|actions| - 1]);
    }
  }

  /** Once it has stopped, no target is adopted, no job operates and nothing is reported any more. */
  lemma StoppedForGood(s: Pool, a: Action)
    requires s.stopped
    ensures var s' := Step(s, a);
            s'.stopped && s'.controller == s.controller && s'.progress == s.progress && s'.failed == s.failed
  {
    if !a.Control? {
      MessagesKeepControl(s, a, Key(""));
      if a.Process? {
        assert StepProcessor(s, a.process).stopped;
      }
    }
  }

  /** A job that fails does nothing more, and stops the loop when it is joined. */
  lemma FailureStops(s: Pool, i: nat)
    requires !s.stopped && i < |s.controller.jobs| && Running(s, i)
    ensures var s' := StepControl(s, JobFails(i));
            StepControl(s', JobOperates(i)) == s' && StepControl(s', JobJoins(i)).stopped
  {
  }

  /** So does a running job that is replaced while its handle is held. */
  lemma ReplacementStops(s: Pool, i: nat, keys: seq<Key>)
    requires AllNumbered(s) && CanAdopt(s, keys) && i < |s.controller.jobs| && Running(s, i)
    requires s.controller.jobs[i].key in keys
    requires Lookup(s.controller.handles, s.controller.jobs[i].key) == Some(s.controller.jobs[i].id)
    ensures Dead(StepControl(s, AdoptTarget(keys)), s.controller.jobs[i])
  {
    var job := s.controller.jobs[i];
    SpawnAllAborts(s.controller, keys, s.published.queues, job);
  }

  lemma {:induction false} SpawnAllAborts(c: Controller, keys: seq<Key>, goals: map<Key, QueueStatus>, job: Job)
    requires job in c.jobs && (job.key in keys ==> Lookup(c.handles, job.key) == Some(job.id))
    ensures var c' := SpawnAll(c, keys, goals);
            && job in c'.jobs && c.aborted <= c'.aborted
            && (job.key in keys ==> job.id in c'.aborted)
            && (job.key !in keys ==> Lookup(c'.handles, job.key) == Lookup(c.handles, job.key))
  {
    if keys != [] {
      var init, last := keys[..|keys| - 1], keys[|keys| - 1];
      assert keys == init + [last];
      SpawnAllAborts(c, init, goals, job);
    }
  }

  // ---------------------------------------------------------------------------------------------
  // Settling
  // ---------------------------------------------------------------------------------------------

  /** A dead job stays outstanding until the loop stops. */
  lemma DeadStays(s: Pool, a: Action, job: Job)
    requires AllNumbered(s) && Dead(s, job)
    ensures Step(s, a).stopped || Dead(Step(s, a), job)
  {
    if !a.Control? {
      MessagesKeepControl(s, a, Key(""));
    } else {
      match a.control
      case AdoptTarget(keys) => SpawnAllKeepsJobs(s.controller, keys, s.published.queues, job);
      case JobOperates(i) =>
        if i < |s.controller.jobs| {
          SameIdSameJob(s.controller, s.progress, s.failed, s.controller.jobs[i], job);
        }
      case JobFails(_) =>
      case JobJoins(i) =>
        if CanComplete(s, i) {
          JoinedAre(s.controller, s.progress, s.failed, i, job);
        }
    }
  }

  lemma {:induction false} SpawnAllKeepsJobs(c: Controller, keys: seq<Key>, goals: map<Key, QueueStatus>, job: Job)
    requires job in c.jobs
    ensures job in SpawnAll(c, keys, goals).jobs && c.aborted <= SpawnAll(c, keys, goals).aborted
  {
    if keys != [] {
      SpawnAllKeepsJobs(c, keys[..|keys| - 1], goals, job);
    }
  }

  ghost predicate Doomed(s: Pool, job: Job) {
    s.stopped || Dead(s, job)
  }

  lemma DoomedStays(s: Pool, a: Action, job: Job)
    requires AllNumbered(s) && Doomed(s, job)
    ensures Doomed(Step(s, a), job)
  {
    if s.stopped {
      StoppedForGood(s, a);
    } else {
      DeadStays(s, a, job);
    }
  }

  lemma {:induction false} DoomedOverRuns(s: Pool, keys: seq<Key>, actions: seq<Action>, more: seq<Action>, job: Job)
    requires Initial(s, keys) && Doomed(Run(s, actions), job)
    ensures Doomed(Run(s, actions + more), job)
    decreases |more|
  {
    if more == [] {
      assert actions + more == actions;
    } else {
      var init, a := more[..|more| - 1], more[|more| - 1];
      DoomedOverRuns(s, keys, actions, init, job);
      assert actions + more == (actions + init) + [a];
      RunIsNumbered(s, keys, actions + init);
      RunMore(s, actions + init, a);
      DoomedStays(Run(s, actions + init), a, job);
    }
  }

  ghost predicate NoneDead(s: Pool) {
    forall job :: !Dead(s, job)
  }

  /** An action of the settling runs built here: a worker takes a message, or the oldest job goes on. */
  ghost predicate Gentle(s: Pool, a: Action) {
    || (a.Outside? && a.outside.TakeByWorker?)
    || a == Control(JobOperates(0))
    || (a == Control(JobJoins(0)) && CanComplete(s, 0))
  }

  lemma GentleKeeps(s: Pool, a: Action)
    requires AllNumbered(s) && NoneDead(s) && !s.stopped && Gentle(s, a)
    ensures !Step(s, a).stopped && NoneDead(Step(s, a))
    ensures Step(s, a).controller.target == s.controller.target && Step(s, a).published == s.published
    ensures Obeys(s, a, Aborting) && Obeys(s, a, OnlyHarmless)
  {
    if a.Outside? {
      MessagesKeepControl(s, a, Key(""));
      forall job
        ensures Dead(Step(s, a), job) ==> Dead(s, job)
      {
      }
    } else if a.control.JobOperates? {
      forall job
        ensures Dead(Step(s, a), job) ==> Dead(s, job)
      {
      }
    } else {
      JoinsInOrderAreHarmless(s.controller, 0);
      forall job
        ensures Dead(Step(s, a), job) ==> Dead(s, job)
      {
        JoinedAre(s.controller, s.progress, s.failed, 0, job);
      }
    }
  }

  /** What is left to do about the oldest job. */
  ghost function QueueHolds(s: Pool): nat
    requires s.controller.jobs != []
  {
    var k := s.controller.jobs[0].key;
    if k in s.broker.queues then |s.broker.queues[k].messages| else 0
  }

  ghost function Left(s: Pool): nat
    requires s.controller.jobs != []
  {
    2 - Min2(DoneOf(s.progress, s.controller.jobs[0].id))
  }

  function Min2(n: nat): (r: nat)
    ensures r <= 2
  {
    if n < 2 then n else 2
  }

  /** The next gentle action: join the oldest job, or let it operate, or empty the queue it is to delete. */
  lemma NextGentle(s: Pool) returns (a: Action)
    requires AllNumbered(s) && ProgressBounded(s) && NoneDead(s) && !s.stopped && s.controller.jobs != []
    requires Sorted(s.broker) && AimedAt(s, s.controller.jobs[0].key)
    ensures Gentle(s, a)
    ensures var s' := Step(s, a);
            || |s'.controller.jobs| < |s.controller.jobs|
            || (s'.controller.jobs == s.controller.jobs
                && (Left(s') < Left(s) || (Left(s') == Left(s) && QueueHolds(s') < QueueHolds(s))))
  {
    var job := s.controller.jobs[0];
    assert job in s.controller.jobs && !Dead(s, job);
    var done := DoneOf(s.progress, job.id);
    if done == 2 {
      a := Control(JobJoins(0));
    } else {
      assert Running(s, 0);
      AimedIsPartly(s, job);
      if done == 1 && job.goal.None? && job.key in s.broker.queues && s.broker.queues[job.key].messages != multiset{} {
        var m :| m in s.broker.queues[job.key].messages;
        a := EmptyQueue(s, job.key, m);
      } else {
        a := Control(JobOperates(0));
        OperationSucceeds(s.broker, job.key, job.goal, done);
      }
    }
  }

  lemma AimedIsPartly(s: Pool, job: Job)
    requires AimedAt(s, job.key) && job in s.controller.jobs && Runs(s.controller, s.progress, s.failed, job)
    ensures Partly(job.goal, DoneOf(s.progress, job.id), Topology(s.broker, job.key))
  {
  }

  lemma OperationSucceeds(b: Broker, k: Key, goal: Goal, done: nat)
    requires done < 2 && Partly(goal, done, Topology(b, k))
    requires done == 1 && goal.None? ==> k !in b.queues || b.queues[k].messages == multiset{}
    ensures Perform(b, k, OpOf(goal, done)).Some?
  {
  }

  lemma EmptyQueue(s: Pool, k: Key, m: Message) returns (a: Action)
    requires k in s.broker.queues && m in s.broker.queues[k].messages && m.key == k
    requires s.controller.jobs != [] && s.controller.jobs[0].key == k
    ensures a == Outside(TakeByWorker(m))
    ensures Step(s, a).controller == s.controller && Left(Step(s, a)) == Left(s) && QueueHolds(Step(s, a)) < QueueHolds(s)
  {
    a := Outside(TakeByWorker(m));
  }

  lemma PerformKeepsSorted(b: Broker, k: Key, op: Op)
    requires Sorted(b) && Perform(b, k, op).Some?
    ensures Sorted(Perform(b, k, op).value)
  {
  }

  lemma RouteKeepsSorted(b: Broker, m: Message)
    requires Sorted(b)
    ensures Sorted(Route(b, m))
  {
  }

  lemma StepKeepsSorted(s: Pool, a: Action)
    requires Sorted(s.broker)
    ensures Sorted(Step(s, a).broker)
  {
    match a
    case Outside(o) =>
      if o.Publish? {
        RouteKeepsSorted(s.broker, o.message);
      }
    case Control(c) =>
      if c.JobOperates? && c.index < |s.controller.jobs| && Operate(s, c.index) != s {
        var job := s.controller.jobs[c.index];
        PerformKeepsSorted(s.broker, job.key, OpOf(job.goal, DoneOf(s.progress, job.id)));
      }
    case Process(p) =>
      if p.Republish? {
        if CanRepublish(s) {
          RouteKeepsSorted(s.broker, s.phase.message);
        }
      } else if p.Deliver? || p.Acknowledge? || p.ProcessorFails? {
        MovingKeepsQueues(s, p);
      } else {
        WaitingKeepsBroker(s, p);
      }
  }

  lemma {:induction false} RunIsSorted(s: Pool, keys: seq<Key>, actions: seq<Action>)
    requires Initial(s, keys)
    ensures Sorted(Run(s, actions).broker)
  {
    if actions != [] {
      RunIsSorted(s, keys, actions[..|actions| - 1]);
      StepKeepsSorted(Run(s, actions[..|actions| - 1]), actions[|actions| - 1]);
    }
  }

  /** What a settling run keeps, from one action to the next. */
  ghost predicate Lively(s: Pool, keys: seq<Key>, actions: seq<Action>) {
    && Initial(s, keys) && AlwaysObeys(s, actions, Aborting)
    && !Run(s, actions).stopped && NoneDead(Run(s, actions))
  }

  lemma LivelyStep(s: Pool, keys: seq<Key>, actions: seq<Action>, a: Action)
    requires Lively(s, keys, actions) && Gentle(Run(s, actions), a)
    ensures Lively(s, keys, actions + [a])
    ensures AlwaysObeys(s, actions, OnlyHarmless) ==> AlwaysObeys(s, actions + [a], OnlyHarmless)
    ensures Run(s, actions + [a]) == Step(Run(s, actions), a)
    ensures var before, after := Run(s, actions), Run(s, actions + [a]);
            after.controller.target == before.controller.target && after.published == before.published
  {
    RunIsNumbered(s, keys, actions);
    RunMore(s, actions, a);
    GentleKeeps(Run(s, actions), a);
    assert (actions + [a])[..|actions|] == actions;
  }

  lemma LivelyNext(s: Pool, keys: seq<Key>, actions: seq<Action>) returns (a: Action)
    requires Lively(s, keys, actions) && Run(s, actions).controller.jobs != []
    ensures Gentle(Run(s, actions), a)
    ensures var s0, s' := Run(s, actions), Step(Run(s, actions), a);
            || |s'.controller.jobs| < |s0.controller.jobs|
            || (s'.controller.jobs == s0.controller.jobs
                && (Left(s') < Left(s0) || (Left(s') == Left(s0) && QueueHolds(s') < QueueHolds(s0))))
  {
    var s' := Run(s, actions);
    RunIsNumbered(s, keys, actions);
    RunIsBounded(s, keys, actions);
    RunIsSorted(s, keys, actions);
    RunIsAimed(s, keys, actions, s'.controller.jobs[0].key);
    a := NextGentle(s');
  }

  /** The outstanding jobs can all be brought to their end and joined, without touching the target. */
  lemma {:induction false} Drain(s: Pool, keys: seq<Key>, actions: seq<Action>) returns (more: seq<Action>)
    requires Lively(s, keys, actions)
    ensures actions <= more && Lively(s, keys, more) && Run(s, more).controller.jobs == []
    ensures Run(s, more).controller.target == Run(s, actions).controller.target
    ensures Run(s, more).published == Run(s, actions).published
    ensures AlwaysObeys(s, actions, OnlyHarmless) ==> AlwaysObeys(s, more, OnlyHarmless)
    decreases |Run(s, actions).controller.jobs|,
              if Run(s, actions).controller.jobs == [] then 0 else Left(Run(s, actions)),
              if Run(s, actions).controller.jobs == [] then 0 else QueueHolds(Run(s, actions))
  {
    if Run(s, actions).controller.jobs == [] {
      more := actions;
    } else {
      var a := LivelyNext(s, keys, actions);
      LivelyStep(s, keys, actions, a);
      more := Drain(s, keys, actions + [a]);
    }
  }

  /** Jobs spawned when none is outstanding all run. */
  lemma {:induction false} SpawnedAllRun(c: Controller, progress: map<nat, nat>, failed: set<nat>,
                                         keys: seq<Key>, goals: map<Key, QueueStatus>, job: Job)
    requires Numbered(c, progress, failed) && c.jobs == [] && job in SpawnAll(c, keys, goals).jobs
    requires forall i, j :: 0 <= i < j < |keys| ==> keys[i] != keys[j]
    ensures job.key in keys && Runs(SpawnAll(c, keys, goals), progress, failed, job)
  {
    if keys != [] {
      var init, last := keys[..|keys| - 1], keys[|keys| - 1];
      assert keys == init + [last];
      var mid, goal := SpawnAll(c, init, goals), Lookup(goals, last);
      SpawnAllKeepsNumbered(c, progress, failed, init, goals);
      if job in mid.jobs {
        SpawnedAllRun(c, progress, failed, init, goals, job);
        SpawnedRuns(mid, progress, failed, last, goal, job);
      } else {
        assert job == Job(mid.nextId, last, goal);
      }
    }
  }

  lemma AdoptIdle(s: Pool, keys: seq<Key>, actions: seq<Action>) returns (more: seq<Action>)
    requires Lively(s, keys, actions) && Run(s, actions).controller.jobs == []
    ensures actions <= more && Lively(s, keys, more)
    ensures Run(s, more).controller.target == Run(s, more).published == Run(s, actions).published
    ensures AlwaysObeys(s, actions, OnlyHarmless) ==> AlwaysObeys(s, more, OnlyHarmless)
  {
    var before := Run(s, actions);
    RunIsNumbered(s, keys, actions);
    var changed := CanAdoptPublished(before);
    var a := Control(AdoptTarget(changed));
    more := actions + [a];
    RunMore(s, actions, a);
    assert more[..|actions|] == actions;
    var after := Run(s, more);
    forall job
      ensures !Dead(after, job)
    {
      var c := SpawnAll(before.controller, changed, before.published.queues);
      if job in c.jobs {
        SpawnedAllRun(before.controller, before.progress, before.failed, changed, before.published.queues, job);
      }
    }
  }

  /** No job is left, and every queue is as the tracker published it last. */
  ghost predicate Settled(s: Pool) {
    && !s.stopped && s.controller.jobs == [] && s.controller.target == s.published
    && forall k :: Topology(s.broker, k) == Lookup(s.published.queues, k)
  }

  lemma LivelySettles(s: Pool, keys: seq<Key>, actions: seq<Action>) returns (more: seq<Action>)
    requires Lively(s, keys, actions)
    ensures actions <= more && Settled(Run(s, more))
    ensures AlwaysObeys(s, actions, OnlyHarmless) ==> Run(s, more).controller.reported == Run(s, more).published.queues
  {
    more := Drain(s, keys, actions);
    more := AdoptIdle(s, keys, more);
    more := Drain(s, keys, more);
    forall k
      ensures Topology(Run(s, more).broker, k) == Lookup(Run(s, more).published.queues, k)
    {
      TopologyConverges(s, keys, more, k);
    }
    ReportConvergesIff(s, keys, more);
    if AlwaysObeys(s, actions, OnlyHarmless) {
      QuiescentReportIsTarget(Run(s, more).controller);
    }
  }

  ghost predicate CanSettle(s: Pool, actions: seq<Action>) {
    exists more :: actions <= more && Settled(Run(s, more))
  }

  /**
   From every state that a run without races reaches, the pool can still settle exactly when the control loop has
   not stopped and no outstanding job has failed or been aborted before its end: such a job can only be joined by
   stopping the loop.
   */
  lemma SettlesIff(s: Pool, keys: seq<Key>, actions: seq<Action>)
    requires Initial(s, keys) && AlwaysObeys(s, actions, Aborting)
    ensures CanSettle(s, actions) <==> !Run(s, actions).stopped && NoneDead(Run(s, actions))
  {
    if !Run(s, actions).stopped && NoneDead(Run(s, actions)) {
      var more := LivelySettles(s, keys, actions);
      assert actions <= more && Settled(Run(s, more));
    } else {
      var job := Job(0, Key(""), None);
      if !Run(s, actions).stopped {
        job :| Dead(Run(s, actions), job);
      }
      assert Doomed(Run(s, actions), job);
      forall more | actions <= more
        ensures !Settled(Run(s, more))
      {
        assert more == actions + more[|actions|..];
        DoomedOverRuns(s, keys, actions, more[|actions|..], job);
      }
    }
  }
}
