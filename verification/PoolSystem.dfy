/**
 The worker pool as an interleaving of its parts: publishers, workers, the tracker, the queue controller and
 its jobs, the orphan processor and the broker.  An action that is not possible in a state does nothing, so
 that every sequence of actions is a run.
 */
module PoolSystem {
  import opened Options
  import opened TargetTracking
  import opened TrackerActor
  import opened QueueController
  import opened RequestBroker

  const PREFETCH: nat := 200

  /** Where the orphan processor is in its loop. */
  datatype Phase =
    | Idle
    | Delivered(message: Message)
    | Required(message: Message, generation: nat)
    | CaughtUp(message: Message, generation: nat)
    | Republished(message: Message)
    | Halted

  /**
   The whole pool.  `published` is the tracker's latest update; `progress` counts the operations each job has
   done; `failed` are the jobs that met an error; `buffer` are the orphans delivered ahead of the processor;
   `accepted` and `dangling` record the requests published and those republished but never acknowledged.
   */
  datatype Pool = Pool(
    broker: Broker,
    published: Update,
    controller: Controller,
    progress: map<nat, nat>,
    failed: set<nat>,
    stopped: bool,
    phase: Phase,
    buffer: seq<Message>,
    accepted: multiset<Message>,
    dangling: multiset<Message>)

  datatype OutsideAction = Publish(message: Message) | TakeByWorker(message: Message) | TrackerPublishes(update: Update)

  datatype ControlAction = AdoptTarget(keys: seq<Key>) | JobOperates(index: nat) | JobFails(index: nat) | JobJoins(index: nat)

  datatype ProcessorAction =
    | Deliver(message: Message)
    | ProcessNext
    | RequireGroup(update: Update)
    | CatchUp
    | Republish
    | Acknowledge
    | ProcessorFails

  datatype Action = Outside(outside: OutsideAction) | Control(control: ControlAction) | Process(process: ProcessorAction)

  /** The tracker only moves forward, and an update of the same generation is the same update. */
  predicate Follows(u: Update, u': Update) {
    u.generation <= u'.generation && (u.generation == u'.generation ==> u' == u)
  }

  function StepOutside(s: Pool, a: OutsideAction): Pool {
    match a
    case Publish(m) => s.(broker := Route(s.broker, m), accepted := s.accepted + multiset{m})
    case TakeByWorker(m) =>
      if m.key in s.broker.queues && m in s.broker.queues[m.key].messages then s.(broker := Take(s.broker, m)) else s
    case TrackerPublishes(u) => if Follows(s.published, u) then s.(published := u) else s
  }

  // The controller and its jobs

  /** The two broker operations of the job for a goal. */
  function OpOf(goal: Goal, step: nat): Op {
    match goal
    case Some(Active) => if step == 0 then Declare else Bind
    case Some(Unbound) => if step == 0 then Declare else Unbind
    case None => if step == 0 then Unbind else DeleteIfEmpty
  }

  function DoneOf(progress: map<nat, nat>, id: nat): nat {
    if id in progress then progress[id] else 0
  }

  /** A job that still runs: not finished, not failed and not aborted. */
  predicate Runs(c: Controller, progress: map<nat, nat>, failed: set<nat>, job: Job) {
    DoneOf(progress, job.id) < 2 && job.id !in failed && job.id !in c.aborted
  }

  predicate Running(s: Pool, i: nat)
    requires i < |s.controller.jobs|
  {
    Runs(s.controller, s.progress, s.failed, s.controller.jobs[i])
  }

  /** A job is joined once it is finished, failed or cancelled, in whatever order. */
  predicate CanJoin(s: Pool, i: nat) {
    !s.stopped && i < |s.controller.jobs| && !Running(s, i)
  }

  /** The job is joined as a success; any other join stops the control loop for good. */
  predicate CanComplete(s: Pool, i: nat) {
    CanJoin(s, i) && DoneOf(s.progress, s.controller.jobs[i].id) == 2
  }

  function Operate(s: Pool, i: nat): Pool
    requires i < |s.controller.jobs|
  {
    var job := s.controller.jobs[i];
    var done := DoneOf(s.progress, job.id);
    var b := Perform(s.broker, job.key, OpOf(job.goal, done));
    if Running(s, i) && b.Some? then s.(broker := b.value, progress := s.progress[job.id := done + 1]) else s
  }

  ghost function StepControl(s: Pool, a: ControlAction): Pool {
    if s.stopped then s else
      match a
      case AdoptTarget(keys) =>
        if DiffOrder(s.controller.target.queues, s.published.queues, keys)
        then s.(controller := Change(s.controller, s.published, keys)) else s
      case JobOperates(i) => if i < |s.controller.jobs| then Operate(s, i) else s
      case JobFails(i) =>
        if i < |s.controller.jobs| && Running(s, i) then s.(failed := s.failed + {s.controller.jobs[i].id}) else s
      case JobJoins(i) =>
        if !CanJoin(s, i) then s
        else if CanComplete(s, i) then s.(controller := Join(s.controller, i))
        else s.(stopped := true)
  }

  // The orphan processor

  /** A message the processor has republished and not acknowledged: it exists twice. */
  function InFlight(p: Phase): multiset<Message> {
    if p.Republished? then multiset{p.message} else multiset{}
  }

  predicate CanRepublish(s: Pool) {
    s.phase.CaughtUp? && Lookup(s.controller.reported, s.phase.message.key) == Some(Active)
  }

  /** The broker delivers an orphan ahead of the processor, up to the prefetch limit. */
  function DeliverTo(s: Pool, m: Message): Pool {
    if s.phase != Halted && m in s.broker.orphans && |s.broker.unacked| < PREFETCH
    then s.(broker := s.broker.(orphans := s.broker.orphans - multiset{m}, unacked := s.broker.unacked + multiset{m}),
            buffer := s.buffer + [m])
    else s
  }

  function NextHeld(s: Pool): Pool {
    if s.phase == Idle && s.buffer != [] then s.(phase := Delivered(s.buffer[0]), buffer := s.buffer[1..]) else s
  }

  /** Requires the worker group of the message: the tracker publishes an update in which it is active. */
  function RequireHeld(s: Pool, u: Update): Pool {
    if s.phase.Delivered? && Follows(s.published, u) && Lookup(u.queues, s.phase.message.key) == Some(Active)
    then s.(published := u, phase := Required(s.phase.message, u.generation)) else s
  }

  /** The controller has adopted the generation the processor waits for. */
  function CatchUpHeld(s: Pool): Pool {
    if s.phase.Required? && s.phase.generation <= s.controller.reportedGeneration
    then s.(phase := CaughtUp(s.phase.message, s.phase.generation)) else s
  }

  function RepublishHeld(s: Pool): Pool {
    if CanRepublish(s) then s.(broker := Route(s.broker, s.phase.message), phase := Republished(s.phase.message)) else s
  }

  function AcknowledgeHeld(s: Pool): Pool {
    if s.phase.Republished? && s.phase.message in s.broker.unacked
    then s.(broker := s.broker.(unacked := s.broker.unacked - multiset{s.phase.message}), phase := Idle) else s
  }

  /** The channel closes: what was not acknowledged goes back to the orphan queue. */
  function Halt(s: Pool): Pool {
    s.(broker := s.broker.(orphans := s.broker.orphans + s.broker.unacked, unacked := multiset{}),
       phase := Halted, buffer := [], dangling := s.dangling + InFlight(s.phase))
  }

  function StepProcessor(s: Pool, a: ProcessorAction): Pool {
    match a
    case Deliver(m) => DeliverTo(s, m)
    case ProcessNext => NextHeld(s)
    case RequireGroup(u) => RequireHeld(s, u)
    case CatchUp => CatchUpHeld(s)
    case Republish => RepublishHeld(s)
    case Acknowledge => AcknowledgeHeld(s)
    case ProcessorFails => Halt(s)
  }

  ghost function Step(s: Pool, a: Action): Pool {
    match a
    case Outside(o) => StepOutside(s, o)
    case Control(c) => StepControl(s, c)
    case Process(p) => StepProcessor(s, p)
  }

  ghost function Run(s: Pool, actions: seq<Action>): Pool {
    if actions == [] then s else Step(Run(s, actions[..|actions| - 1]), actions[|actions| - 1])
  }

  /** The queue of a key holds requests for that key only: it is bound to no other routing key. */
  ghost predicate Sorted(b: Broker) {
    forall k, m :: k in b.queues && m in b.queues[k].messages ==> m.key == k
  }

  /** The pool as it starts: some queues are left from before, empty or not, bound or not. */
  ghost predicate Initial(s: Pool, keys: seq<Key>) {
    && StartOrder(s.broker.queues.Keys, s.published.queues, keys)
    && s.controller == SpawnAll(Assumed(s.broker.queues.Keys, s.published), keys, s.published.queues)
    && s.progress == map[] && s.failed == {} && !s.stopped
    && s.phase == Idle && s.buffer == []
    && s.broker.unacked == multiset{} && s.dangling == multiset{} && Sorted(s.broker)
    && forall m :: Copies(s.broker, m) == s.accepted[m]
  }

  // ---------------------------------------------------------------------------------------------
  // Conservation of messages
  // ---------------------------------------------------------------------------------------------

  /**
   An accepted request is still somewhere, as often as it was accepted, and the only extra copies are those of
   a republication that was not acknowledged.
   */
  ghost predicate Balanced(s: Pool, m: Message) {
    Copies(s.broker, m) == s.accepted[m] + InFlight(s.phase)[m] + s.dangling[m]
  }

  lemma OutsideKeepsBalance(s: Pool, a: OutsideAction, m: Message)
    requires Balanced(s, m)
    ensures Balanced(StepOutside(s, a), m)
  {
    match a
    case Publish(m') => RouteAddsOneCopy(s.broker, m', m);
    case TakeByWorker(m') =>
      if m'.key in s.broker.queues && m' in s.broker.queues[m'.key].messages {
        TakeKeepsCopies(s.broker, m', m);
      }
    case TrackerPublishes(_) =>
  }

  lemma OperateKeepsBalance(s: Pool, i: nat, m: Message)
    requires Balanced(s, m) && i < |s.controller.jobs|
    ensures Balanced(Operate(s, i), m)
  {
    var job := s.controller.jobs[i];
    var op := OpOf(job.goal, DoneOf(s.progress, job.id));
    if Perform(s.broker, job.key, op).Some? {
      PerformKeepsCopies(s.broker, job.key, op, m);
    }
  }

  /** But for a job's operation, the controller touches no message. */
  lemma ControlKeepsMessages(s: Pool, a: ControlAction)
    requires !a.JobOperates?
    ensures var s' := StepControl(s, a);
            && s'.broker == s.broker && s'.accepted == s.accepted && s'.dangling == s.dangling
            && s'.phase == s.phase && s'.buffer == s.buffer
  {
  }

  lemma ControlKeepsBalance(s: Pool, a: ControlAction, m: Message)
    requires Balanced(s, m)
    ensures Balanced(StepControl(s, a), m)
  {
    if a.JobOperates? {
      if a.index < |s.controller.jobs| {
        OperateKeepsBalance(s, a.index, m);
      }
    } else {
      ControlKeepsMessages(s, a);
    }
  }

  lemma DeliverKeepsBalance(s: Pool, m': Message, m: Message)
    requires Balanced(s, m)
    ensures Balanced(DeliverTo(s, m'), m)
  {
  }

  lemma NextKeepsBalance(s: Pool, m: Message)
    requires Balanced(s, m)
    ensures Balanced(NextHeld(s), m)
  {
  }

  lemma RequireKeepsBalance(s: Pool, u: Update, m: Message)
    requires Balanced(s, m)
    ensures Balanced(RequireHeld(s, u), m)
  {
  }

  lemma CatchUpKeepsBalance(s: Pool, m: Message)
    requires Balanced(s, m)
    ensures Balanced(CatchUpHeld(s), m)
  {
  }

  lemma RepublishKeepsBalance(s: Pool, m: Message)
    requires Balanced(s, m)
    ensures Balanced(RepublishHeld(s), m)
  {
  }

  lemma AcknowledgeKeepsBalance(s: Pool, m: Message)
    requires Balanced(s, m)
    ensures Balanced(AcknowledgeHeld(s), m)
  {
  }

  lemma HaltKeepsBalance(s: Pool, m: Message)
    requires Balanced(s, m)
    ensures Balanced(Halt(s), m)
  {
  }

  lemma ProcessorKeepsBalance(s: Pool, a: ProcessorAction, m: Message)
    requires Balanced(s, m)
    ensures Balanced(StepProcessor(s, a), m)
  {
    match a
    case Deliver(m') => DeliverKeepsBalance(s, m', m);
    case Republish => RepublishKeepsBalance(s, m);
    case Acknowledge => AcknowledgeKeepsBalance(s, m);
    case ProcessorFails => HaltKeepsBalance(s, m);
    case ProcessNext => NextKeepsBalance(s, m);
    case RequireGroup(u) => RequireKeepsBalance(s, u, m);
    case CatchUp => CatchUpKeepsBalance(s, m);
  }

  /** Conservation over every run, under every interleaving. */
  lemma {:induction false} MessagesAreConserved(s: Pool, keys: seq<Key>, actions: seq<Action>, m: Message)
    requires Initial(s, keys)
    ensures Balanced(Run(s, actions), m)
  {
    if actions != [] {
      var before := Run(s, actions[..|actions| - 1]);
      MessagesAreConserved(s, keys, actions[..|actions| - 1], m);
      match actions[|actions| - 1]
      case Outside(a) => OutsideKeepsBalance(before, a, m);
      case Control(a) => ControlKeepsBalance(before, a, m);
      case Process(a) => ProcessorKeepsBalance(before, a, m);
    }
  }

  /** The message the processor is working on. */
  function Held(p: Phase): multiset<Message> {
    if p.Idle? || p.Halted? then multiset{} else multiset{p.message}
  }

  /** What is delivered and not acknowledged is what the processor holds or has yet to look at. */
  ghost predicate Accounted(s: Pool, m: Message) {
    s.broker.unacked[m] == multiset(s.buffer)[m] + Held(s.phase)[m]
  }

  lemma OutsideKeepsAccount(s: Pool, a: OutsideAction)
    ensures StepOutside(s, a).broker.unacked == s.broker.unacked
    ensures StepOutside(s, a).buffer == s.buffer && StepOutside(s, a).phase == s.phase
  {
  }

  lemma ControlKeepsAccount(s: Pool, a: ControlAction)
    ensures StepControl(s, a).broker.unacked == s.broker.unacked
    ensures StepControl(s, a).buffer == s.buffer && StepControl(s, a).phase == s.phase
  {
  }

  lemma DeliverKeepsAccount(s: Pool, m': Message, m: Message)
    requires Accounted(s, m)
    ensures Accounted(DeliverTo(s, m'), m)
  {
  }

  lemma NextKeepsAccount(s: Pool, m: Message)
    requires Accounted(s, m)
    ensures Accounted(NextHeld(s), m)
  {
    if s.buffer != [] {
      assert s.buffer == [s.buffer[0]] + s.buffer[1..];
      assert multiset(s.buffer) == multiset{s.buffer[0]} + multiset(s.buffer[1..]);
    }
  }

  lemma RequireKeepsAccount(s: Pool, u: Update, m: Message)
    requires Accounted(s, m)
    ensures Accounted(RequireHeld(s, u), m)
  {
  }

  lemma CatchUpKeepsAccount(s: Pool, m: Message)
    requires Accounted(s, m)
    ensures Accounted(CatchUpHeld(s), m)
  {
  }

  lemma RepublishKeepsAccount(s: Pool, m: Message)
    requires Accounted(s, m)
    ensures Accounted(RepublishHeld(s), m)
  {
  }

  lemma AcknowledgeKeepsAccount(s: Pool, m: Message)
    requires Accounted(s, m)
    ensures Accounted(AcknowledgeHeld(s), m)
  {
  }

  lemma ProcessorKeepsAccount(s: Pool, a: ProcessorAction, m: Message)
    requires Accounted(s, m)
    ensures Accounted(StepProcessor(s, a), m)
  {
    match a
    case Deliver(m') => DeliverKeepsAccount(s, m', m);
    case Republish => RepublishKeepsAccount(s, m);
    case Acknowledge => AcknowledgeKeepsAccount(s, m);
    case ProcessorFails =>
    case ProcessNext => NextKeepsAccount(s, m);
    case RequireGroup(u) => RequireKeepsAccount(s, u, m);
    case CatchUp => CatchUpKeepsAccount(s, m);
  }

  /** So the acknowledgement that follows a republication is always possible. */
  lemma {:induction false} UnackedAreHeld(s: Pool, keys: seq<Key>, actions: seq<Action>, m: Message)
    requires Initial(s, keys)
    ensures Accounted(Run(s, actions), m)
    ensures Run(s, actions).phase == Republished(m) ==> m in Run(s, actions).broker.unacked
  {
    if actions != [] {
      var before := Run(s, actions[..|actions| - 1]);
      UnackedAreHeld(s, keys, actions[..|actions| - 1], m);
      match actions[|actions| - 1]
      case Outside(a) => OutsideKeepsAccount(before, a);
      case Control(a) => ControlKeepsAccount(before, a);
      case Process(a) => ProcessorKeepsAccount(before, a, m);
    }
  }

  // ---------------------------------------------------------------------------------------------
  // Convergence of the report
  // ---------------------------------------------------------------------------------------------

  /** The controller never runs ahead of the tracker, nor the processor ahead of the controller. */
  ghost predicate Synchronised(s: Pool) {
    && s.controller.reportedGeneration == s.controller.target.generation <= s.published.generation
    && (s.phase.CaughtUp? ==> s.phase.generation <= s.controller.reportedGeneration)
  }

  lemma ControlKeepsSynchronised(s: Pool, a: ControlAction)
    requires Synchronised(s)
    ensures Synchronised(StepControl(s, a))
    ensures s.controller.reportedGeneration <= StepControl(s, a).controller.reportedGeneration
  {
  }

  lemma StepKeepsSynchronised(s: Pool, a: Action)
    requires Synchronised(s)
    ensures Synchronised(Step(s, a))
    ensures s.controller.reportedGeneration <= Step(s, a).controller.reportedGeneration
  {
    if a.Control? {
      ControlKeepsSynchronised(s, a.control);
    } else {
      assert Step(s, a).controller == s.controller;
    }
  }

  /** Over every run, the reported generation never decreases nor passes the published one. */
  lemma {:induction false} GenerationsNeverGoBack(s: Pool, keys: seq<Key>, actions: seq<Action>, n: nat)
    requires Initial(s, keys) && n <= |actions|
    ensures Synchronised(Run(s, actions))
    ensures Run(s, actions[..n]).controller.reportedGeneration <= Run(s, actions).controller.reportedGeneration
  {
    if actions == [] {
      SpawnAllPursues(Assumed(s.broker.queues.Keys, s.published), keys, s.published.queues, Key(""));
    } else {
      var init := actions[..|actions| - 1];
      GenerationsNeverGoBack(s, keys, init, if n < |actions| then n else 0);
      StepKeepsSynchronised(Run(s, init), actions[|actions| - 1]);
      if n < |actions| {
        assert init[..n] == actions[..n];
      } else {
        assert actions[..n] == actions;
      }
    }
  }

  /** What a run may be asked to respect when it completes a job or adopts a target. */
  datatype Discipline = SpawnOrder | LatestLast | OnlyHarmless | NoneRunning | Aborting

  /** The controller holds the handle of the job of this key that runs, if one does. */
  ghost predicate Replaceable(c: Controller, progress: map<nat, nat>, failed: set<nat>, k: Key) {
    forall job :: job in c.jobs && job.key == k && Runs(c, progress, failed, job) ==> Lookup(c.handles, k) == Some(job.id)
  }

  ghost predicate Respects(s: Pool, i: nat, d: Discipline)
    requires i < |s.controller.jobs|
  {
    var c := s.controller;
    match d
    case SpawnOrder => InOrder(c, i)
    case LatestLast => InOrder(c, i) || Superseded(c, i)
    case OnlyHarmless => Harmless(c, i)
    case NoneRunning =>
      forall other :: other in c.jobs && other.key == c.jobs[i].key ==> !Runs(c, s.progress, s.failed, other)
    case Aborting => true
  }

  ghost predicate CanAdopt(s: Pool, keys: seq<Key>) {
    !s.stopped && DiffOrder(s.controller.target.queues, s.published.queues, keys)
  }

  ghost predicate Obeys(s: Pool, a: Action, d: Discipline) {
    && (a.Control? && a.control.JobJoins? && CanComplete(s, a.control.index) ==> Respects(s, a.control.index, d))
    && (d == Aborting && a.Control? && a.control.AdoptTarget? && CanAdopt(s, a.control.keys) ==>
          forall k :: k in a.control.keys ==> Replaceable(s.controller, s.progress, s.failed, k))
  }

  ghost predicate AlwaysObeys(s: Pool, actions: seq<Action>, d: Discipline) {
    actions == [] ||
    (AlwaysObeys(s, actions[..|actions| - 1], d) && Obeys(Run(s, actions[..|actions| - 1]), actions[|actions| - 1], d))
  }

  /** At every moment of the run, each key is reported as wanted or its latest job is taking it there. */
  ghost predicate AlwaysChasing(s: Pool, actions: seq<Action>) {
    Chasing(Run(s, actions).controller) && (actions == [] || AlwaysChasing(s, actions[..|actions| - 1]))
  }

  lemma ControlChasesIff(s: Pool, a: ControlAction)
    requires Chasing(s.controller)
    ensures Chasing(StepControl(s, a).controller) <==> Obeys(s, Control(a), OnlyHarmless)
  {
    match a
    case AdoptTarget(keys) =>
      if DiffOrder(s.controller.target.queues, s.published.queues, keys) {
        ChangeKeepsChasing(s.controller, s.published, keys);
      }
    case JobJoins(i) =>
      if CanJoin(s, i) {
        JoinKeepsChasingIff(s.controller, i);
      }
    case JobOperates(_) =>
    case JobFails(_) =>
  }

  lemma StepChasesIff(s: Pool, a: Action)
    requires Chasing(s.controller)
    ensures Chasing(Step(s, a).controller) <==> Obeys(s, a, OnlyHarmless)
  {
    if a.Control? {
      ControlChasesIff(s, a.control);
    } else {
      assert Step(s, a).controller == s.controller;
    }
  }

  /** A run always chases its target exactly when all its joins are harmless. */
  lemma {:induction false} ReportConvergesIff(s: Pool, keys: seq<Key>, actions: seq<Action>)
    requires Initial(s, keys)
    ensures AlwaysChasing(s, actions) <==> AlwaysObeys(s, actions, OnlyHarmless)
  {
    if actions == [] {
      StartChases(s.broker.queues.Keys, s.published, keys);
    } else {
      var init := actions[..|actions| - 1];
      ReportConvergesIff(s, keys, init);
      if Chasing(Run(s, init).controller) {
        StepChasesIff(Run(s, init), actions[|actions| - 1]);
      } else {
        assert !AlwaysChasing(s, init);
      }
    }
  }

  lemma {:induction false} OrderIsHarmless(s: Pool, actions: seq<Action>, d: Discipline)
    requires (d == SpawnOrder || d == LatestLast) && AlwaysObeys(s, actions, d)
    ensures AlwaysObeys(s, actions, LatestLast) && AlwaysObeys(s, actions, OnlyHarmless)
  {
    if actions != [] {
      var init, a := actions[..|actions| - 1], actions[|actions| - 1];
      OrderIsHarmless(s, init, d);
      var before := Run(s, init);
      if a.Control? && a.control.JobJoins? && CanComplete(before, a.control.index) {
        JoinsInOrderAreHarmless(before.controller, a.control.index);
      }
    }
  }

  /**
   Over every run that joins the jobs of each key in spawn order, or only never the latest before an older one,
   each key is reported as wanted or its latest job is taking it there; with no job left the report is the target.
   */
  lemma JoinsInOrderConverge(s: Pool, keys: seq<Key>, actions: seq<Action>, d: Discipline)
    requires Initial(s, keys) && (d == SpawnOrder || d == LatestLast) && AlwaysObeys(s, actions, d)
    ensures AlwaysChasing(s, actions)
    ensures Run(s, actions).controller.jobs == [] ==>
              Run(s, actions).controller.reported == Run(s, actions).controller.target.queues
  {
    OrderIsHarmless(s, actions, d);
    ReportConvergesIff(s, keys, actions);
    if Run(s, actions).controller.jobs == [] {
      QuiescentReportIsTarget(Run(s, actions).controller);
    }
  }
}
